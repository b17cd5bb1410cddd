/**
 * The date resolver of the parse pipeline: the time-zone fallback chain
 * (`loadLocationOrIndia`), the confirmation flag (`needsDateConfirmation`)
 * and the in-place rewrite of the extracted entry's date (`ensureDate`).
 * The tz database is the predicate `loadable` and the wall clock is a
 * function from zone to the current calendar day in that zone.
 */
module DateResolver {
  import opened GoStrings
  import opened CivilDates
  import opened JsonValue

  const IndiaZone: string := "Asia/Kolkata"
  const IstAbbreviation: string := "IST"
  const IstOffsetSeconds: int := 19800  // 5 hours 30 minutes east of UTC

  datatype Zone = Named(name: string) | Fixed(abbreviation: string, offsetSeconds: int)

  /** The name `loadLocationOrIndia` tries first: the request, else the fallback, else India. */
  function CandidateZone(requested: string, fallback: string): (name: string)
    ensures TrimSpace(requested) != "" ==> name == requested
    ensures TrimSpace(requested) == "" && TrimSpace(fallback) != "" ==> name == fallback
    ensures TrimSpace(requested) == "" && TrimSpace(fallback) == "" ==> name == IndiaZone
  {
    var r := if TrimSpace(requested) == "" then fallback else requested;
    if TrimSpace(r) == "" then IndiaZone else r
  }

  /**
   * `loadLocationOrIndia`: the candidate name when it loads, otherwise
   * "Asia/Kolkata" when that loads, otherwise the fixed +05:30 "IST" zone.
   * It never fails, and a named result is always loadable.
   */
  function LoadLocationOrIndia(requested: string, fallback: string, loadable: string -> bool): (z: Zone)
    ensures z.Named? ==> loadable(z.name)
    ensures loadable(CandidateZone(requested, fallback)) ==> z == Named(CandidateZone(requested, fallback))
    ensures !loadable(CandidateZone(requested, fallback)) && loadable(IndiaZone) ==> z == Named(IndiaZone)
    ensures !loadable(CandidateZone(requested, fallback)) && !loadable(IndiaZone) ==>
      z == Fixed(IstAbbreviation, 19800)
  {
    var name := CandidateZone(requested, fallback);
    if loadable(name) then Named(name)
    else if loadable(IndiaZone) then Named(IndiaZone)
    else Fixed(IstAbbreviation, IstOffsetSeconds)
  }

  /**
   * The configured default is consulted only for a blank request: a
   * non-blank request that does not load goes straight to "Asia/Kolkata"
   * even when the default would load.
   */
  lemma UnloadableRequestSkipsDefault(requested: string, fallback: string, loadable: string -> bool)
    requires TrimSpace(requested) != "" && !loadable(requested)
    requires loadable(fallback) && fallback != IndiaZone
    ensures LoadLocationOrIndia(requested, fallback, loadable) != Named(fallback)
  {
  }

  /** `needsDateConfirmation`: `needs_confirmation` is an object whose `date` is the boolean true. */
  predicate NeedsDateConfirmation(entry: map<string, Json>) {
    && "needs_confirmation" in entry
    && entry["needs_confirmation"].JObject?
    && var flags := entry["needs_confirmation"].fields;
    && "date" in flags
    && flags["date"] == JBool(true)
  }

  /** `entry["date"].(string)`: the date text, with any non-string counting as "". */
  function DateText(entry: map<string, Json>): string
  {
    if HasString(entry, "date") then entry["date"].s else ""
  }

  /** Whether `ensureDate` overwrites the date. */
  predicate ResetsDate(entry: map<string, Json>) {
    var d := TrimSpace(DateText(entry));
    NeedsDateConfirmation(entry) || d == "" || !IsValidDate(d)
  }

  /** Today's date text in the zone the resolver picks. */
  function Today(tz: string, fallback: string, loadable: string -> bool, clock: Zone -> ValidDate): string
  {
    FormatDate(clock(LoadLocationOrIndia(tz, fallback, loadable)))
  }

  /** Today's date text is always a valid date. */
  lemma TodayIsValid(tz: string, fallback: string, loadable: string -> bool, clock: Zone -> ValidDate)
    ensures IsValidDate(Today(tz, fallback, loadable, clock))
  {
    FormattedIsValid(clock(LoadLocationOrIndia(tz, fallback, loadable)));
  }

  /** The entry after `ensureDate`: only `date` may change, and only to today. */
  function ResolvedEntry(entry: map<string, Json>, today: string): (r: map<string, Json>)
    ensures ResetsDate(entry) ==> r.Keys == entry.Keys + {"date"} && r["date"] == JString(today)
    ensures !ResetsDate(entry) ==> r == entry
    ensures forall k :: k in entry && k != "date" ==> k in r && r[k] == entry[k]
  {
    if ResetsDate(entry) then entry["date" := JString(today)] else entry
  }

  /** The resolver's three reasons to overwrite the date, as `ensureDate` tests them. */
  lemma ResetDecision(entry: map<string, Json>)
    ensures var d := TrimSpace(DateText(entry));
      ResetsDate(entry) <==> NeedsDateConfirmation(entry) || d == "" || ParseDate(d).None?
  {
  }

  /** `ResolvedEntry` either writes today's date or returns the entry as it was. */
  lemma ResolvedEntryCases(entry: map<string, Json>, today: string)
    ensures ResetsDate(entry) ==> ResolvedEntry(entry, today) == entry["date" := JString(today)]
    ensures !ResetsDate(entry) ==> ResolvedEntry(entry, today) == entry
  {
  }

  /** A valid date has no surrounding space, so trimming leaves it alone. */
  lemma ValidDateIsTrimmed(s: string)
    requires IsValidDate(s)
    ensures TrimSpace(s) == s
  {
    assert Decimal.IsDigit(s[0]) && Decimal.IsDigit(s[9]);
    assert !IsSpace(s[0]) && !IsSpace(s[9]);
    TrimmedIsFixed(s);
  }

  /**
   * After one pass the resolver would rewrite the date again only when the
   * confirmation flag is set, and then to the same value.
   */
  lemma {:induction false} ResolvedRecheck(entry: map<string, Json>, today: string)
    requires IsValidDate(today)
    ensures ResetsDate(ResolvedEntry(entry, today)) ==> NeedsDateConfirmation(entry)
  {
    ValidDateIsTrimmed(today);
    WrittenDateStands(entry, today);
    ResolvedEntryCases(entry, today);
  }

  /** Writing a valid, trimmed date leaves only the flag able to force another rewrite. */
  lemma WrittenDateStands(entry: map<string, Json>, today: string)
    requires IsValidDate(today) && TrimSpace(today) == today
    ensures ResetsDate(entry["date" := JString(today)]) ==> NeedsDateConfirmation(entry)
  {
    var r := entry["date" := JString(today)];
    assert DateText(r) == today;
    assert NeedsDateConfirmation(r) == NeedsDateConfirmation(entry);
  }

  /** For a fixed today, resolving twice is resolving once. */
  lemma {:induction false} ResolvedEntryIdempotent(entry: map<string, Json>, today: string)
    requires IsValidDate(today)
    ensures ResolvedEntry(ResolvedEntry(entry, today), today) == ResolvedEntry(entry, today)
  {
    var r := ResolvedEntry(entry, today);
    if ResetsDate(r) {
      ResolvedRecheck(entry, today);
      assert ResetsDate(entry);
      assert r["date" := JString(today)] == r;
    }
  }

  /** A valid date with surrounding spaces passes the check and is kept untrimmed. */
  lemma UntrimmedDateKept(date: string, today: string)
    requires IsValidDate(date)
    ensures var padded := " " + date + " ";
      var entry := map["date" := JString(padded)];
      !IsValidDate(padded) && ResolvedEntry(entry, today) == entry
  {
    var padded := " " + date + " ";
    var entry := map["date" := JString(padded)];
    SpaceLedIsNoDate(padded);
    ValidDateEdges(date);
    TrimSpacePadded(date);
    assert entry["date"] == JString(padded);
    assert !NeedsDateConfirmation(entry);
    DateKeptIff(entry);
  }

  /** A valid date neither starts nor ends with a space. */
  lemma ValidDateEdges(date: string)
    requires IsValidDate(date)
    ensures |date| > 0 && !IsSpace(date[0]) && !IsSpace(date[|date| - 1])
  {
    assert Decimal.IsDigit(date[0]) && Decimal.IsDigit(date[9]);
  }

  /** Text that opens with a space is not a date. */
  lemma SpaceLedIsNoDate(s: string)
    requires s != [] && s[0] == ' '
    ensures !IsValidDate(s)
  {
    assert !Decimal.IsDigit(s[0]);
  }

  /** The confirmation flag overrides the date, however valid: it becomes today. */
  lemma ConfirmationOverridesDate(entry: map<string, Json>, today: string)
    requires NeedsDateConfirmation(entry)
    ensures ResetsDate(entry) && ResolvedEntry(entry, today)["date"] == JString(today)
  {
  }

  /** The confirmation flag is read from its own key: the `date` field does not affect it. */
  lemma ConfirmationIgnoresDate(entry: map<string, Json>, v: Json)
    ensures NeedsDateConfirmation(entry["date" := v]) == NeedsDateConfirmation(entry)
  {
    assert entry["date" := v]["needs_confirmation" := JNull] == entry["needs_confirmation" := JNull]["date" := v];
  }

  /**
   * Without the flag, the date is kept exactly when it is a string whose
   * trimmed text is a valid date; a missing or non-string date is replaced.
   */
  lemma DateKeptIff(entry: map<string, Json>)
    requires !NeedsDateConfirmation(entry)
    ensures !ResetsDate(entry) <==> HasString(entry, "date") && IsValidDate(TrimSpace(entry["date"].s))
  {
    var d := TrimSpace(DateText(entry));
    assert ResetsDate(entry) <==> d == "" || !IsValidDate(d);
    assert !IsValidDate("");
    if HasString(entry, "date") {
      assert d == TrimSpace(entry["date"].s);
    } else {
      assert DateText(entry) == "";
      TrimSpaceEmptyIffBlank("");
    }
  }

  /** The flag counts only when it is the JSON boolean true, not the string "true". */
  lemma StringFlagIsNotConfirmation(entry: map<string, Json>)
    requires entry == map["needs_confirmation" := JObject(map["date" := JString("true")])]
    ensures !NeedsDateConfirmation(entry)
  {
  }

  /** A Go `map[string]any`, updated in place by `ensureDate`. */
  class JsonMap {
    var entries: map<string, Json>

    constructor (entries: map<string, Json>)
      ensures this.entries == entries
    {
      this.entries := entries;
    }
  }

  /**
   * `ensureDate`. A null `entry` is Go's nil map: reading it yields nothing,
   * so the resolver always decides to write and the write panics. The
   * `transcript` argument is accepted and never used.
   */
  method EnsureDate(entry: JsonMap?, transcript: string, tz: string, tzDefault: string,
                    loadable: string -> bool, clock: Zone -> ValidDate)
    returns (changed: bool, panicked: bool)
    modifies entry
    ensures entry == null ==> panicked && !changed
    ensures entry != null ==> !panicked && changed == ResetsDate(old(entry.entries))
    ensures entry != null ==>
      entry.entries == ResolvedEntry(old(entry.entries), Today(tz, tzDefault, loadable, clock))
  {
    var loc := LoadLocationOrIndia(tz, tzDefault, loadable);
    var now := clock(loc);
    var desired := "";
    var view := if entry == null then map[] else entry.entries;
    var dateStr := TrimSpace(DateText(view));
    var parsed := ParseDate(dateStr);
    ResetDecision(view);
    FormattedIsValid(now);
    if NeedsDateConfirmation(view) {
      desired := FormatDate(now);
    } else if dateStr == "" || parsed.None? {
      desired := FormatDate(now);
    }
    if desired == "" {
      return false, false;
    }
    if entry == null {
      // assignment to entry in nil map
      return false, true;
    }
    ghost var today := Today(tz, tzDefault, loadable, clock);
    ResolvedEntryCases(view, today);
    entry.entries := entry.entries["date" := JString(desired)];
    return true, false;
  }
}

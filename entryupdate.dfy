/**
 * `updateEntry` (`PUT /v1/entries/:id`): a partial update of one of the
 * caller's entries from a JSON object. The entries table is a sequence of
 * rows searched by id and owner; saving is a collaborator that may fail.
 */
module EntryUpdate {
  import opened Wrappers
  import opened GoStrings
  import opened JsonValue
  import opened EntryModel
  import Decimal

  /** `ShouldBindJSON` into a `map[string]any`: the object (a JSON null binds as no keys) or the decoder's error text. */
  datatype Bound = BoundObject(input: map<string, Json>) | BindFailed(message: string)

  datatype Reply = EntryBody(entry: Entry) | ErrorBody(error: string)

  datatype Answer = Answer(status: int, reply: Reply)

  /** The keys the handler reads from the body. */
  const MergedKeys: set<string> :=
    {"title", "amount", "type", "mode", "category", "notes", "merchant", "date", "time", "tag", "attachment"}

  /** `input[key].(string)` when it succeeds, else the current value. */
  function StringOr(input: map<string, Json>, key: string, current: string): string {
    if HasString(input, key) then input[key].s else current
  }

  /** `input[key].(float64)` when it succeeds, else the current value. */
  function NumberOr(input: map<string, Json>, key: string, current: real): real {
    if key in input && input[key].JNumber? then input[key].n else current
  }

  /**
   * The entry after the merge: each of the eleven keys replaces its field
   * when the body holds a value of the expected JSON type there (a number for
   * `amount`, a string for the rest), and `type` is stored lower-cased.
   */
  function MergeEntry(e: Entry, input: map<string, Json>): (r: Entry)
    ensures r.id == e.id && r.userId == e.userId
    ensures input == map[] ==> r == e
  {
    e.(title := StringOr(input, "title", e.title),
       amount := NumberOr(input, "amount", e.amount),
       kind := if HasString(input, "type") then ToLower(input["type"].s) else e.kind,
       mode := StringOr(input, "mode", e.mode),
       category := StringOr(input, "category", e.category),
       notes := StringOr(input, "notes", e.notes),
       merchant := StringOr(input, "merchant", e.merchant),
       date := StringOr(input, "date", e.date),
       time := StringOr(input, "time", e.time),
       tag := StringOr(input, "tag", e.tag),
       attachment := StringOr(input, "attachment", e.attachment))
  }

  /** The caller's row with this id, if there is one. */
  function FindOwned(rows: seq<Entry>, id: nat, userId: nat): (r: Option<Entry>)
    ensures r.Some? ==> r.value in rows && r.value.id == id && r.value.userId == userId
    ensures r.None? ==> forall k :: 0 <= k < |rows| ==> !(rows[k].id == id && rows[k].userId == userId)
  {
    if rows == [] then None
    else if rows[0].id == id && rows[0].userId == userId then Some(rows[0])
    else FindOwned(rows[1..], id, userId)
  }

  /** The answer of `updateEntry` for the caller `userId` and the path parameter `idParam`. */
  function UpdateEntryAnswer(userId: nat, idParam: string, rows: seq<Entry>, body: Bound,
                             save: Entry -> Option<string>): Answer
  {
    var id := Decimal.ParseUint32(idParam);
    if id.None? then Answer(400, ErrorBody("invalid id"))
    else
      var found := FindOwned(rows, id.value, userId);
      if found.None? then Answer(404, ErrorBody("entry not found"))
      else if body.BindFailed? then Answer(400, ErrorBody(body.message))
      else
        var merged := MergeEntry(found.value, body.input);
        match save(merged)
        case Some(err) => Answer(500, ErrorBody(err))
        case None => Answer(200, EntryBody(merged))
  }

  /** `updateEntry`: the fields are assigned one by one, in the handler's order. */
  method UpdateEntry(userId: nat, idParam: string, rows: seq<Entry>, body: Bound,
                     save: Entry -> Option<string>) returns (answer: Answer)
    ensures answer == UpdateEntryAnswer(userId, idParam, rows, body, save)
  {
    var id := Decimal.ParseUint32(idParam);
    if id.None? {
      return Answer(400, ErrorBody("invalid id"));
    }
    var found := FindOwned(rows, id.value, userId);
    if found.None? {
      return Answer(404, ErrorBody("entry not found"));
    }
    if body.BindFailed? {
      return Answer(400, ErrorBody(body.message));
    }
    var input := body.input;
    var entry := found.value;
    // each key replaces its field only when the body holds the expected JSON type there
    entry := entry.(title := StringOr(input, "title", entry.title));
    entry := entry.(amount := NumberOr(input, "amount", entry.amount));
    entry := entry.(kind := if HasString(input, "type") then ToLower(input["type"].s) else entry.kind);
    entry := entry.(mode := StringOr(input, "mode", entry.mode));
    entry := entry.(category := StringOr(input, "category", entry.category));
    entry := entry.(notes := StringOr(input, "notes", entry.notes));
    entry := entry.(merchant := StringOr(input, "merchant", entry.merchant));
    entry := entry.(date := StringOr(input, "date", entry.date));
    entry := entry.(time := StringOr(input, "time", entry.time));
    entry := entry.(tag := StringOr(input, "tag", entry.tag));
    entry := entry.(attachment := StringOr(input, "attachment", entry.attachment));
    var err := save(entry);
    if err.Some? {
      return Answer(500, ErrorBody(err.value));
    }
    return Answer(200, EntryBody(entry));
  }

  /** The id, the owner, the currency, the card network, the purpose, the tags and the source text never change. */
  lemma MergeKeepsFixedFields(e: Entry, input: map<string, Json>)
    ensures var r := MergeEntry(e, input);
      && r.id == e.id && r.userId == e.userId && r.currency == e.currency
      && r.cardNetwork == e.cardNetwork && r.purposeType == e.purposeType
      && r.tags == e.tags && r.sourceText == e.sourceText
  {
  }

  /** Keys outside the eleven, and values of the wrong JSON type, change nothing. */
  lemma MergeIgnoresOtherKeys(e: Entry, input: map<string, Json>)
    requires forall k :: k in input && k in MergedKeys ==>
      if k == "amount" then !input[k].JNumber? else !input[k].JString?
    ensures MergeEntry(e, input) == e
  {
  }

  /** An amount sent as text is not a number: the assertion fails and the amount stays. */
  lemma TextAmountIgnored(e: Entry, text: string)
    ensures MergeEntry(e, map["amount" := JString(text)]) == e
  {
    MergeIgnoresOtherKeys(e, map["amount" := JString(text)]);
  }

  /** The stored type is always lower-case, and merging the same body twice is merging it once. */
  lemma {:induction false} MergeIdempotent(e: Entry, input: map<string, Json>)
    ensures forall k :: 0 <= k < |MergeEntry(e, input).kind| && HasString(input, "type") ==>
      !('A' <= MergeEntry(e, input).kind[k] <= 'Z')
    ensures MergeEntry(MergeEntry(e, input), input) == MergeEntry(e, input)
  {
    if HasString(input, "type") {
      ToLowerIdempotent(input["type"].s);
    }
  }

  /**
   * The handler answers 200 exactly when the id parses as a 32-bit
   * unsigned number, the caller owns an entry with that id, the body binds
   * and the save succeeds; it then returns the merged entry, which still
   * belongs to the caller and keeps its id.
   */
  lemma UpdateSucceedsIff(userId: nat, idParam: string, rows: seq<Entry>, body: Bound,
                          save: Entry -> Option<string>)
    ensures var a := UpdateEntryAnswer(userId, idParam, rows, body, save);
      var id := Decimal.ParseUint32(idParam);
      a.status == 200 <==>
        && id.Some?
        && FindOwned(rows, id.value, userId).Some?
        && body.BoundObject?
        && save(MergeEntry(FindOwned(rows, id.value, userId).value, body.input)).None?
    ensures var a := UpdateEntryAnswer(userId, idParam, rows, body, save);
      a.status == 200 ==>
        && a.reply.EntryBody?
        && a.reply.entry == MergeEntry(FindOwned(rows, Decimal.ParseUint32(idParam).value, userId).value, body.input)
        && a.reply.entry.userId == userId
        && a.reply.entry.id == Decimal.ParseUint32(idParam).value
  {
  }

  /** An id that does not parse gives 400 before the table is consulted; an entry of another user is not found. */
  lemma UpdateRejections(userId: nat, idParam: string, rows: seq<Entry>, body: Bound,
                         save: Entry -> Option<string>)
    ensures Decimal.ParseUint32(idParam).None? ==>
      UpdateEntryAnswer(userId, idParam, rows, body, save) == Answer(400, ErrorBody("invalid id"))
    ensures (Decimal.ParseUint32(idParam).Some? &&
             forall k :: 0 <= k < |rows| ==> rows[k].userId != userId) ==>
      UpdateEntryAnswer(userId, idParam, rows, body, save) == Answer(404, ErrorBody("entry not found"))
  {
  }
}

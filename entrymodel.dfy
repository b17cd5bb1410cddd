/**
 * The `Entry` record and its `tags` column codec (`StringArray`), which
 * stores a list of strings as a JSON array in a jsonb column.
 */
module EntryModel {
  import opened Wrappers
  import opened JsonStrings

  /** A Go `[]string`: the nil slice, or a slice (possibly empty) of elements. */
  datatype StringArray = Nil | Items(items: seq<string>)

  /** The elements of a `StringArray`; the nil slice has none. */
  function Elems(sa: StringArray): seq<string> {
    if sa.Nil? then [] else sa.items
  }

  /** One row of the `entries` table; the timestamps are left out. */
  datatype Entry = Entry(
    id: nat,
    title: string,
    kind: string,
    amount: real,
    currency: string,
    mode: string,
    cardNetwork: string,
    category: string,
    merchant: string,
    purposeType: string,
    tag: string,
    tags: StringArray,
    notes: string,
    date: string,
    time: string,
    sourceText: string,
    attachment: string,
    userId: nat)

  /**
   * `StringArray.Value`: the text written to the column. No element gives
   * "[]" (never "null"), and the text always decodes back to the elements.
   */
  function Value(sa: StringArray): (text: string)
    ensures Elems(sa) == [] ==> text == "[]"
    ensures |text| >= 2 && text[0] == '['
    ensures Unmarshal(text) == DecodedArray(Strs(Elems(sa)))
  {
    var items := Elems(sa);
    MarshalRoundTrip(items);
    MarshalEmpty();
    if |items| == 0 then "[]" else Marshal(items)
  }

  /** A value handed to `Scan` by the database driver. */
  datatype DbValue = DbNull | DbBytes(data: string) | DbText(text: string) | DbOther(typeName: string)

  /**
   * Why `Scan` failed: a driver value of another Go type, text that is not
   * JSON (`json.SyntaxError`), or JSON of the wrong shape for a `[]string`
   * (`json.UnmarshalTypeError`).
   */
  datatype ScanError = UnsupportedType(message: string) | InvalidJson | WrongJsonType

  /** The receiver and the error after `Scan`. */
  datatype Scanned = Scanned(sa: StringArray, err: Option<ScanError>)

  /** The column text a driver value carries, if it carries text at all. */
  function DataOf(value: DbValue): Option<string> {
    match value
    case DbBytes(data) => Some(data)
    case DbText(text) => Some(text)
    case _ => None
  }

  /**
   * `json.Unmarshal` into the receiver. A syntax error, or a value that is
   * neither an array nor `null`, leaves it as it was; an array is written
   * over the receiver's elements, and a mistyped element is reported only
   * after the whole array has been written.
   */
  function ScanData(prior: StringArray, data: string): Scanned {
    if data == [] then Scanned(Nil, None)
    else
      match Unmarshal(data)
      case DecodedNil => Scanned(Nil, None)
      case DecodedArray(xs) => Scanned(Items(Reuse(Elems(prior), xs)), if Mistyped in xs then Some(WrongJsonType) else None)
      case DecodedOther => Scanned(prior, Some(WrongJsonType))
      case Malformed => Scanned(prior, Some(InvalidJson))
  }

  /** The effect of `StringArray.Scan(value)` on a receiver holding `prior`. */
  function ScanResult(prior: StringArray, value: DbValue): Scanned {
    match value
    case DbNull => Scanned(Nil, None)
    case DbOther(typeName) => Scanned(prior, Some(UnsupportedType("unsupported type for StringArray: " + typeName)))
    case _ => ScanData(prior, DataOf(value).value)
  }

  /** The `tags` field of an entry, written through a pointer receiver by `Scan`. */
  class StringArrayCell {
    var sa: StringArray

    constructor (sa: StringArray)
      ensures this.sa == sa
    {
      this.sa := sa;
    }

    /** `StringArray.Scan`. */
    method Scan(value: DbValue) returns (err: Option<ScanError>)
      modifies this
      ensures Scanned(sa, err) == ScanResult(old(sa), value)
    {
      if value.DbNull? {
        sa := Nil;
        return None;
      }
      var data: string;
      match value {
        case DbBytes(d) => data := d;
        case DbText(t) => data := t;
        case DbOther(typeName) =>
          return Some(UnsupportedType("unsupported type for StringArray: " + typeName));
      }
      if |data| == 0 {
        sa := Nil;
        return None;
      }
      match Unmarshal(data) {
        case DecodedNil => sa := Nil;
        case DecodedArray(xs) =>
          sa := Items(Reuse(Elems(sa), xs));
          if Mistyped in xs {
            return Some(WrongJsonType);
          }
        case DecodedOther => return Some(WrongJsonType);
        case Malformed => return Some(InvalidJson);
      }
      return None;
    }
  }

  /** Reading back what `Value` wrote gives the same elements, from any prior receiver; nil comes back empty. */
  lemma ScanValueRoundTrip(prior: StringArray, sa: StringArray)
    ensures ScanResult(prior, DbBytes(Value(sa))) == Scanned(Items(Elems(sa)), None)
    ensures ScanResult(prior, DbText(Value(sa))) == Scanned(Items(Elems(sa)), None)
  {
    var text := Value(sa);
    ScanDecodedItems(prior, text, Elems(sa));
    ScanBytesAsText(prior, text);
  }

  /** Non-empty data that decodes to elements is scanned as those elements, without an error. */
  lemma ScanDecodedItems(prior: StringArray, data: string, xs: seq<string>)
    requires data != [] && Unmarshal(data) == DecodedArray(Strs(xs))
    ensures ScanData(prior, data) == Scanned(Items(xs), None)
  {
    ReuseOfStrings(Elems(prior), xs);
    assert Mistyped !in Strs(xs);
  }

  /** `Scan` gives the same result for the bytes and for the string of the same text. */
  lemma ScanBytesAsText(prior: StringArray, data: string)
    ensures ScanResult(prior, DbBytes(data)) == ScanResult(prior, DbText(data))
    ensures ScanResult(prior, DbBytes(data)) == ScanData(prior, data)
  {
  }

  /** `Scan(nil)` and empty data both give the nil array without an error. */
  lemma ScanNothingIsNil(prior: StringArray)
    ensures ScanResult(prior, DbNull) == Scanned(Nil, None)
    ensures ScanResult(prior, DbBytes("")) == Scanned(Nil, None)
    ensures ScanResult(prior, DbText("")) == Scanned(Nil, None)
  {
  }

  /** A value of any other type is an error and leaves the receiver unchanged. */
  lemma ScanOtherTypeRejected(prior: StringArray, typeName: string)
    ensures ScanResult(prior, DbOther(typeName)).sa == prior
    ensures ScanResult(prior, DbOther(typeName)).err.Some?
  {
  }

  /**
   * A syntax error or an unsupported driver type leaves the receiver
   * unchanged; so does a type error for a value that is not an array.
   */
  lemma ScanErrorKeepsReceiver(prior: StringArray, value: DbValue)
    ensures var r := ScanResult(prior, value);
      && (r.err.Some? && !r.err.value.WrongJsonType? ==> r.sa == prior)
      && (r.err == Some(WrongJsonType) && r.sa != prior ==>
            DataOf(value).Some? && Unmarshal(DataOf(value).value).DecodedArray?)
  {
    match value
    case DbNull =>
    case DbOther(_) =>
    case DbBytes(data) => DataErrorKeepsReceiver(prior, data);
    case DbText(text) => DataErrorKeepsReceiver(prior, text);
  }

  /** `ScanErrorKeepsReceiver` for the data a driver value carries. */
  lemma DataErrorKeepsReceiver(prior: StringArray, data: string)
    ensures var r := ScanData(prior, data);
      && (r.err.Some? && !r.err.value.WrongJsonType? ==> r.sa == prior)
      && (r.err == Some(WrongJsonType) && r.sa != prior ==> Unmarshal(data).DecodedArray?)
  {
    if data != [] {
      match Unmarshal(data)
      case DecodedNil =>
      case DecodedArray(xs) => ArrayScansAsReuse(prior, data, xs);
      case DecodedOther =>
      case Malformed =>
    }
  }

  /**
   * A decoded array always replaces the receiver's length, and it writes its
   * strings; `null` and a mistyped element keep the element already there,
   * or "" past the receiver's old length.
   */
  lemma ScanArrayOverwrites(prior: StringArray, data: string, xs: seq<Item>)
    requires data != [] && Unmarshal(data) == DecodedArray(xs)
    ensures var r := ScanData(prior, data);
      && r.sa.Items? && |r.sa.items| == |xs|
      && (forall i :: 0 <= i < |xs| && xs[i].Str? ==> r.sa.items[i] == xs[i].s)
      && (forall i :: 0 <= i < |xs| && !xs[i].Str? ==>
            r.sa.items[i] == if i < |Elems(prior)| then Elems(prior)[i] else "")
      && (r.err.Some? <==> Mistyped in xs)
  {
    ArrayScansAsReuse(prior, data, xs);
  }

  /** Data that decodes to an array scans as the reuse of the receiver's elements. */
  lemma ArrayScansAsReuse(prior: StringArray, data: string, xs: seq<Item>)
    requires data != [] && Unmarshal(data) == DecodedArray(xs)
    ensures ScanData(prior, data) ==
      Scanned(Items(Reuse(Elems(prior), xs)), if Mistyped in xs then Some(WrongJsonType) else None)
  {
  }

  /** Text from the driver is scanned as its own bytes. */
  lemma TextScansAsData(prior: StringArray, text: string)
    ensures ScanResult(prior, DbText(text)) == ScanData(prior, text)
  {
  }

  /** Scanning text that decodes to an array of strings and nulls: no error. */
  lemma ScanOfWellTypedArray(prior: StringArray, text: string, xs: seq<Item>)
    requires text != [] && Unmarshal(text) == DecodedArray(xs) && Mistyped !in xs
    ensures ScanResult(prior, DbText(text)) == Scanned(Items(Reuse(Elems(prior), xs)), None)
  {
    TextScansAsData(prior, text);
  }

  /** Scanning text that decodes to an array with a mistyped element: the array is written and the error reported. */
  lemma ScanOfMistypedArray(prior: StringArray, text: string, xs: seq<Item>)
    requires text != [] && Unmarshal(text) == DecodedArray(xs) && Mistyped in xs
    ensures ScanResult(prior, DbText(text)) == Scanned(Items(Reuse(Elems(prior), xs)), Some(WrongJsonType))
  {
    TextScansAsData(prior, text);
  }

  /** `null` in an array does not clear the element it lands on: `[s]` scanning `[null]` stays `[s]`. */
  lemma ScanNullKeepsElement(s: string)
    ensures ScanResult(Items([s]), DbText("[null]")) == Scanned(Items([s]), None)
  {
    NullArrayReads();
    ReuseUnderNull(s);
    ScanOfWellTypedArray(Items([s]), "[null]", [Null]);
  }

  /** A mistyped element is an error, but the array is written first: an empty receiver scanning `[1]` becomes `[""]`. */
  lemma ScanTypeErrorWritesArray(prior: StringArray)
    requires Elems(prior) == []
    ensures ScanResult(prior, DbText("[1]")) == Scanned(Items([""]), Some(WrongJsonType))
  {
    NumberArrayReads();
    ReuseUnderMistyped();
    ScanOfMistypedArray(prior, "[1]", [Mistyped]);
  }
}

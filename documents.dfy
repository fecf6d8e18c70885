/** Field values of the cloud documents the pages read (transactions,
    categories, settings, projects) and the JavaScript coercions the pages
    apply to them: `Number(v)`, truthiness and `v || fallback`, and
    `String(v)` of a category id. */
module Documents {
  import opened Wrappers
  import opened Text

  /** A field as read from a document: missing (`undefined`), `null`, a
      string, a (finite) number, a boolean or a `Timestamp` (milliseconds). */
  datatype Value = Absent | Null | Str(s: string) | Number(x: real) | Bool(b: bool) | Stamp(ms: int)

  /** JavaScript truthiness; a `Timestamp` is an object, so it is truthy. */
  predicate Truthy(v: Value) {
    match v
    case Absent => false
    case Null => false
    case Str(s) => s != ""
    case Number(x) => x != 0.0
    case Bool(b) => b
    case Stamp(_) => true
  }

  /** `Number(v)`; `None` stands for NaN. A `Timestamp` is read as NaN: its
      `valueOf` is part of the cloud SDK, which is not modelled. */
  function ToNumber(v: Value): (r: Option<real>)
    ensures v.Number? ==> r == Some(v.x)
    ensures v.Absent? || v.Stamp? ==> r.None?
    ensures v.Null? ==> r == Some(0.0)
  {
    match v
    case Absent => None
    case Null => Some(0.0)
    case Str(s) => ParseNumber(s)
    case Number(x) => Some(x)
    case Bool(b) => Some(if b then 1.0 else 0.0)
    case Stamp(_) => None
  }

  /** `Number(v) || 0`: NaN (and 0) become 0, so the result is always a
      number. */
  function NumberOrZero(v: Value): real {
    ToNumber(v).GetOr(0.0)
  }

  /** A stored number is read back as itself, a printed integer as its
      value, and a field that does not hold a number as 0. */
  lemma NumberOrZeroReads(x: real, i: int, s: string)
    ensures NumberOrZero(Number(x)) == x
    ensures NumberOrZero(Str(IntToString(i))) == i as real
    ensures NumberOrZero(Absent) == 0.0 && NumberOrZero(Null) == 0.0
    ensures (exists k :: 0 <= k < |s| && !IsDigit(s[k]) && s[k] != '.' && s[k] != '-') ==> NumberOrZero(Str(s)) == 0.0
  {
    ParseIntToString(i);
  }

  /** `v || fallback` for a text field: a missing, null or empty text gives
      the fallback. */
  function TextOr(v: Option<string>, fallback: string): (r: string)
    ensures v.Some? && v.value != "" ==> r == v.value
    ensures v.None? || v.value == "" ==> r == fallback
  {
    if v.Some? && v.value != "" then v.value else fallback
  }

  /** A text defaulted to a non-empty fallback is never empty. */
  lemma TextOrNonEmpty(v: Option<string>, fallback: string)
    requires fallback != ""
    ensures TextOr(v, fallback) != ""
  {
  }

  /** The `categoryId` field of a transaction. */
  datatype IdValue = IdMissing | IdNull | IdText(s: string) | IdNumber(i: int)

  /** `String(v)` */
  function IdString(v: IdValue): string {
    match v
    case IdMissing => "undefined"
    case IdNull => "null"
    case IdText(s) => s
    case IdNumber(i) => IntToString(i)
  }

  /** `String(t.categoryId) === String(catId)` for a document id `catId`. */
  predicate IdMatches(v: IdValue, catId: string) {
    IdString(v) == catId
  }

  /** Two integers print the same exactly when they are equal. */
  lemma IntToStringInjective(i: int, j: int)
    ensures IntToString(i) == IntToString(j) <==> i == j
  {
    if IntToString(i) == IntToString(j) {
      ParseIntToString(i);
      ParseIntToString(j);
    }
  }

  /** The printed form of an integer is neither "undefined" nor "null". */
  lemma IntToStringNotWord(i: int)
    ensures IntToString(i) != "undefined" && IntToString(i) != "null"
  {
    var s := IntToString(i);
    if i < 0 {
      assert s[1..] == NatToString(-i);
      assert IsDigit(s[1]);
    } else {
      assert IsDigit(s[0]);
    }
  }

  /** A category whose id is the printed integer `i` collects the
      transactions whose `categoryId` is the number `i` or the text of it,
      and no others: the comparison is made after string coercion. */
  lemma IdMatchesPrinted(v: IdValue, i: int)
    ensures IdMatches(v, IntToString(i)) <==> v == IdNumber(i) || v == IdText(IntToString(i))
  {
    IntToStringNotWord(i);
    if v.IdNumber? {
      IntToStringInjective(v.i, i);
    }
  }

  /** A project document: `status` and `title` as stored, `progress` the raw
      field. */
  datatype ProjectDoc = ProjectDoc(id: string, title: string, status: Option<string>, progress: Value)
}

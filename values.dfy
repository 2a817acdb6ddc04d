/**
 * The value objects the parser builds from decoded records: workbooks, sheets,
 * cells with their address and typed value, and the error objects it emits.
 */
module Values {
  import opened Records

  // ---------------------------------------------------------------------------
  // Decimal rendering of row numbers (JavaScript's `string + number`)
  // ---------------------------------------------------------------------------

  predicate IsDigit(ch: char) { '0' <= ch <= '9' }

  function Digit(d: nat): (ch: char)
    requires d < 10
    ensures IsDigit(ch) && ch as int - '0' as int == d
  {
    ('0' as int + d) as char
  }

  /** The shortest decimal numeral of `n`, as JavaScript prints an integer. */
  function Decimal(n: nat): string
    decreases n
  {
    if n < 10 then [Digit(n)] else Decimal(n / 10) + [Digit(n % 10)]
  }

  /** The number a string of decimal digits denotes. */
  function DigitsValue(s: string): nat
    requires forall i :: 0 <= i < |s| ==> IsDigit(s[i])
  {
    if s == [] then 0
    else DigitsValue(s[..|s| - 1]) * 10 + DigitValue(s[|s| - 1])
  }

  function DigitValue(ch: char): nat
    requires IsDigit(ch)
  {
    ch as int - '0' as int
  }

  /** A numeral without leading zeros, as `Decimal` produces. */
  predicate Canonical(s: string) {
    s != [] && (forall i :: 0 <= i < |s| ==> IsDigit(s[i])) && (s[0] == '0' ==> |s| == 1)
  }

  /** `Decimal` yields a canonical numeral of `n`. */
  lemma {:induction false} DecimalCanonical(n: nat)
    ensures Canonical(Decimal(n)) && DigitsValue(Decimal(n)) == n
    decreases n
  {
    if n >= 10 {
      DecimalCanonical(n / 10);
      var p := Decimal(n / 10);
      assert (p + [Digit(n % 10)])[..|p|] == p;
    }
  }

  lemma {:induction false} CanonicalPositive(s: string)
    requires Canonical(s) && s[0] != '0'
    ensures DigitsValue(s) >= 1
    decreases |s|
  {
    if |s| > 1 {
      CanonicalPositive(s[..|s| - 1]);
    }
  }

  /** Every canonical numeral is the rendering of the number it denotes, so
      `Decimal` and `DigitsValue` are inverse bijections. */
  lemma {:induction false} CanonicalDecimal(s: string)
    requires Canonical(s)
    ensures Decimal(DigitsValue(s)) == s
    decreases |s|
  {
    if |s| > 1 {
      var p := s[..|s| - 1];
      CanonicalPositive(p);
      CanonicalDecimal(p);
      assert p + [s[|s| - 1]] == s;
    }
  }

  /** JavaScript's rendering of an integer. */
  function IntText(i: int): string {
    if i < 0 then "-" + Decimal(-i) else Decimal(i)
  }

  // ---------------------------------------------------------------------------
  // Cell addresses
  // ---------------------------------------------------------------------------

  /** `cn + (r + 1)`: the column letters followed by the one-based row number. */
  function Address(cn: string, r: nat): string {
    cn + Decimal(r + 1)
  }

  /** An address is the column letters followed by the canonical numeral of
      the one-based row, so the row can be read back from it. */
  lemma {:induction false} AddressParts(cn: string, r: nat)
    ensures |Address(cn, r)| > |cn|
    ensures Address(cn, r)[..|cn|] == cn
    ensures Canonical(Address(cn, r)[|cn|..])
    ensures DigitsValue(Address(cn, r)[|cn|..]) == r + 1
  {
    DecimalCanonical(r + 1);
    assert Address(cn, r)[|cn|..] == Decimal(r + 1);
  }

  /** The addresses the sample workbook's test expects. */
  lemma {:induction false} SampleAddresses()
    ensures Address("A", 0) == "A1" && Address("E", 0) == "E1"
    ensures Address("A", 5) == "A6" && Address("E", 5) == "E6"
    ensures Address("A", 50) == "A51" && Address("E", 50) == "E51"
  {
  }

  // ---------------------------------------------------------------------------
  // Typed cell values
  // ---------------------------------------------------------------------------

  const CellTypeDate := 3
  const CellTypeError := 5
  const CellTypeBlank := 6

  /** A cell value as the parser hands it out. A JavaScript `Date` is kept as
      the six constructor arguments (the month zero-based); `InvalidDate`
      stands for whatever a date-coded value that is not six numbers would
      give, which this model does not follow; an `Error` is kept as its
      message; `Undefined` is JavaScript's `undefined`. */
  datatype Value =
    | Plain(v: Json)
    | Date(year: real, month0: real, day: real, hour: real, minute: real, second: real)
    | InvalidDate
    | ErrorMarker(text: Json)
    | Undefined

  predicate IsDateTuple(v: Json) {
    v.JArr? && |v.items| >= 6 && forall i :: 0 <= i < 6 ==> v.items[i].JNum?
  }

  /** `new Date(v[0], v[1] - 1, v[2], v[3], v[4], v[5])` for the reader's
      six-number date tuple; any other value is mapped to `InvalidDate`. */
  function DateOf(v: Json): Value {
    if IsDateTuple(v) then
      var p := v.items;
      Date(p[0].n, p[1].n - 1.0, p[2].n, p[3].n, p[4].n, p[5].n)
    else
      InvalidDate
  }

  /** The value chosen by the reader's cell type code `t`. */
  function CellValueOf(t: int, v: Json): Value {
    if t == CellTypeDate then DateOf(v)
    else if t == CellTypeError then ErrorMarker(v)
    else if t == CellTypeBlank then Undefined
    else Plain(v)
  }

  /** An encoding of a value as a type code and a raw value, as the reader
      produces it for dates, errors and blanks. For plain values the codes
      are illustrative: any code other than 3, 5 and 6 passes the value
      through unchanged. */
  function WireOf(x: Value): (int, Json) {
    match x
    case Plain(v) =>
      var t := match v
        case JStr(_) => 1
        case JNum(_) => 2
        case JBool(_) => 4
        case _ => 0;
      (t, v)
    case Date(y, m0, d, h, mi, s) =>
      (CellTypeDate, JArr([JNum(y), JNum(m0 + 1.0), JNum(d), JNum(h), JNum(mi), JNum(s)]))
    case InvalidDate => (CellTypeDate, JArr([]))
    case ErrorMarker(text) => (CellTypeError, text)
    case Undefined => (CellTypeBlank, JStr(""))
  }

  /** Decoding undoes the reader's encoding for every value. */
  lemma {:induction false} CellValueRoundTrip(x: Value)
    ensures CellValueOf(WireOf(x).0, WireOf(x).1) == x
  {
    match x
    case Date(y, m0, d, h, mi, s) =>
      var w := WireOf(x).1;
      assert IsDateTuple(w);
      assert w.items[1].n - 1.0 == m0;
    case _ =>
  }

  /** A date tuple from the reader becomes a date with a zero-based month. */
  lemma {:induction false} DateFromTuple(t: seq<real>, extra: seq<Json>)
    requires |t| == 6
    ensures var v := JArr([JNum(t[0]), JNum(t[1]), JNum(t[2]), JNum(t[3]), JNum(t[4]), JNum(t[5])] + extra);
            CellValueOf(CellTypeDate, v) == Date(t[0], t[1] - 1.0, t[2], t[3], t[4], t[5])
  {
    var v := JArr([JNum(t[0]), JNum(t[1]), JNum(t[2]), JNum(t[3]), JNum(t[4]), JNum(t[5])] + extra);
    assert IsDateTuple(v);
  }

  /** A cell of the output rows. */
  datatype Cell = Cell(row: nat, column: nat, address: string, value: Value)

  function MakeCell(r: nat, c: nat, cn: string, t: int, v: Json): Cell {
    Cell(r, c, Address(cn, r), CellValueOf(t, v))
  }

  /** A cell keeps its position, is addressed by its column letters and
      one-based row (the test's `rows[50][4]` is `E51`), and carries the
      value its type code selects. */
  lemma {:induction false} CellContents(r: nat, c: nat, cn: string, t: int, v: Json)
    ensures MakeCell(r, c, cn, t, v).row == r && MakeCell(r, c, cn, t, v).column == c
    ensures MakeCell(r, c, cn, t, v).address[..|cn|] == cn
    ensures Canonical(MakeCell(r, c, cn, t, v).address[|cn|..])
    ensures DigitsValue(MakeCell(r, c, cn, t, v).address[|cn|..]) == r + 1
    ensures t == CellTypeBlank ==> MakeCell(r, c, cn, t, v).value == Undefined
    ensures t == CellTypeError ==> MakeCell(r, c, cn, t, v).value == ErrorMarker(v)
    ensures t !in {CellTypeDate, CellTypeError, CellTypeBlank} ==> MakeCell(r, c, cn, t, v).value == Plain(v)
    ensures MakeCell(50, 4, "E", t, v).address == "E51"
  {
    AddressParts(cn, r);
    SampleAddresses();
  }

  // ---------------------------------------------------------------------------
  // Sheets and workbooks
  // ---------------------------------------------------------------------------

  datatype Visibility = Visible | Hidden | VeryHidden

  /** The reader's visibility code: 1 is hidden, 2 is very hidden, anything
      else is visible. */
  function VisibilityOf(code: int): Visibility {
    if code == 1 then Hidden else if code == 2 then VeryHidden else Visible
  }

  /** The code the reader uses for each visibility. */
  function VisibilityCode(v: Visibility): int {
    match v
    case Visible => 0
    case Hidden => 1
    case VeryHidden => 2
  }

  /** The mapping inverts the reader's codes, and every unknown code is read
      as visible. */
  lemma {:induction false} VisibilityRoundTrip(v: Visibility, code: int)
    ensures VisibilityOf(VisibilityCode(v)) == v
    ensures code in {0, 1, 2} ==> VisibilityCode(VisibilityOf(code)) == code
    ensures code !in {1, 2} <==> VisibilityOf(code) == Visible
  {
  }

  datatype Bounds = Bounds(rows: nat, columns: nat)
  datatype Sheet = Sheet(index: nat, name: string, bounds: Bounds, visibility: Visibility)

  function MakeSheet(rec: Record): (s: Sheet)
    requires rec.SheetRecord?
    ensures s.index == rec.index && s.name == rec.name
    ensures s.bounds == Bounds(rec.rows, rec.cols)
    ensures s.visibility == Hidden <==> rec.visibility == 1
    ensures s.visibility == VeryHidden <==> rec.visibility == 2
  {
    Sheet(rec.index, rec.name, Bounds(rec.rows, rec.cols), VisibilityOf(rec.visibility))
  }

  datatype SheetSummary = SheetSummary(count: nat, names: seq<string>)
  datatype Meta = Meta(user: string, sheets: SheetSummary)
  datatype Workbook = Workbook(file: string, meta: Meta)

  function MakeWorkbook(rec: Record): Workbook
    requires rec.WorkbookRecord?
  {
    Workbook(rec.file, Meta(rec.user, SheetSummary(rec.count, rec.names)))
  }

  // ---------------------------------------------------------------------------
  // Error objects
  // ---------------------------------------------------------------------------

  /** The error objects the parser emits. For a source error, `constructed`
      is the text handed to the `Error` constructor; copying the record's own
      fields over the object then replaces `message` with the record's
      message. */
  datatype Failure =
    | SourceFailure(constructed: string, errorType: string, exception: Option<string>, message: string)
    | ExitFailure(message: string)
    | FileNotFound(message: string)

  function SourceFailureOf(rec: Record): (f: Failure)
    requires rec.ErrorRecord?
    ensures f.SourceFailure?
    ensures f.constructed == rec.errorType + ": " + rec.message
    ensures f.errorType == rec.errorType && f.exception == rec.exception
    ensures f.message == rec.message
  {
    SourceFailure(rec.errorType + ": " + rec.message, rec.errorType, rec.exception, rec.message)
  }

  /** `'exit code ' + code + ' returned from runxlrd-json'`; a process killed
      by a signal has the code `null`. */
  function ExitMessage(code: Option<int>): string {
    "exit code " + (match code case None => "null" case Some(n) => IntText(n)) + " returned from runxlrd-json"
  }

  /** The error `parse` makes up when nothing was read. */
  function NotFound(path: string): (f: Failure)
    ensures f.FileNotFound?
    ensures f.message == "file not found: " + path
  {
    FileNotFound("file not found: " + path)
  }
}

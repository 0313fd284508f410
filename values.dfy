/**
 * Cells, rows, tables and the column-shaped data that transformation steps
 * pass along, together with the error taxonomy of the engine and the
 * external services (date parsing, hashing, random UUIDs) it calls.
 */
module Values {
  import opened Wrappers

  /** A timestamp as the date parser yields it. */
  datatype Instant = Instant(year: int, month: int, day: int, nanosOfDay: int)

  /** One cell. `Null` stands for pandas' missing value (NaN, None, NaT, NA). */
  datatype Value =
    | Null
    | Int(i: int)
    | Real(x: real)
    | Text(s: string)
    | Flag(b: bool)
    | Moment(t: Instant)
    | Day(year: int, month: int, day: int)

  /** A row maps column names to cells; a name the row lacks reads as `Null`. */
  type Row = map<string, Value>

  /**
   * A table as it is stored (base table, lookup or linked table): ordered
   * column names and ordered rows. Its index is the default 0..n-1.
   */
  datatype Table = Table(columns: seq<string>, rows: seq<Row>)

  /** A data frame in flight: like a table, but it keeps its own row labels. */
  datatype Frame = Frame(index: seq<int>, columns: seq<string>, rows: seq<Row>)

  /** A pandas Series: an optional name, row labels and one value per label. */
  datatype Series = Series(name: Option<string>, index: seq<int>, values: seq<Value>)

  /** The working data a step receives and returns (`current_data`). */
  datatype Working = NoData | Rows(frame: Frame) | Col(series: Series)

  /** Everything that aborts `apply_transformations`. */
  datatype Error =
    | InvalidTransformations(column: string)
    | MissingParameter(step: string, parameter: string)
    | ColumnNotFound(columns: seq<string>)
    | TableNotFound(name: string)
    | MissingLookupColumns(vocabulary: string)
    | UnknownAggregation(name: string)
    | UnknownIdMethod(name: string)
    | TypeNotDeclared(column: string)
    | CastFailed(typeName: string)
    | RowMismatch(dataRows: nat, outputRows: nat)
    | ExpressionFailed
    | WrongInputShape(step: string)
    | DuplicateColumns(columns: seq<string>)
    | NotSingleColumn(column: string)
    | NotInteger(value: Value)
    | UnalignableMask
    | NoModeForGroup(column: string)
    | UnsupportedStep(typeName: string)
    | DuplicateLabels

  type Outcome<T> = Result<T, Error>

  /**
   * Services the engine calls but does not define: pandas' date parser and
   * strftime, float parsing and float/date rendering, SHA-256 (the digest as
   * a number) and uuid4 (the k-th random 128-bit draw of the session).
   * `parseInt` is Python's `int()` on a string, as numpy applies it when a
   * text column is cast to an integer type.
   */
  datatype Externals = Externals(
    parseTime: Value -> Option<Instant>,
    formatTime: (Instant, string) -> string,
    parseFloat: string -> Option<real>,
    parseInt: string -> Option<int>,
    showOther: Value -> string,
    sha256: string -> nat,
    uuid4: nat -> nat)

  function Get(r: Row, c: string): Value {
    if c in r then r[c] else Null
  }

  /** The default index 0..n-1. */
  function Range(n: nat): (r: seq<int>)
    ensures |r| == n
    ensures forall i :: 0 <= i < n ==> r[i] == i
  {
    seq(n, i => i)
  }

  function Repeat(v: Value, n: nat): (r: seq<Value>)
    ensures |r| == n
    ensures forall i :: 0 <= i < n ==> r[i] == v
  {
    seq(n, _ => v)
  }

  /** A stored table seen as a frame with its default index. */
  function AsFrame(t: Table): Frame {
    Frame(Range(|t.rows|), t.columns, t.rows)
  }

  /** The cells of column `c`, one per row, in row order. */
  function ColumnValues(rows: seq<Row>, c: string): (r: seq<Value>)
    ensures |r| == |rows|
    ensures forall i :: 0 <= i < |rows| ==> r[i] == Get(rows[i], c)
  {
    seq(|rows|, i requires 0 <= i < |rows| => Get(rows[i], c))
  }

  /** The names of `wanted` that `have` lacks, in the order of `wanted`. */
  function Absent(wanted: seq<string>, have: seq<string>): (r: seq<string>)
    ensures forall c :: c in r <==> c in wanted && c !in have
    ensures |r| <= |wanted|
  {
    if wanted == [] then []
    else if wanted[0] in have then Absent(wanted[1..], have)
    else [wanted[0]] + Absent(wanted[1..], have)
  }

  /** Nothing is absent when everything wanted is there. */
  lemma {:induction false} AbsentCovered(wanted: seq<string>, have: seq<string>)
    requires forall c :: c in wanted ==> c in have
    ensures Absent(wanted, have) == []
  {
    if wanted != [] {
      assert wanted[0] in wanted;
      AbsentCovered(wanted[1..], have);
    }
  }

  /** `a` is `b` with some elements left out, order kept. */
  predicate Subsequence<T(==)>(a: seq<T>, b: seq<T>)
    decreases |b|
  {
    a == [] || (b != [] && ((a[0] == b[0] && Subsequence(a[1..], b[1..])) || Subsequence(a, b[1..])))
  }

  lemma {:induction false} AbsentKeepsOrder(wanted: seq<string>, have: seq<string>)
    ensures Subsequence(Absent(wanted, have), wanted)
  {
    if wanted != [] {
      AbsentKeepsOrder(wanted[1..], have);
      var rest := Absent(wanted[1..], have);
      if wanted[0] !in have {
        assert Absent(wanted, have) == [wanted[0]] + rest;
        assert ([wanted[0]] + rest)[1..] == rest;
      }
    }
  }

  /** Python's str(int). */
  function DecimalText(i: int): (r: string)
    ensures |r| >= 1
  {
    if i < 0 then "-" + Digits(-i) else Digits(i)
  }

  function Digits(n: nat): (r: string)
    ensures |r| >= 1
    ensures forall k :: 0 <= k < |r| ==> '0' <= r[k] <= '9'
  {
    var d := ['0' + (n % 10) as char];
    if n < 10 then d else Digits(n / 10) + d
  }

  /** `astype(str)` of one cell. */
  function Stringify(ext: Externals, v: Value): string {
    match v
    case Null => "nan"
    case Int(i) => DecimalText(i)
    case Text(s) => s
    case Flag(b) => if b then "True" else "False"
    case _ => ext.showOther(v)
  }

  /** `sep.join(parts)`. */
  function Join(parts: seq<string>, sep: string): (r: string)
    ensures parts == [] ==> r == ""
    ensures |parts| == 1 ==> r == parts[0]
  {
    if parts == [] then ""
    else if |parts| == 1 then parts[0]
    else parts[0] + sep + Join(parts[1..], sep)
  }

  /** The hex digit for `d` < 16, lower case. */
  function HexChar(d: nat): (c: char)
    requires d < 16
    ensures '0' <= c <= '9' || 'a' <= c <= 'f'
  {
    if d < 10 then '0' + d as char else 'a' + (d - 10) as char
  }

  function Pow16(w: nat): (p: nat)
    ensures p >= 1
  {
    if w == 0 then 1 else 16 * Pow16(w - 1)
  }

  /** `w` lower-case hex digits of `n`, most significant first (the low `4w` bits). */
  function HexDigits(n: nat, w: nat): (r: string)
    ensures |r| == w
    ensures forall k :: 0 <= k < w ==> '0' <= r[k] <= '9' || 'a' <= r[k] <= 'f'
  {
    if w == 0 then "" else HexDigits(n / 16, w - 1) + [HexChar(n % 16)]
  }

  lemma DivideBelow(a: nat, p: nat)
    requires a < 16 * p
    ensures a / 16 < p
    ensures a == 16 * (a / 16) + a % 16
  {
  }

  /** Below `16^w`, the hex rendering determines the number. */
  lemma {:induction false} HexDigitsInjective(a: nat, b: nat, w: nat)
    requires a < Pow16(w) && b < Pow16(w)
    requires HexDigits(a, w) == HexDigits(b, w)
    ensures a == b
  {
    if w > 0 {
      var ha, hb := HexDigits(a, w), HexDigits(b, w);
      assert HexChar(a % 16) == ha[w - 1] == hb[w - 1] == HexChar(b % 16);
      assert ha[..w - 1] == HexDigits(a / 16, w - 1);
      assert hb[..w - 1] == HexDigits(b / 16, w - 1);
      DivideBelow(a, Pow16(w - 1));
      DivideBelow(b, Pow16(w - 1));
      HexDigitsInjective(a / 16, b / 16, w - 1);
    }
  }

  /** The number of 128-bit values. */
  const UuidSpace: nat := 0x1_0000_0000_0000_0000_0000_0000_0000_0000

  lemma {:induction false} Pow16Add(a: nat, b: nat)
    ensures Pow16(a + b) == Pow16(a) * Pow16(b)
  {
    if a > 0 {
      Pow16Add(a - 1, b);
      var x, y := Pow16(a - 1), Pow16(b);
      assert Pow16(a + b) == 16 * (x * y);
      assert 16 * (x * y) == (16 * x) * y;
    }
  }

  /** 32 hex digits cover exactly the 128-bit values. */
  lemma Pow16Of32()
    ensures Pow16(32) == UuidSpace
  {
    assert Pow16(8) == 0x1_0000_0000;
    Pow16Add(8, 8);
    Pow16Add(16, 16);
  }

  /** `str(uuid.UUID(int=n))`: 32 hex digits grouped 8-4-4-4-12. */
  function UuidText(n: nat): (r: string)
    ensures |r| == 36
    ensures r[8] == '-' && r[13] == '-' && r[18] == '-' && r[23] == '-'
  {
    var h := HexDigits(n, 32);
    h[..8] + "-" + h[8..12] + "-" + h[12..16] + "-" + h[16..20] + "-" + h[20..]
  }

  /** The 32 hex digits, read back from a UUID string. */
  function UuidDigits(u: string): string
    requires |u| == 36
  {
    u[..8] + u[9..13] + u[14..18] + u[19..23] + u[24..]
  }

  lemma UuidDigitsOfText(n: nat)
    ensures UuidDigits(UuidText(n)) == HexDigits(n, 32)
  {
    var h := HexDigits(n, 32);
    var u := UuidText(n);
    assert u[..8] == h[..8] && u[9..13] == h[8..12] && u[14..18] == h[12..16];
    assert u[19..23] == h[16..20] && u[24..] == h[20..];
    assert h == h[..8] + h[8..12] + h[12..16] + h[16..20] + h[20..];
  }

  /** Distinct 128-bit draws give distinct UUID strings. */
  lemma UuidTextInjective(a: nat, b: nat)
    requires a < UuidSpace && b < UuidSpace && a != b
    ensures UuidText(a) != UuidText(b)
  {
    Pow16Of32();
    if UuidText(a) == UuidText(b) {
      UuidDigitsOfText(a);
      UuidDigitsOfText(b);
      HexDigitsInjective(a, b, 32);
    }
  }

  /** `hashlib.sha256(s.encode()).hexdigest()`. */
  function HexDigest(ext: Externals, s: string): (r: string)
    ensures |r| == 64
  {
    HexDigits(ext.sha256(s), 64)
  }
}

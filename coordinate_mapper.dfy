/**
 * The well-plate coordinate mapper: identifiers of the wells of the fixed
 * 8 x 12 plate, the position of each well centre in millimetres, the way back
 * from a position to the nearest well, and the conversion of millimetres to
 * motor steps.
 *
 * Millimetre values are exact reals. Every value the pipetting controller
 * produces (multiples of the 12 mm pitch, depths of 5 and 10 mm) is exact in
 * binary floating point as well, so for those the model agrees bit for bit.
 * A position loaded from a file need not be exact: there the source's product
 * of a float and a step count can fall just below an integer and truncate one
 * step lower than the exact product does.
 */
module CoordinateMapper {
  import opened Wrappers

  /** Row letters in order of increasing y: row index 0 is A. */
  const Rows: string := "ABCDEFGH"
  /** Columns are numbered 1 .. ColumnCount in order of increasing x. */
  const ColumnCount: int := 12

  const WellSpacing: real := 4.0
  const WellDiameter: real := 8.0
  /** Centre-to-centre distance of neighbouring wells along either axis. */
  const Pitch: real := WellDiameter + WellSpacing

  const StepsPerMmX: int := 100
  const StepsPerMmY: int := 100
  const StepsPerMmZ: int := 100

  /** Position of the centre of well A1. */
  const OriginX: real := 0.0
  const OriginY: real := 0.0

  /** A point in millimetres; z = 0 is the top of a well, negative z is inside it. */
  datatype Coords = Coords(x: real, y: real, z: real)

  /** A parsed well identifier: an upper-case row letter and a column number. */
  datatype Well = Well(row: char, column: int)

  /** The reasons a well identifier is rejected, in the order they are checked. */
  datatype WellError =
    | MalformedId       // empty, or shorter than two characters
    | ColumnNotInteger  // the text after the row letter is not an integer
    | RowOutOfGrid      // the row letter is not A-H in either case
    | ColumnOutOfGrid   // the column is not 1-12

  // ---------------------------------------------------------------------
  // Python's int() on a string, base 10

  /**
   * The characters int() strips around its argument: the ASCII white space
   * tab to carriage return and the space, and the Unicode white space above
   * U+007F. The ASCII separators U+001C-U+001F are white space to
   * str.isspace() but not to int().
   */
  predicate IsSpace(c: char) {
    || c == ' ' || '\t' <= c <= '\r'
    || c == '\U{85}' || c == '\U{a0}' || c == '\U{1680}' || '\U{2000}' <= c <= '\U{200a}'
    || c == '\U{2028}' || c == '\U{2029}' || c == '\U{202f}' || c == '\U{205f}' || c == '\U{3000}'
  }

  /** str.strip's left half: the input after its leading white space. */
  function TrimStart(s: string): (t: string)
    ensures |t| <= |s|
    ensures t == [] || !IsSpace(t[0])
  {
    if |s| > 0 && IsSpace(s[0]) then TrimStart(s[1..]) else s
  }

  /** str.strip's right half: the input before its trailing white space. */
  function TrimEnd(s: string): (t: string)
    ensures |t| <= |s|
    ensures t == s[..|t|]
    ensures t == [] || !IsSpace(t[|t| - 1])
  {
    if |s| > 0 && IsSpace(s[|s| - 1]) then TrimEnd(s[..|s| - 1]) else s
  }

  /** TrimStart keeps a suffix of its input and drops only white space. */
  lemma {:induction false} TrimStartDropsSpace(s: string)
    ensures var t := TrimStart(s);
            && t == s[|s| - |t|..]
            && forall i :: 0 <= i < |s| - |t| ==> IsSpace(s[i])
  {
    if |s| > 0 && IsSpace(s[0]) {
      TrimStartDropsSpace(s[1..]);
    }
  }

  /** TrimEnd keeps a prefix of its input and drops only white space. */
  lemma {:induction false} TrimEndDropsSpace(s: string)
    ensures var t := TrimEnd(s);
            && t == s[..|t|]
            && forall i :: |t| <= i < |s| ==> IsSpace(s[i])
  {
    if |s| > 0 && IsSpace(s[|s| - 1]) {
      TrimEndDropsSpace(s[..|s| - 1]);
    }
  }

  predicate IsDigit(c: char) {
    '0' <= c <= '9'
  }

  function DigitValue(c: char): (d: nat)
    requires IsDigit(c)
    ensures d < 10
  {
    c as int - '0' as int
  }

  function DigitChar(d: nat): (c: char)
    requires d < 10
    ensures IsDigit(c) && DigitValue(c) == d
  {
    ('0' as int + d) as char
  }

  predicate DigitsOrUnderscores(s: string) {
    forall i :: 0 <= i < |s| ==> IsDigit(s[i]) || s[i] == '_'
  }

  /** Base-10 digits with single underscores between them, as int() accepts. */
  predicate IsDigitGroup(s: string) {
    && |s| > 0
    && DigitsOrUnderscores(s)
    && IsDigit(s[0])
    && IsDigit(s[|s| - 1])
    && forall i :: 0 < i < |s| && s[i] == '_' ==> IsDigit(s[i - 1])
  }

  /** The number the digits of s spell, underscores ignored. */
  function DigitsValue(s: string): nat
    requires DigitsOrUnderscores(s)
  {
    if s == [] then 0
    else if s[|s| - 1] == '_' then DigitsValue(s[..|s| - 1])
    else 10 * DigitsValue(s[..|s| - 1]) + DigitValue(s[|s| - 1])
  }

  function DigitCount(s: string): (n: nat)
    ensures n <= |s|
  {
    if s == [] then 0
    else DigitCount(s[..|s| - 1]) + (if IsDigit(s[|s| - 1]) then 1 else 0)
  }

  /** CPython refuses to convert a decimal string of more digits than this. */
  const IntMaxStrDigits: nat := 4300

  /**
   * int(s): strip white space, take an optional sign, then a digit group of
   * at most IntMaxStrDigits digits; anything else raises ValueError (None).
   */
  function ParseInt(s: string): Option<int> {
    var t := TrimEnd(TrimStart(s));
    var signed := |t| > 0 && (t[0] == '+' || t[0] == '-');
    var body := if signed then t[1..] else t;
    if IsDigitGroup(body) && DigitCount(body) <= IntMaxStrDigits then
      var magnitude: int := DigitsValue(body);
      Some(if signed && t[0] == '-' then -magnitude else magnitude)
    else None
  }

  /** str(n) for a non-negative integer. */
  function DecimalText(n: nat): (s: string)
    ensures |s| > 0
    decreases n
  {
    if n < 10 then [DigitChar(n)] else DecimalText(n / 10) + [DigitChar(n % 10)]
  }

  lemma {:induction false} DecimalTextIsDigits(n: nat)
    ensures IsDigitGroup(DecimalText(n))
    ensures DigitsValue(DecimalText(n)) == n
    ensures DigitCount(DecimalText(n)) == |DecimalText(n)|
    decreases n
  {
    var s := DecimalText(n);
    if n >= 10 {
      DecimalTextIsDigits(n / 10);
      var p := DecimalText(n / 10);
      assert s == p + [DigitChar(n % 10)];
      assert s[..|s| - 1] == p;
      assert forall i :: 0 <= i < |p| ==> s[i] == p[i];
    }
  }

  lemma DigitIsNotSpace(c: char)
    requires IsDigit(c)
    ensures !IsSpace(c) && c != '+' && c != '-'
  {
  }

  /** int() reads a digit group that is not too long as the number its digits spell. */
  lemma ParseIntOfDigitGroup(s: string)
    requires IsDigitGroup(s) && DigitCount(s) <= IntMaxStrDigits
    ensures ParseInt(s) == Some(DigitsValue(s))
  {
    DigitIsNotSpace(s[0]);
    DigitIsNotSpace(s[|s| - 1]);
    assert TrimStart(s) == s;
    assert TrimEnd(s) == s;
  }

  lemma ParseIntOfDecimalText(n: nat)
    requires n < 10000
    ensures ParseInt(DecimalText(n)) == Some(n)
  {
    DecimalTextIsDigits(n);
    DecimalTextIsShort(n);
    ParseIntOfDigitGroup(DecimalText(n));
  }

  lemma {:induction false} DecimalTextIsShort(n: nat)
    ensures n < 10 ==> |DecimalText(n)| == 1
    ensures n < 100 ==> |DecimalText(n)| <= 2
    ensures n < 1000 ==> |DecimalText(n)| <= 3
    ensures n < 10000 ==> |DecimalText(n)| <= 4
    decreases n
  {
    if n >= 10 {
      DecimalTextIsShort(n / 10);
    }
  }

  // ---------------------------------------------------------------------
  // Well identifiers

  /** str.upper() as far as it matters here: only a-z turn into A-Z. */
  function UpperAscii(c: char): (u: char)
    ensures 'a' <= c <= 'z' ==> u as int == c as int - 32
    ensures !('a' <= c <= 'z') ==> u == c
  {
    if 'a' <= c <= 'z' then (c as int - 32) as char else c
  }

  /** The row letters accepted in either case. */
  predicate IsRowLetter(c: char) {
    c in Rows || c in "abcdefgh"
  }

  /**
   * parse_well: an identifier of at least two characters whose first character
   * upper-cases to a row letter and whose remainder int() reads as 1..12.
   * The column text is read before the row is checked, so an identifier bad in
   * both reports the column.
   */
  function ParseWell(id: string): (r: Result<Well, WellError>)
    ensures r.Success? <==>
              |id| >= 2 && IsRowLetter(id[0]) && ParseInt(id[1..]).Some?
              && 1 <= ParseInt(id[1..]).value <= ColumnCount
    ensures r.Success? ==> r.value.row in Rows && 1 <= r.value.column <= ColumnCount
    ensures r.Success? ==> r.value.row == UpperAscii(id[0]) && Some(r.value.column) == ParseInt(id[1..])
    ensures r == Failure(MalformedId) <==> |id| < 2
    ensures r == Failure(ColumnNotInteger) <==> |id| >= 2 && ParseInt(id[1..]).None?
    ensures r == Failure(RowOutOfGrid) <==> |id| >= 2 && ParseInt(id[1..]).Some? && !IsRowLetter(id[0])
    ensures r == Failure(ColumnOutOfGrid) <==>
              |id| >= 2 && IsRowLetter(id[0]) && ParseInt(id[1..]).Some?
              && !(1 <= ParseInt(id[1..]).value <= ColumnCount)
  {
    if |id| < 2 then Failure(MalformedId)
    else
      var row := UpperAscii(id[0]);
      match ParseInt(id[1..])
      case None => Failure(ColumnNotInteger)
      case Some(column) =>
        if row !in Rows then Failure(RowOutOfGrid)
        else if !(1 <= column <= ColumnCount) then Failure(ColumnOutOfGrid)
        else Success(Well(row, column))
  }

  /** ROWS.index(row). */
  function IndexOf(s: string, c: char): (i: nat)
    requires c in s
    ensures i < |s| && s[i] == c && c !in s[..i]
  {
    if s[0] == c then 0 else assert c in s[1..]; 1 + IndexOf(s[1..], c)
  }

  /** The upper-case, unpadded identifier of a well: ROWS[r] + str(column). */
  function CanonicalId(w: Well): string
    requires w.column >= 0
  {
    [w.row] + DecimalText(w.column)
  }

  lemma CanonicalIdParses(w: Well)
    requires w.row in Rows && 1 <= w.column <= ColumnCount
    ensures ParseWell(CanonicalId(w)) == Success(w)
  {
    var id := CanonicalId(w);
    assert id[1..] == DecimalText(w.column);
    ParseIntOfDecimalText(w.column);
  }

  /** The centre of a well at the top of the plate (z = 0). */
  function WellCenter(w: Well): Coords
    requires w.row in Rows
  {
    Coords(OriginX + (w.column - 1) as real * Pitch,
           OriginY + IndexOf(Rows, w.row) as real * Pitch,
           0.0)
  }

  /** well_to_coordinates: the centre of the identified well, or the parse error. */
  function WellToCoordinates(id: string): (r: Result<Coords, WellError>)
    ensures r.Failure? ==> ParseWell(id) == Failure(r.error)
    ensures r.Success? <==> ParseWell(id).Success?
    ensures r.Success? ==> r.value.z == 0.0
  {
    match ParseWell(id)
    case Failure(e) => Failure(e)
    case Success(w) => Success(WellCenter(w))
  }

  /** A column index and a row index that name a well of the plate. */
  predicate InGrid(rowIndex: int, columnIndex: int) {
    0 <= rowIndex < |Rows| && 0 <= columnIndex < ColumnCount
  }

  /**
   * Python's round() on a float: the nearest integer, ties to the even one.
   * The two postconditions determine the result.
   */
  function RoundHalfEven(q: real): (n: int)
    ensures -0.5 <= q - n as real <= 0.5
    ensures (q - n as real == 0.5 || n as real - q == 0.5) ==> n % 2 == 0
  {
    var f := q.Floor;
    var frac := q - f as real;
    if frac < 0.5 then f
    else if frac > 0.5 then f + 1
    else if f % 2 == 0 then f
    else f + 1
  }

  /**
   * coordinates_to_well: the well whose centre is nearest along each axis
   * (ties to the even index), or None when that index lies off the plate.
   * z is ignored.
   */
  function CoordinatesToWell(c: Coords): (r: Option<string>)
    ensures var ri, ci := RoundHalfEven((c.y - OriginY) / Pitch), RoundHalfEven((c.x - OriginX) / Pitch);
            && (r.Some? <==> InGrid(ri, ci))
            && (r.Some? ==> r.value == CanonicalId(Well(Rows[ri], ci + 1)))
  {
    var columnIndex := RoundHalfEven((c.x - OriginX) / Pitch);
    var rowIndex := RoundHalfEven((c.y - OriginY) / Pitch);
    if InGrid(rowIndex, columnIndex) then
      Some(CanonicalId(Well(Rows[rowIndex], columnIndex + 1)))
    else None
  }

  /** n is v rounded toward zero, as int() does to a float. */
  predicate TruncatesTo(v: real, n: int) {
    && (0.0 <= v ==> 0 <= n && n as real <= v < n as real + 1.0)
    && (v < 0.0 ==> n <= 0 && n as real - 1.0 < v <= n as real)
  }

  function Trunc(v: real): (n: int)
    ensures TruncatesTo(v, n)
  {
    if v >= 0.0 then v.Floor else -((-v).Floor)
  }

  /** coordinates_to_steps: each axis converted on its own, truncated toward zero. */
  function CoordinatesToSteps(c: Coords): (r: (int, int, int))
    ensures TruncatesTo(c.x * StepsPerMmX as real, r.0)
    ensures TruncatesTo(c.y * StepsPerMmY as real, r.1)
    ensures TruncatesTo(c.z * StepsPerMmZ as real, r.2)
  {
    (Trunc(c.x * StepsPerMmX as real), Trunc(c.y * StepsPerMmY as real), Trunc(c.z * StepsPerMmZ as real))
  }

  // ---------------------------------------------------------------------
  // Properties

  /** A rounding that lands on an integer keeps it. */
  lemma RoundOfInteger(n: int)
    ensures RoundHalfEven(n as real) == n
  {
  }

  /** A centre divided by the pitch is the well's column index and row index. */
  lemma CenterIndices(w: Well)
    requires w.row in Rows
    ensures (WellCenter(w).x - OriginX) / Pitch == (w.column - 1) as real
    ensures (WellCenter(w).y - OriginY) / Pitch == IndexOf(Rows, w.row) as real
  {
    assert Pitch == 12.0 && OriginX == 0.0 && OriginY == 0.0;
  }

  /** The centre of a well of the plate maps back to that well's canonical identifier. */
  lemma CenterMapsBack(w: Well)
    requires w.row in Rows && 1 <= w.column <= ColumnCount
    ensures CoordinatesToWell(WellCenter(w)) == Some(CanonicalId(w))
  {
    var ri := IndexOf(Rows, w.row);
    CenterIndices(w);
    RoundOfInteger(w.column - 1);
    RoundOfInteger(ri);
    assert Well(Rows[ri], w.column - 1 + 1) == w;
  }

  /**
   * Round trip: the position of any valid identifier maps back to the
   * identifier's canonical form (upper-case row, no leading zeros).
   */
  lemma WellRoundTrip(id: string)
    requires ParseWell(id).Success?
    ensures WellToCoordinates(id).Success?
    ensures CoordinatesToWell(WellToCoordinates(id).value) == Some(CanonicalId(ParseWell(id).value))
  {
    var w := ParseWell(id).value;
    assert WellToCoordinates(id).value == WellCenter(w);
    CenterMapsBack(w);
  }

  /** Centres of two wells differ along x by whole pitches of column and along y by rows. */
  lemma CentersByIndex(wa: Well, wb: Well)
    requires wa.row in Rows && wb.row in Rows
    ensures var ca, cb := WellCenter(wa), WellCenter(wb);
            && ca.x - cb.x == (wa.column - wb.column) as real * Pitch
            && ca.y - cb.y == (IndexOf(Rows, wa.row) - IndexOf(Rows, wb.row)) as real * Pitch
            && (ca.x == cb.x <==> wa.column == wb.column)
            && (ca.y == cb.y <==> wa.row == wb.row)
  {
    assert Pitch == 12.0 && OriginX == 0.0 && OriginY == 0.0;
    var ia, ib := IndexOf(Rows, wa.row), IndexOf(Rows, wb.row);
    assert Rows[ia] == wa.row && Rows[ib] == wb.row;
  }

  /** Truncation toward zero is symmetric about zero. */
  lemma TruncNegated(v: real)
    ensures Trunc(-v) == -Trunc(v)
  {
    if v == 0.0 {
      assert -v == 0.0;
    }
  }

  /** The well under a point does not depend on its height. */
  lemma HeightIgnored(c: Coords, z: real)
    ensures CoordinatesToWell(c.(z := z)) == CoordinatesToWell(c)
  {
    assert c.(z := z).x == c.x && c.(z := z).y == c.y;
  }

  /**
   * x depends on the column alone and y on the row alone, one pitch per
   * index; z is 0.
   */
  lemma AxesIndependent(a: string, b: string)
    requires ParseWell(a).Success? && ParseWell(b).Success?
    ensures var wa, wb := ParseWell(a).value, ParseWell(b).value;
            var ca, cb := WellToCoordinates(a).value, WellToCoordinates(b).value;
            && (ca.x == cb.x <==> wa.column == wb.column)
            && (ca.y == cb.y <==> wa.row == wb.row)
            && ca.x - cb.x == (wa.column - wb.column) as real * Pitch
            && ca.z == 0.0 && cb.z == 0.0
  {
    assert Pitch == 12.0;
    var wa, wb := ParseWell(a).value, ParseWell(b).value;
    CoordinatesOfId(a);
    CoordinatesOfId(b);
    CentersByIndex(wa, wb);
  }

  lemma CoordinatesOfId(id: string)
    requires ParseWell(id).Success?
    ensures ParseWell(id).value.row in Rows
    ensures WellToCoordinates(id) == Success(WellCenter(ParseWell(id).value))
  {
  }

  /** A lower-case row and a zero-padded column are accepted. */
  lemma LowerCasePaddedIdAccepted()
    ensures ParseWell("a01") == Success(Well('A', 1))
  {
    var col := "a01"[1..];
    assert col == "01";
    assert TrimStart(col) == col;
    assert TrimEnd(col) == col;
    assert col[..1] == "0" && "0"[..0] == "";
    assert DigitsValue(col) == 1;
    assert DigitCount(col) == 2;
    assert ParseInt(col) == Some(1);
  }

  /** White space around the column and an underscore between its digits are accepted. */
  lemma SpacedIdAccepted()
    ensures ParseWell("h 1_2 ") == Success(Well('H', 12))
  {
    var col := "h 1_2 "[1..];
    assert col == " 1_2 ";
    assert col[1..] == "1_2 ";
    assert TrimStart(col) == "1_2 ";
    assert "1_2 "[..3] == "1_2";
    assert TrimEnd("1_2 ") == "1_2";
    assert "1_2"[..2] == "1_" && "1_"[..1] == "1" && "1"[..0] == "";
    assert DigitsValue("1_2") == 12;
    assert DigitCount("1_2") == 2;
    assert ParseInt(col) == Some(12);
  }

  /** An ASCII separator is not white space to int(), so it spoils the column. */
  lemma SeparatorNotStripped()
    ensures ParseWell("A\U{1c}1") == Failure(ColumnNotInteger)
  {
    var col := "A\U{1c}1"[1..];
    assert col == "\U{1c}1" && !IsSpace(col[0]);
    assert TrimStart(col) == col;
    assert TrimEnd(col) == col;
  }

  /** The column is read before the row is checked. */
  lemma ColumnCheckedBeforeRow()
    ensures ParseWell("Z1x") == Failure(ColumnNotInteger)
    ensures ParseWell("Z1") == Failure(RowOutOfGrid)
  {
    var bad := "Z1x"[1..];
    assert bad == "1x";
    assert TrimStart(bad) == bad;
    assert TrimEnd(bad) == bad;
    assert !IsDigitGroup(bad);
    assert "Z1"[1..] == DecimalText(1);
    ParseIntOfDecimalText(1);
  }

  /** A column past the twelfth, and an identifier with no column at all, are refused. */
  lemma ShortAndWideIdsRefused()
    ensures ParseWell("A13") == Failure(ColumnOutOfGrid)
    ensures ParseWell("A") == Failure(MalformedId)
  {
    assert "A13"[1..] == DecimalText(13);
    ParseIntOfDecimalText(13);
  }

  /**
   * A point exactly midway between two wells is not "between wells": it
   * goes to the even column index.
   */
  lemma MidpointsGoToEvenIndex()
    ensures CoordinatesToWell(Coords(6.0, 0.0, 0.0)) == Some("A1")
    ensures CoordinatesToWell(Coords(18.0, 0.0, 0.0)) == Some("A3")
  {
    assert Pitch == 12.0 && OriginX == 0.0 && OriginY == 0.0;
    assert (6.0 - OriginX) / Pitch == 0.5 && RoundHalfEven(0.5) == 0;
    assert (18.0 - OriginX) / Pitch == 1.5 && RoundHalfEven(1.5) == 2;
    assert (0.0 - OriginY) / Pitch == 0.0 && RoundHalfEven(0.0) == 0;
    assert CanonicalId(Well('A', 1)) == "A1";
    assert CanonicalId(Well('A', 3)) == "A3";
  }

  /** Half a pitch left of the first column still rounds onto it. */
  lemma LeftEdgeMidpoint()
    ensures CoordinatesToWell(Coords(-6.0, 0.0, 0.0)) == Some("A1")
    ensures CoordinatesToWell(Coords(-6.5, 0.0, 0.0)) == None
  {
    assert Pitch == 12.0 && OriginX == 0.0 && OriginY == 0.0;
    assert (-6.0 - OriginX) / Pitch == -0.5 && RoundHalfEven(-0.5) == 0;
    assert (0.0 - OriginY) / Pitch == 0.0 && RoundHalfEven(0.0) == 0;
    assert RoundHalfEven((-6.5 - OriginX) / Pitch) == -1;
    assert CanonicalId(Well('A', 1)) == "A1";
  }

  /** Any point further left than half a pitch before the first column lies off the plate. */
  lemma LeftOfPlate(c: Coords)
    requires c.x < OriginX - Pitch / 2.0
    ensures CoordinatesToWell(c) == None
  {
    var q := (c.x - OriginX) / Pitch;
    assert q < -0.5;
    assert RoundHalfEven(q) < 0;
  }
}

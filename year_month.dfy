/** `parse_year_month` (public/examples/needs_tests.py): reads a year and a
    month from text such as '2023.06' or '2023-06-01'. Python's `str.strip`,
    `str.split` and `int` are modelled on the characters they look at. */
module YearMonth {
  import opened Wrappers
  import opened Strings

  /** A Python argument: a `str`, or any other object. */
  datatype PyValue = PyStr(s: string) | PyOther

  /** The `ValueError`s the function raises, by message. */
  datatype ParseError =
    | NotAString        // 'Input must be a string'
    | EmptyString       // 'Empty string'
    | UnsupportedSeparator  // 'Unsupported date separator'
    | MissingMonth      // 'Missing month'
    | NotIntegers       // 'Year and month must be integers'
    | MonthOutOfRange   // 'Month out of range'

  datatype YearMonthResult = YearMonthOf(year: int, month: int) | Raised(error: ParseError)

  /** The characters Python's `str.isspace` accepts, which `strip()` removes. */
  predicate IsPySpace(c: char) {
    || ('\t' <= c <= '\r') || ('\U{1C}' <= c <= '\U{1F}') || c == ' ' || c == '\U{85}' || c == '\U{A0}'
    || c == '\U{1680}' || ('\U{2000}' <= c <= '\U{200A}') || c == '\U{2028}' || c == '\U{2029}'
    || c == '\U{202F}' || c == '\U{205F}' || c == '\U{3000}'
  }

  function StripStart(s: string): (r: string)
    ensures |r| <= |s| && r == s[|s| - |r|..]
    ensures r == [] || !IsPySpace(r[0])
    ensures forall i :: 0 <= i < |s| - |r| ==> IsPySpace(s[i])
  {
    if s != [] && IsPySpace(s[0]) then StripStart(s[1..]) else s
  }

  function StripEnd(s: string): (r: string)
    ensures |r| <= |s| && r == s[..|r|]
    ensures r == [] || !IsPySpace(r[|r| - 1])
    ensures forall i :: |r| <= i < |s| ==> IsPySpace(s[i])
  {
    if s != [] && IsPySpace(s[|s| - 1]) then StripEnd(s[..|s| - 1]) else s
  }

  /** `s.strip()`. */
  function Strip(s: string): string {
    StripEnd(StripStart(s))
  }

  /** Text that neither starts nor ends with whitespace is its own strip. */
  lemma StripKeeps(s: string)
    requires s == [] || (!IsPySpace(s[0]) && !IsPySpace(s[|s| - 1]))
    ensures Strip(s) == s
  {
  }

  predicate IsDigit(c: char) {
    '0' <= c <= '9'
  }

  /** The digits of a base-10 literal: digits with single '_' between them. */
  predicate IsDigitString(s: string) {
    && s != [] && IsDigit(s[0]) && IsDigit(s[|s| - 1])
    && forall i :: 0 <= i < |s| ==> IsDigit(s[i]) || (s[i] == '_' && i + 1 < |s| && IsDigit(s[i + 1]))
  }

  /** The number the digits of `s` spell, '_' skipped. */
  function DigitsValue(s: string): nat {
    if s == [] then 0
    else if IsDigit(s[|s| - 1]) then DigitsValue(s[..|s| - 1]) * 10 + (s[|s| - 1] as int - '0' as int)
    else DigitsValue(s[..|s| - 1])
  }

  /** `int(p)` for a `str`: surrounding whitespace, an optional sign, then
      digits; `None` is the `ValueError`. */
  function PyInt(p: string): (r: Option<int>)
    ensures r.Some? ==> Strip(p) != []
  {
    var t := Strip(p);
    if t == [] then None
    else
      var sign, digits := if t[0] == '-' then -1 else 1, if t[0] == '-' || t[0] == '+' then t[1..] else t;
      if IsDigitString(digits) then Some(sign * DigitsValue(digits)) else None
  }

  /** `parse_year_month(s)`. */
  function ParseYearMonth(v: PyValue): (r: YearMonthResult)
    ensures r == Raised(NotAString) <==> v.PyOther?
    ensures r == Raised(EmptyString) <==> v.PyStr? && Strip(v.s) == []
    ensures r == Raised(UnsupportedSeparator) <==>
              v.PyStr? && Strip(v.s) != [] && '.' !in Strip(v.s) && '-' !in Strip(v.s)
    ensures r != Raised(MissingMonth)
    ensures r.YearMonthOf? ==> 1 <= r.month <= 12
  {
    match v
    case PyOther => Raised(NotAString)
    case PyStr(s0) => ParseStripped(Strip(s0))
  }

  /** The function after `s = s.strip()`. */
  function ParseStripped(s: string): (r: YearMonthResult)
    ensures r != Raised(NotAString) && r != Raised(MissingMonth)
    ensures r == Raised(EmptyString) <==> s == []
    ensures r == Raised(UnsupportedSeparator) <==> s != [] && '.' !in s && '-' !in s
    ensures r.YearMonthOf? ==> 1 <= r.month <= 12
  {
    if s == [] then Raised(EmptyString)
    else if '.' !in s && '-' !in s then Raised(UnsupportedSeparator)
    else ReadParts(Pieces(s))
  }

  /** `s.split('.')` when `s` holds a '.', else `s.split('-')`. */
  function Pieces(s: string): (parts: seq<string>)
    requires '.' in s || '-' in s
    ensures |parts| >= 2
  {
    if '.' in s then Split(s, '.') else Split(s, '-')
  }

  /** The checks on the pieces: at least two, both integers, the month in
      range. */
  function ReadParts(parts: seq<string>): (r: YearMonthResult)
    ensures r.Raised? ==> r.error == MissingMonth || r.error == NotIntegers || r.error == MonthOutOfRange
    ensures r == Raised(MissingMonth) <==> |parts| < 2
    ensures r.YearMonthOf? ==> 1 <= r.month <= 12
    ensures r.YearMonthOf? <==> |parts| >= 2 && PyInt(parts[0]).Some? && PyInt(parts[1]).Some? && 1 <= PyInt(parts[1]).value <= 12
    ensures r.YearMonthOf? ==> Some(r.year) == PyInt(parts[0]) && Some(r.month) == PyInt(parts[1])
  {
    if |parts| < 2 then Raised(MissingMonth)
    else match (PyInt(parts[0]), PyInt(parts[1]))
      case (Some(year), Some(month)) =>
        if month < 1 || month > 12 then Raised(MonthOutOfRange) else YearMonthOf(year, month)
      case _ => Raised(NotIntegers)
  }

  /** What a successful parse reads: the first two pieces the separator
      cuts, '.' winning over '-'; any further pieces are ignored. */
  lemma ParsedFromFirstTwo(v: PyValue)
    requires ParseYearMonth(v).YearMonthOf?
    ensures var s := Strip(v.s);
            var parts := if '.' in s then Split(s, '.') else Split(s, '-');
            && |parts| >= 2
            && PyInt(parts[0]) == Some(ParseYearMonth(v).year)
            && PyInt(parts[1]) == Some(ParseYearMonth(v).month)
  {
    assert ParseYearMonth(v) == ParseStripped(Strip(v.s)) == ReadParts(Pieces(Strip(v.s)));
  }

  lemma DigitValue(d: nat)
    requires d < 10
    ensures IsDigit(DigitChar(d)) && DigitChar(d) as int - '0' as int == d
  {
    assert "0123456789"[0] == '0' && "0123456789"[1] == '1' && "0123456789"[2] == '2';
    assert "0123456789"[3] == '3' && "0123456789"[4] == '4' && "0123456789"[5] == '5';
    assert "0123456789"[6] == '6' && "0123456789"[7] == '7' && "0123456789"[8] == '8';
    assert "0123456789"[9] == '9';
  }

  /** `int(str(n))` is `n`. */
  lemma {:induction false} NatDigitsRoundTrip(n: nat)
    ensures IsDigitString(NatToString(n)) && DigitsValue(NatToString(n)) == n
  {
    var s := NatToString(n);
    if n < 10 {
      DigitValue(n);
      assert s == [DigitChar(n)] && s[..0] == [];
    } else {
      NatDigitsRoundTrip(n / 10);
      DigitValue(n % 10);
      assert s == NatToString(n / 10) + [DigitChar(n % 10)];
      assert s[..|s| - 1] == NatToString(n / 10);
    }
    AllDigits(s);
  }

  /** Plain digits form a literal. */
  lemma AllDigits(s: string)
    requires s != [] && forall i :: 0 <= i < |s| ==> '0' <= s[i] <= '9'
    ensures IsDigitString(s)
  {
  }

  /** Digits, signs and separators are not whitespace. */
  lemma NotSpace(c: char)
    requires IsDigit(c) || c == '-' || c == '.'
    ensures !IsPySpace(c)
  {
  }

  /** `int(str(y))` is `y`, for negative `y` as well. */
  lemma IntRoundTrip(y: int)
    ensures PyInt(IntToString(y)) == Some(y)
  {
    var t := IntToString(y);
    var n: nat := if y < 0 then -y else y;
    var d := NatToString(n);
    NatDigitsRoundTrip(n);
    if y < 0 {
      assert t == "-" + d && t[0] == '-' && t[1..] == d;
    } else {
      assert t == d;
    }
    NotSpace(t[0]);
    NotSpace(t[|t| - 1]);
    StripKeeps(t);
  }

  /** Cutting `a + [c] + b`, with `c` in neither, at `c` gives `a` and `b`. */
  lemma SplitTwo(a: string, c: char, b: string)
    requires c !in a && c !in b
    ensures Split(a + [c] + b, c) == [a, b]
  {
    var s := a + [c] + b;
    assert s[|a|] == c;
    assert s[..|a|] == a;
    var k := IndexOf(s, c);
    assert s[k + 1..] == b;
    assert Split(b, c) == [b];
  }

  /** Round trip: `str(year) + '.' + str(month)` reads back as `(year, month)`
      for each month 1..12. */
  lemma DotRoundTrip(year: int, month: nat)
    requires 1 <= month <= 12
    ensures ParseYearMonth(PyStr(IntToString(year) + "." + NatToString(month))) == YearMonthOf(year, month)
  {
    var s := IntToString(year) + "." + NatToString(month);
    DotPieces(year, month);
    IntRoundTrip(year);
    IntRoundTrip(month);
    ReadTwo(IntToString(year), IntToString(month), year, month);
    assert ParseStripped(s) == ReadParts([IntToString(year), IntToString(month)]);
  }

  lemma ReadTwo(a: string, b: string, year: int, month: int)
    requires PyInt(a) == Some(year) && PyInt(b) == Some(month) && 1 <= month <= 12
    ensures ReadParts([a, b]) == YearMonthOf(year, month)
  {
  }

  /** The text of `DotRoundTrip` needs no stripping and cuts into the year
      and the month. */
  lemma DotPieces(year: int, month: nat)
    ensures var a, b := IntToString(year), NatToString(month);
            var s := a + "." + b;
            && Strip(s) == s && s != [] && '.' in s && Pieces(s) == [a, IntToString(month)]
  {
    var a, b := IntToString(year), NatToString(month);
    IntChars(year);
    IntChars(month);
    assert IntToString(month) == b;
    NotSpace(a[0]);
    NotSpace(b[|b| - 1]);
    JoinedPieces(a, b);
  }

  lemma JoinedPieces(a: string, b: string)
    requires a != [] && b != [] && '.' !in a && '.' !in b && !IsPySpace(a[0]) && !IsPySpace(b[|b| - 1])
    ensures var s := a + "." + b;
            Strip(s) == s && s != [] && '.' in s && Pieces(s) == [a, b]
  {
    var s := a + "." + b;
    assert s == a + ['.'] + b;
    SplitTwo(a, '.', b);
    assert s[0] == a[0] && s[|s| - 1] == b[|b| - 1];
    StripKeeps(s);
    assert s[|a|] == '.';
  }

  /** `str(y)` is a '-' or digit, then digits. */
  lemma IntChars(y: int)
    ensures var t := IntToString(y);
            && t != [] && '.' !in t && (IsDigit(t[0]) || t[0] == '-') && IsDigit(t[|t| - 1])
  {
    var d := NatToString(if y < 0 then -y else y);
    assert IsDigit(d[|d| - 1]);
    if y < 0 {
      assert IntToString(y) == "-" + d;
      assert forall i :: 0 <= i < |"-" + d| ==> ("-" + d)[i] == '-' || ("-" + d)[i] == d[i - 1];
    }
  }
}

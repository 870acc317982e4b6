/**
 The cell voltages of a battery row as text: printed with three decimals and joined by commas, and
 parsed back by repeated number scans.
 */
module CellCsv {

  predicate IsDigit(c: char) {
    '0' <= c <= '9'
  }

  function DigitChar(d: nat): (c: char)
    requires d < 10
    ensures IsDigit(c)
  {
    ('0' as int + d) as char
  }

  function DigitOf(c: char): (d: nat)
    requires IsDigit(c)
    ensures d < 10
  {
    c as int - '0' as int
  }

  predicate AllDigits(s: string) {
    forall i :: 0 <= i < |s| ==> IsDigit(s[i])
  }

  // ------------------------------------------------------------ printing

  /** A number in decimal, without leading zeros. */
  function Decimal(n: nat): (s: string)
    ensures |s| > 0 && AllDigits(s)
  {
    if n < 10 then [DigitChar(n)] else Decimal(n / 10) + [DigitChar(n % 10)]
  }

  /** The last three digits of a number. */
  function Thousandths(mv: nat): (s: string)
    ensures |s| == 3 && AllDigits(s)
  {
    [DigitChar(mv / 100 % 10), DigitChar(mv / 10 % 10), DigitChar(mv % 10)]
  }

  /** "%.3f" of `mv` thousandths. */
  function PrintMilli(mv: nat): string {
    Decimal(mv / 1000) + "." + Thousandths(mv)
  }

  function Abs(v: real): (x: real)
    ensures x >= 0.0
  {
    if v < 0.0 then -v else v
  }

  /** The nearest whole number of thousandths, the even one of two that are equally near. */
  function RoundMilli(x: real): (mv: nat)
    requires x >= 0.0
    ensures -0.5 <= x * 1000.0 - mv as real <= 0.5
    ensures Whole(x * 1000.0) ==> mv as real == x * 1000.0
  {
    var whole := (x * 1000.0).Floor;
    var part := x * 1000.0 - whole as real;
    if part < 0.5 || (part == 0.5 && whole % 2 == 0) then whole else whole + 1
  }

  /** "%.3f" of a voltage. */
  function PrintVolts(v: real): string {
    (if v < 0.0 then "-" else "") + PrintMilli(RoundMilli(Abs(v)))
  }

  /** The print buffer holds eleven characters and a terminator; the rest of a longer number is cut off. */
  const BUFFER := 11

  function PrintCell(v: real): string {
    var s := PrintVolts(v);
    if |s| <= BUFFER then s else s[..BUFFER]
  }

  function PrintCells(cells: seq<real>): string {
    if cells == [] then ""
    else if |cells| == 1 then PrintCell(cells[0])
    else PrintCell(cells[0]) + "," + PrintCells(cells[1..])
  }

  method SerializeCells(cells: seq<real>) returns (text: string)
    ensures text == PrintCells(cells)
  {
    hide PrintCell, PrintCells;
    NoCells();
    assert cells[0..] == cells && cells[|cells|..] == [];
    text := "";
    for i := 0 to |cells|
      invariant PrintCells(cells) == text + (if i == 0 || i == |cells| then "" else ",") + PrintCells(cells[i..])
    {
      PrintStep(cells, i);
      if i > 0 { text := text + ","; }
      text := text + PrintCell(cells[i]);
    }
  }

  lemma NoCells()
    ensures PrintCells([]) == ""
  {
  }

  lemma PrintStep(cells: seq<real>, i: nat)
    requires i < |cells|
    ensures PrintCells(cells[i..]) ==
              PrintCell(cells[i]) + (if i + 1 == |cells| then "" else ",") + PrintCells(cells[i + 1..])
    ensures i + 1 == |cells| ==> PrintCells(cells[i + 1..]) == ""
  {
    hide PrintCell;
    assert cells[i..][1..] == cells[i + 1..];
  }

  // ------------------------------------------------------------ scanning a number

  /** The end of the run of digits that begins at `p`. */
  function DigitsEnd(s: string, p: nat): (e: nat)
    requires p <= |s|
    ensures p <= e <= |s| && AllDigits(s[p..e]) && (e < |s| ==> !IsDigit(s[e]))
    decreases |s| - p
  {
    if p < |s| && IsDigit(s[p]) then
      var e := DigitsEnd(s, p + 1);
      assert s[p..e] == [s[p]] + s[p + 1..e];
      e
    else p
  }

  /** The value of a string of digits. */
  function Value(s: string): nat
    requires AllDigits(s)
  {
    if s == "" then 0 else Value(s[..|s| - 1]) * 10 + DigitOf(s[|s| - 1])
  }

  function Pow10(n: nat): (p: nat)
    ensures p > 0
  {
    if n == 0 then 1 else 10 * Pow10(n - 1)
  }

  function Power(base: nat, n: nat): (p: nat)
    requires base > 0
    ensures p > 0
  {
    if n == 0 then 1 else base * Power(base, n - 1)
  }

  datatype Voltage = Finite(v: real) | Infinite(negative: bool) | NotANumber

  /** What was scanned: plus or minus `digits` / 10^`scale` * 10^`exponent`, the same with 16 and 2 for a
      hexadecimal number, or a name; `end` is where the scan stopped. */
  datatype Scan =
    | Number(negative: bool, digits: nat, scale: nat, exponent: int, end: nat)
    | Hex(negative: bool, digits: nat, scale: nat, exponent: int, end: nat)
    | Infinity(negative: bool, end: nat)
    | NaN(end: nat)
  {
    function Voltage(): Voltage {
      match this
      case Number(neg, d, scale, e, _) => Finite(Signed(neg, Scaled(d as real / Pow10(scale) as real, 10, e)))
      case Hex(neg, d, scale, e, _) => Finite(Signed(neg, Scaled(d as real / Power(16, scale) as real, 2, e)))
      case Infinity(neg, _) => Infinite(neg)
      case NaN(_) => NotANumber
    }
  }

  function Signed(negative: bool, x: real): real {
    if negative then -x else x
  }

  function Scaled(x: real, base: nat, exponent: int): real
    requires base > 0
  {
    if exponent >= 0 then x * Power(base, exponent) as real else x / Power(base, -exponent) as real
  }

  predicate IsSpace(c: char) {
    c == ' ' || '\t' <= c <= '\r'
  }

  function SkipSpace(s: string, p: nat): (q: nat)
    requires p <= |s|
    ensures p <= q <= |s|
    decreases |s| - p
  {
    if p < |s| && IsSpace(s[p]) then SkipSpace(s, p + 1) else p
  }

  function SkipSign(s: string, p: nat): (q: nat)
    requires p <= |s|
    ensures p <= q <= |s|
  {
    if p < |s| && s[p] in {'+', '-'} then p + 1 else p
  }

  predicate Minus(s: string, p: nat) {
    p < |s| && s[p] == '-'
  }

  /** Digits, a point, digits: their value, how many follow the point, and where they end.  Without a
      digit nothing is consumed. */
  function Mantissa(s: string, p: nat): (r: (nat, nat, nat))
    requires p <= |s|
    ensures p <= r.2 <= |s|
  {
    var e := DigitsEnd(s, p);
    if e < |s| && s[e] == '.' then
      var f := DigitsEnd(s, e + 1);
      if e == p && f == e + 1 then (0, 0, p)
      else (Value(s[p..e]) * Pow10(f - e - 1) + Value(s[e + 1..f]), f - e - 1, f)
    else (Value(s[p..e]), 0, e)
  }

  /** An exponent, after either of two letters, counts only when it has a digit. */
  function Exponent(s: string, p: nat, letters: set<char>): (r: (int, nat))
    requires p <= |s|
    ensures p <= r.1 <= |s|
  {
    if p < |s| && s[p] in letters then
      var q := SkipSign(s, p + 1);
      var e := DigitsEnd(s, q);
      if e == q then (0, p) else (if Minus(s, p + 1) then -(Value(s[q..e]) as int) else Value(s[q..e]), e)
    else (0, p)
  }

  function Lower(c: char): char {
    if 'A' <= c <= 'Z' then (c as int + 32) as char else c
  }

  /** A word in either case. */
  predicate Spells(s: string, p: nat, word: string) {
    p + |word| <= |s| && forall i :: 0 <= i < |word| ==> Lower(s[p + i]) == word[i]
  }

  predicate IsHexDigit(c: char) {
    IsDigit(c) || 'a' <= Lower(c) <= 'f'
  }

  function HexEnd(s: string, p: nat): (e: nat)
    requires p <= |s|
    ensures p <= e <= |s| && forall i :: p <= i < e ==> IsHexDigit(s[i])
    decreases |s| - p
  {
    if p < |s| && IsHexDigit(s[p]) then HexEnd(s, p + 1) else p
  }

  function HexDigitOf(c: char): nat
    requires IsHexDigit(c)
  {
    if IsDigit(c) then DigitOf(c) else Lower(c) as int - 'a' as int + 10
  }

  function HexValue(s: string): nat
    requires forall i :: 0 <= i < |s| ==> IsHexDigit(s[i])
  {
    if s == "" then 0 else HexValue(s[..|s| - 1]) * 16 + HexDigitOf(s[|s| - 1])
  }

  function HexMantissa(s: string, p: nat): (r: (nat, nat, nat))
    requires p <= |s|
    ensures p <= r.2 <= |s|
  {
    var e := HexEnd(s, p);
    if e < |s| && s[e] == '.' then
      var f := HexEnd(s, e + 1);
      if e == p && f == e + 1 then (0, 0, p)
      else (HexValue(s[p..e]) * Power(16, f - e - 1) + HexValue(s[e + 1..f]), f - e - 1, f)
    else (HexValue(s[p..e]), 0, e)
  }

  /** `nan` may be followed by letters, digits and underscores in parentheses. */
  function NaNEnd(s: string, p: nat): (e: nat)
    requires p <= |s|
    ensures p <= e <= |s|
  {
    if p < |s| && s[p] == '(' then
      var e := NameEnd(s, p + 1);
      if e < |s| && s[e] == ')' then e + 1 else p
    else p
  }

  function NameEnd(s: string, p: nat): (e: nat)
    requires p <= |s|
    ensures p <= e <= |s|
    decreases |s| - p
  {
    if p < |s| && (IsDigit(s[p]) || s[p] == '_' || 'a' <= Lower(s[p]) <= 'z') then NameEnd(s, p + 1) else p
  }

  /** `strtod`: white space, a sign, and a decimal number, a hexadecimal one, or a name. */
  function Strtod(s: string, p: nat): (r: Scan)
    requires p <= |s|
    ensures p <= r.end <= |s|
  {
    var q := SkipSpace(s, p);
    var m, neg := SkipSign(s, q), Minus(s, q);
    if Spells(s, m, "infinity") then Infinity(neg, m + 8)
    else if Spells(s, m, "inf") then Infinity(neg, m + 3)
    else if Spells(s, m, "nan") then NaN(NaNEnd(s, m + 3))
    else if Spells(s, m, "0x") && HexMantissa(s, m + 2).2 > m + 2 then
      var (digits, scale, f) := HexMantissa(s, m + 2);
      var (exponent, e) := Exponent(s, f, {'p', 'P'});
      Hex(neg, digits, scale, exponent, e)
    else
      var (digits, scale, f) := Mantissa(s, m);
      if f == m then Number(false, 0, 0, 0, p)
      else
        var (exponent, e) := Exponent(s, f, {'e', 'E'});
        Number(neg, digits, scale, exponent, e)
  }

  /** The text ends, as C strings do, at its end or at a NUL. */
  predicate AtEnd(s: string, p: nat) {
    p >= |s| || s[p] == '\0'
  }

  function Parse(s: string, p: nat): seq<Scan>
    requires p <= |s|
    decreases |s| - p
  {
    if AtEnd(s, p) then []
    else
      var r := Strtod(s, p);
      if r.end == p then []
      else [r] + Parse(s, if r.end < |s| && s[r.end] == ',' then r.end + 1 else r.end)
  }

  function Voltages(scans: seq<Scan>): (vs: seq<Voltage>)
    ensures |vs| == |scans|
  {
    seq(|scans|, i requires 0 <= i < |scans| => scans[i].Voltage())
  }

  /** The parse loop; it strictly advances, on every text. */
  method ParseCells(text: string) returns (cells: seq<Voltage>)
    ensures cells == Voltages(Parse(text, 0))
  {
    hide Strtod, Parse, Voltages, Scan.Voltage;
    cells := [];
    var p := 0;
    ghost var done: seq<Scan> := [];
    NoVoltages();
    while !AtEnd(text, p)
      invariant p <= |text| && cells == Voltages(done) && done + Parse(text, p) == Parse(text, 0)
      decreases |text| - p
    {
      var r := Strtod(text, p);
      ParseStep(done, text, p);
      if r.end == p { return; }
      VoltagesAppend(done, r);
      cells := cells + [r.Voltage()];
      done := done + [r];
      p := if r.end < |text| && text[r.end] == ',' then r.end + 1 else r.end;
    }
    ParseStop(done, text, p);
  }

  lemma NoVoltages()
    ensures Voltages([]) == []
  {
  }

  lemma {:induction false} ParseStop(done: seq<Scan>, s: string, p: nat)
    requires p <= |s| && AtEnd(s, p)
    ensures done + Parse(s, p) == done
  {
  }

  lemma ParseStep(done: seq<Scan>, s: string, p: nat)
    requires p < |s| && !AtEnd(s, p)
    ensures var r := Strtod(s, p);
            done + Parse(s, p) ==
              if r.end == p then done
              else done + [r] + Parse(s, if r.end < |s| && s[r.end] == ',' then r.end + 1 else r.end)
  {
  }

  lemma VoltagesAppend(scans: seq<Scan>, r: Scan)
    ensures Voltages(scans + [r]) == Voltages(scans) + [r.Voltage()]
  {
  }

  // ------------------------------------------------------------ round trip

  lemma {:induction false} ValueOfDecimal(n: nat)
    ensures Value(Decimal(n)) == n
  {
    if n >= 10 {
      ValueOfDecimal(n / 10);
      assert Decimal(n)[..|Decimal(n)| - 1] == Decimal(n / 10);
    }
  }

  lemma {:induction false} DigitsEndAt(s: string, p: nat, e: nat)
    requires p <= e <= |s| && AllDigits(s[p..e]) && (e < |s| ==> !IsDigit(s[e]))
    ensures DigitsEnd(s, p) == e
    decreases e - p
  {
    if p < e {
      assert s[p] == s[p..e][0];
      assert s[p + 1..e] == s[p..e][1..];
      DigitsEndAt(s, p + 1, e);
    }
  }

  lemma ValueOfThousandths(mv: nat)
    ensures Value(Thousandths(mv)) == mv % 1000
  {
    var t := Thousandths(mv);
    assert t[..2][..1] == t[..1] && t[..1][..0] == "";
    assert Value(t[..1]) == mv / 100 % 10;
    assert t[..2][1] == t[1];
    assert Value(t[..2]) == mv / 100 % 10 * 10 + mv / 10 % 10;
    ThreeDigits(mv);
  }

  lemma ThreeDigits(mv: nat)
    ensures (mv / 100 % 10 * 10 + mv / 10 % 10) * 10 + mv % 10 == mv % 1000
  {
    var tens := mv / 10;
    var hundreds := tens / 10;
    var whole := hundreds / 10;
    assert mv / 100 == hundreds && mv / 1000 == whole;
  }

  /** The bounds of the two runs of digits of a printed number inside a longer text. */
  lemma RunsOfPrinted(before: string, whole: string, frac: string, rest: string)
    requires AllDigits(whole) && AllDigits(frac)
    requires rest == "" || rest[0] == ','
    ensures var s, p := before + (whole + "." + frac) + rest, |before|;
            var e := p + |whole|;
            var f := e + 1 + |frac|;
            && f <= |s| && s[e] == '.' && s[p..e] == whole && s[e + 1..f] == frac
            && DigitsEnd(s, p) == e && DigitsEnd(s, e + 1) == f
  {
    hide DigitsEnd;
    var s, p := before + (whole + "." + frac) + rest, |before|;
    var e := p + |whole|;
    var f := e + 1 + |frac|;
    assert s[p..e] == whole;
    assert s[e + 1..f] == frac;
    assert f < |s| ==> s[f] == rest[0];
    DigitsEndAt(s, p, e);
    DigitsEndAt(s, e + 1, f);
  }

  lemma MantissaOfRuns(s: string, p: nat, e: nat, f: nat)
    requires p < e < f <= |s| && s[e] == '.' && DigitsEnd(s, p) == e && DigitsEnd(s, e + 1) == f
    ensures AllDigits(s[p..e]) && AllDigits(s[e + 1..f])
    ensures Mantissa(s, p) == (Value(s[p..e]) * Pow10(f - e - 1) + Value(s[e + 1..f]), f - e - 1, f)
  {
    hide DigitsEnd, Value, Pow10;
  }

  lemma DigitAt(s: string, i: nat)
    requires AllDigits(s) && i < |s|
    ensures IsDigit(s[i])
  {
  }

  /** The mantissa of two runs of digits around a point. */
  lemma MantissaOfText(s: string, p: nat, whole: string, frac: string)
    requires AllDigits(whole) && AllDigits(frac) && whole != "" && p + |whole| + 1 + |frac| <= |s|
    requires s[p..p + |whole|] == whole && s[p + |whole|] == '.'
    requires s[p + |whole| + 1..p + |whole| + 1 + |frac|] == frac
    requires DigitsEnd(s, p) == p + |whole| && DigitsEnd(s, p + |whole| + 1) == p + |whole| + 1 + |frac|
    ensures IsDigit(s[p]) && (IsDigit(s[p + 1]) || s[p + 1] == '.')
    ensures Mantissa(s, p) == (Value(whole) * Pow10(|frac|) + Value(frac), |frac|, p + |whole| + 1 + |frac|)
  {
    hide DigitsEnd, Value, Pow10, Mantissa, AllDigits;
    assert s[p] == s[p..p + |whole|][0];
    DigitAt(whole, 0);
    if |whole| > 1 {
      assert s[p + 1] == s[p..p + |whole|][1];
      DigitAt(whole, 1);
    }
    MantissaOfRuns(s, p, p + |whole|, p + |whole| + 1 + |frac|);
  }

  lemma MantissaOfPrinted(before: string, mv: nat, rest: string)
    requires rest == "" || rest[0] == ','
    ensures var s, p := before + PrintMilli(mv) + rest, |before|;
            && |PrintMilli(mv)| > 1 && Mantissa(s, p) == (mv, 3, p + |PrintMilli(mv)|)
            && IsDigit(s[p]) && (IsDigit(s[p + 1]) || s[p + 1] == '.')
  {
    hide Decimal, Thousandths, Value, Pow10, Mantissa, AllDigits, IsDigit, DigitsEnd;
    var whole, frac := Decimal(mv / 1000), Thousandths(mv);
    RunsOfPrinted(before, whole, frac, rest);
    MantissaOfText(before + (whole + "." + frac) + rest, |before|, whole, frac);
    ValueOfDecimal(mv / 1000);
    ValueOfThousandths(mv);
    PowerOfThree();
  }

  lemma NoExponent(before: string, t: string, rest: string)
    requires rest == "" || rest[0] == ','
    ensures Exponent(before + t + rest, |before| + |t|, {'e', 'E'}) == (0, |before| + |t|)
  {
    assert rest != "" ==> (before + t + rest)[|before| + |t|] == rest[0];
  }

  /** A digit followed by a digit or a point begins a decimal number. */
  lemma BeginsDecimal(s: string, m: nat)
    requires m + 1 < |s| && IsDigit(s[m]) && (IsDigit(s[m + 1]) || s[m + 1] == '.')
    ensures !Spells(s, m, "infinity") && !Spells(s, m, "inf") && !Spells(s, m, "nan") && !Spells(s, m, "0x")
  {
    assert Lower(s[m]) == s[m] && Lower(s[m + 1]) == s[m + 1];
    assert "infinity"[0] == 'i' && "inf"[0] == 'i' && "nan"[0] == 'n' && "0x"[1] == 'x';
    assert m + 0 == m;
  }

  lemma StrtodOfParts(s: string, p: nat, m: nat, f: nat, digits: nat)
    requires p <= m < f <= |s| && m + 1 < |s| && IsDigit(s[m]) && (IsDigit(s[m + 1]) || s[m + 1] == '.')
    requires m == p || (m == p + 1 && s[p] == '-')
    requires Mantissa(s, m) == (digits, 3, f) && Exponent(s, f, {'e', 'E'}) == (0, f)
    ensures Strtod(s, p) == Number(m != p, digits, 3, 0, f) && s[p] != '\0'
  {
    hide Mantissa, Exponent, Spells, HexMantissa;
    BeginsDecimal(s, m);
    assert SkipSpace(s, p) == p && SkipSign(s, p) == m;
  }

  /** A printed number, followed by nothing or by a comma, is scanned back in full. */
  lemma ScanPrinted(before: string, v: real, rest: string)
    requires rest == "" || rest[0] == ','
    ensures var s, p := before + PrintVolts(v) + rest, |before|;
            && p < |s| && s[p] != '\0'
            && Strtod(s, p) == Number(v < 0.0, RoundMilli(Abs(v)), 3, 0, p + |PrintVolts(v)|)
  {
    hide RoundMilli, Mantissa, Exponent, PrintMilli, Strtod;
    var sign, mv := if v < 0.0 then "-" else "", RoundMilli(Abs(v));
    var s, p := before + PrintVolts(v) + rest, |before|;
    var m := p + |sign|;
    var f := m + |PrintMilli(mv)|;
    assert s == (before + sign) + PrintMilli(mv) + rest;
    MantissaOfPrinted(before + sign, mv, rest);
    NoExponent(before + sign, PrintMilli(mv), rest);
    assert v < 0.0 ==> s[p] == sign[0];
    StrtodOfParts(s, p, m, f, mv);
  }

  lemma PowerOfThree()
    ensures Pow10(3) == 1000
  {
    assert Pow10(1) == 10 * Pow10(0);
  }

  lemma {:induction false} DecimalLength(n: nat, k: nat)
    requires k > 0
    ensures |Decimal(n)| <= k <==> n < Pow10(k)
    decreases k
  {
    if k == 1 {
      assert Pow10(1) == 10 * Pow10(0);
    } else {
      assert Pow10(k - 1) >= 10 by { assert Pow10(k - 1) == 10 * Pow10(k - 2); }
      if n >= 10 {
        DecimalLength(n / 10, k - 1);
      }
    }
  }

  /** The voltages that the print buffer does not cut off, a sign taking one place. */
  predicate Fits(v: real) {
    RoundMilli(Abs(v)) < if v < 0.0 then 1000000000 else 10000000000
  }

  lemma Powers()
    ensures Pow10(6) == 1000000 && Pow10(7) == 10000000
  {
    PowerOfThree();
    assert Pow10(5) == 10 * Pow10(4);
  }

  lemma PrintFits(v: real)
    ensures PrintCell(v) == PrintVolts(v) <==> Fits(v)
    ensures |PrintCell(v)| > 0
  {
    hide Decimal, Thousandths, RoundMilli, Pow10;
    DecimalLength(RoundMilli(Abs(v)) / 1000, 7);
    DecimalLength(RoundMilli(Abs(v)) / 1000, 6);
    Powers();
  }

  /** Each scan of a printed list gives the voltage in thousandths. */
  ghost predicate ScansOf(scans: seq<Scan>, cells: seq<real>) {
    |scans| == |cells| &&
    forall i :: 0 <= i < |cells| ==>
      && scans[i].Number? && scans[i].negative == (cells[i] < 0.0) && scans[i].digits == RoundMilli(Abs(cells[i]))
      && scans[i].scale == 3 && scans[i].exponent == 0
  }

  lemma {:induction false} ParseFirst(s: string, p: nat, next: nat)
    requires p < |s| && s[p] != '\0' && Strtod(s, p).end > p
    requires var e := Strtod(s, p).end; next == if e < |s| && s[e] == ',' then e + 1 else e
    ensures next <= |s| && Parse(s, p) == [Strtod(s, p)] + Parse(s, next)
  {
  }

  lemma {:induction false} ParseEnd(s: string)
    ensures Parse(s, |s|) == []
  {
  }

  lemma {:induction false} ParsePrinted(before: string, cells: seq<real>)
    requires forall i :: 0 <= i < |cells| ==> Fits(cells[i])
    ensures ScansOf(Parse(before + PrintCells(cells), |before|), cells)
    decreases |cells|
  {
    hide Strtod, Parse, PrintVolts, PrintCell, RoundMilli, Fits;
    var s, p := before + PrintCells(cells), |before|;
    if cells == [] {
      assert s == before;
      ParseEnd(s);
    } else {
      var first := PrintVolts(cells[0]);
      PrintFits(cells[0]);
      if |cells| == 1 {
        assert s == before + first + "";
        ScanPrinted(before, cells[0], "");
        ParseFirst(s, p, |s|);
        ParseEnd(s);
      } else {
        var rest := PrintCells(cells[1..]);
        assert s == before + first + ("," + rest);
        ScanPrinted(before, cells[0], "," + rest);
        assert s[p + |first|] == ',';
        var before' := before + first + ",";
        assert s == before' + rest;
        ParsePrinted(before', cells[1..]);
        ParseFirst(s, p, |before'|);
      }
    }
  }

  predicate Whole(x: real) {
    x == x.Floor as real
  }

  /** A voltage to the nearest millivolt. */
  function Rounded(v: real): (r: real)
    ensures -0.0005 <= r - v <= 0.0005
    ensures r == v <==> Whole(v * 1000.0)
  {
    RoundedIsNear(Abs(v));
    WholeAbs(v);
    var x := RoundMilli(Abs(v)) as real / 1000.0;
    if v < 0.0 then -x else x
  }

  lemma RoundedIsNear(a: real)
    requires a >= 0.0
    ensures var x := RoundMilli(a) as real / 1000.0;
            -0.0005 <= x - a <= 0.0005 && (x == a <==> Whole(a * 1000.0))
  {
    var mv := RoundMilli(a);
    hide RoundMilli;
    assert mv as real / 1000.0 * 1000.0 == mv as real;
    if mv as real / 1000.0 == a { assert a * 1000.0 == mv as real; }
  }

  lemma WholeAbs(v: real)
    ensures Whole(Abs(v) * 1000.0) <==> Whole(v * 1000.0)
  {
    var x := v * 1000.0;
    if Whole(x) { assert -x == (-x.Floor) as real; }
    if Whole(-x) { assert x == (-(-x).Floor) as real; }
  }

  /** Any list of voltages that fit is parsed back, in order, to the same voltages rounded to the
      millivolt; whole millivolts, so all that a 16-bit reading can report, come back exactly. */
  lemma {:induction false} CellRoundTrip(cells: seq<real>)
    requires forall i :: 0 <= i < |cells| ==> Fits(cells[i])
    ensures Voltages(Parse(PrintCells(cells), 0)) ==
              seq(|cells|, i requires 0 <= i < |cells| => Finite(Rounded(cells[i])))
  {
    hide Parse, PrintCells, Scan.Voltage, RoundMilli, Rounded, Fits;
    ParsePrinted("", cells);
    assert "" + PrintCells(cells) == PrintCells(cells);
    var scans := Parse(PrintCells(cells), 0);
    forall i | 0 <= i < |cells| ensures scans[i].Voltage() == Finite(Rounded(cells[i])) {
      ThousandthsAreVolts(scans[i], cells[i]);
    }
  }

  lemma ThousandthsAreVolts(r: Scan, v: real)
    requires r.Number? && r.scale == 3 && r.exponent == 0
    requires r.negative == (v < 0.0) && r.digits == RoundMilli(Abs(v))
    ensures r.Voltage() == Finite(Rounded(v))
  {
    hide Pow10, RoundMilli, Power;
    PowerOfThree();
    PowerOfNought();
  }

  lemma PowerOfNought()
    ensures Power(10, 0) == 1
  {
  }

  /** Every 16-bit millivolt reading fits and is a whole number of millivolts. */
  lemma MillivoltsRoundTrip(readings: seq<nat>)
    requires forall i :: 0 <= i < |readings| ==> readings[i] < 65536
    ensures var cells := seq(|readings|, i requires 0 <= i < |readings| => readings[i] as real / 1000.0);
            Voltages(Parse(PrintCells(cells), 0)) == seq(|cells|, i requires 0 <= i < |cells| => Finite(cells[i]))
  {
    var cells := seq(|readings|, i requires 0 <= i < |readings| => readings[i] as real / 1000.0);
    hide PrintCells, Parse;
    forall i | 0 <= i < |cells| ensures Fits(cells[i]) && Rounded(cells[i]) == cells[i] {
      WholeMillivolts(readings[i]);
    }
    hide Rounded, Fits;
    CellRoundTrip(cells);
  }

  lemma WholeMillivolts(mv: nat)
    requires mv < 65536
    ensures var v := mv as real / 1000.0; Fits(v) && Rounded(v) == v
  {
    var v := mv as real / 1000.0;
    assert v * 1000.0 == mv as real;
    assert (v * 1000.0).Floor == mv;
    assert RoundMilli(Abs(v)) as real == v * 1000.0;
    assert RoundMilli(Abs(v)) == mv;
  }

  // ------------------------------------------------------------ known texts

  lemma {:induction false} OneDigit(n: nat)
    requires n < 10
    ensures Decimal(n) == [DigitChar(n)]
  {
  }

  /** Halves go to the even thousandth. */
  lemma TiesGoToEven()
    ensures RoundMilli(0.0005) == 0 && RoundMilli(0.0015) == 2 && RoundMilli(0.0025) == 2
    ensures RoundMilli(3.249) == 3249 && RoundMilli(3.2494) == 3249 && RoundMilli(3.2496) == 3250
  {
    FloorIs(0.5, 0);
    FloorIs(1.5, 1);
    FloorIs(2.5, 2);
    FloorIs(3249.0, 3249);
    FloorIs(3249.4, 3249);
    FloorIs(3249.6, 3249);
    assert 0.0005 * 1000.0 == 0.5 && 0.0015 * 1000.0 == 1.5 && 0.0025 * 1000.0 == 2.5;
    assert 3.249 * 1000.0 == 3249.0 && 3.2494 * 1000.0 == 3249.4 && 3.2496 * 1000.0 == 3249.6;
  }

  lemma FloorIs(x: real, n: int)
    requires n as real <= x < n as real + 1.0
    ensures x.Floor == n
  {
  }

  lemma KnownMilli(mv: nat, whole: nat)
    requires mv < 10000 && whole == mv / 1000
    ensures PrintMilli(mv) == [DigitChar(whole), '.', DigitChar(mv / 100 % 10), DigitChar(mv / 10 % 10),
                               DigitChar(mv % 10)]
  {
    hide Decimal;
    OneDigit(whole);
  }

  lemma KnownVolts(v: real, mv: nat)
    requires Abs(v) * 1000.0 == mv as real && mv < 10000
    ensures PrintVolts(v) == (if v < 0.0 then "-" else "") + PrintMilli(mv) && |PrintMilli(mv)| == 5
    ensures PrintCell(v) == PrintVolts(v)
  {
    hide RoundMilli, Decimal;
    Milli(Abs(v), mv);
    KnownMilli(mv, mv / 1000);
  }

  lemma TwoCells(a: real, b: real)
    ensures PrintCells([a, b]) == PrintCell(a) + "," + PrintCell(b)
  {
    hide PrintCell;
    assert [a, b][1..] == [b];
    assert PrintCells([b]) == PrintCell(b);
  }

  /** Two cells, and a negative one, as they stand in the table. */
  lemma KnownTexts()
    ensures PrintCells([3.249, 3.051]) == "3.249,3.051"
    ensures PrintVolts(-0.5) == "-0.500"
  {
    hide PrintCells, PrintCell, PrintVolts, PrintMilli;
    TwoCells(3.249, 3.051);
    KnownVolts(3.249, 3249);
    KnownVolts(3.051, 3051);
    KnownVolts(-0.5, 500);
    KnownMilli(3249, 3);
    KnownMilli(3051, 3);
    KnownMilli(500, 0);
    assert PrintMilli(3249) == "3.249" && PrintMilli(3051) == "3.051" && PrintMilli(500) == "0.500";
  }

  lemma Milli(x: real, mv: nat)
    requires x >= 0.0 && x * 1000.0 == mv as real
    ensures RoundMilli(x) == mv
  {
  }

  lemma ValueOfTwo(a: char, b: char)
    requires IsDigit(a) && IsDigit(b)
    ensures Value([a]) == DigitOf(a) && Value([a, b]) == 10 * DigitOf(a) + DigitOf(b)
  {
    assert [a][..0] == "" && [a, b][..1] == [a];
  }

  lemma HexValueOfTwo(a: char, b: char)
    requires IsHexDigit(a) && IsHexDigit(b)
    ensures HexValue([a]) == HexDigitOf(a) && HexValue([a, b]) == 16 * HexDigitOf(a) + HexDigitOf(b)
  {
    assert [a][..0] == "" && [a, b][..1] == [a];
  }

  /** A letter, a sign and one digit. */
  lemma ExponentOfOne(s: string, p: nat, letters: set<char>)
    requires p + 3 <= |s| && s[p] in letters && s[p + 1] in {'+', '-'} && IsDigit(s[p + 2])
    requires p + 3 < |s| ==> !IsDigit(s[p + 3])
    ensures var d := DigitOf(s[p + 2]) as int;
            Exponent(s, p, letters) == (if s[p + 1] == '-' then -d else d, p + 3)
  {
    var d := s[p + 2..p + 3];
    assert |d| == 1 && d[0] == s[p + 2];
    assert d == [s[p + 2]];
    DigitsEndAt(s, p + 2, p + 3);
    ValueOfTwo(s[p + 2], s[p + 2]);
  }

  /** One digit, a point, one digit. */
  lemma MantissaOfOne(s: string, p: nat)
    requires p + 3 <= |s| && IsDigit(s[p]) && s[p + 1] == '.' && IsDigit(s[p + 2])
    requires p + 3 < |s| ==> !IsDigit(s[p + 3])
    ensures Mantissa(s, p) == (DigitOf(s[p]) * 10 + DigitOf(s[p + 2]), 1, p + 3)
  {
    assert s[p..p + 1] == [s[p]] && s[p + 2..p + 3] == [s[p + 2]];
    DigitsEndAt(s, p, p + 1);
    DigitsEndAt(s, p + 2, p + 3);
    ValueOfTwo(s[p], s[p]);
    ValueOfTwo(s[p + 2], s[p + 2]);
    assert Pow10(1) == 10 * Pow10(0);
  }

  /** Two digits, a point, one digit. */
  lemma HexMantissaOfThree(s: string, p: nat)
    requires p + 4 < |s| && s[p + 2] == '.' && !IsHexDigit(s[p + 4])
    requires IsHexDigit(s[p]) && IsHexDigit(s[p + 1]) && IsHexDigit(s[p + 3])
    ensures HexMantissa(s, p) ==
              ((16 * HexDigitOf(s[p]) + HexDigitOf(s[p + 1])) * 16 + HexDigitOf(s[p + 3]), 1, p + 4)
  {
    var whole, frac := s[p..p + 2], s[p + 3..p + 4];
    assert whole == [s[p], s[p + 1]] && frac == [s[p + 3]];
    assert HexEnd(s, p + 2) == p + 2 && HexEnd(s, p + 1) == p + 2 && HexEnd(s, p) == p + 2;
    assert HexEnd(s, p + 4) == p + 4 && HexEnd(s, p + 3) == p + 4;
    HexValueOfTwo(s[p], s[p + 1]);
    HexValueOfTwo(s[p + 3], s[p + 3]);
    assert Power(16, 1) == 16 * Power(16, 0);
  }

  /** A decimal number with an exponent. */
  lemma ScanOfExponent()
    ensures Strtod(" -1.5e+2x", 0) == Number(true, 15, 1, 2, 8)
  {
    var s := " -1.5e+2x";
    MantissaOfOne(s, 2);
    ExponentOfOne(s, 5, {'e', 'E'});
    BeginsDecimal(s, 2);
    hide Mantissa, Exponent, Spells, HexMantissa;
    assert SkipSpace(s, 1) == 1;
  }

  /** A hexadecimal number: 0x1a.8p-1 is (26 + 8 / 16) / 2. */
  lemma ScanOfHex()
    ensures Strtod("0x1a.8p-1", 0) == Hex(false, 424, 1, -1, 9)
    ensures Hex(false, 424, 1, -1, 9).Voltage() == Finite(13.25)
  {
    hide Strtod, Mantissa, Exponent, HexMantissa, IsHexDigit, HexDigitOf, Scan.Voltage;
    var s := "0x1a.8p-1";
    KnownHexDigits();
    HexMantissaOfThree(s, 2);
    ExponentOfOne(s, 6, {'p', 'P'});
    StrtodOfHex(s, 424, 6, -1, 9);
    HalfOfHex();
  }

  lemma StrtodOfHex(s: string, digits: nat, f: nat, exponent: int, end: nat)
    requires |s| > 1 && s[0] == '0' && s[1] == 'x' && 2 < f <= |s|
    requires HexMantissa(s, 2) == (digits, 1, f) && Exponent(s, f, {'p', 'P'}) == (exponent, end)
    ensures Strtod(s, 0) == Hex(false, digits, 1, exponent, end)
  {
    BeginsHex(s);
    hide Mantissa, Exponent, HexMantissa, Spells;
    assert SkipSpace(s, 0) == 0 && SkipSign(s, 0) == 0;
  }

  lemma KnownHexDigits()
    ensures IsHexDigit('1') && HexDigitOf('1') == 1 && IsHexDigit('8') && HexDigitOf('8') == 8
    ensures IsHexDigit('a') && HexDigitOf('a') == 10 && IsHexDigit('F') && HexDigitOf('F') == 15
    ensures !IsHexDigit('p') && !IsHexDigit('g') && !IsHexDigit('.')
  {
    assert Lower('a') == 'a' && Lower('F') == 'f' && Lower('p') == 'p' && Lower('g') == 'g' && Lower('.') == '.';
  }

  lemma HalfOfHex()
    ensures Hex(false, 424, 1, -1, 9).Voltage() == Finite(13.25)
  {
    assert Power(16, 1) == 16 * Power(16, 0) && Power(2, 1) == 2 * Power(2, 0);
  }

  lemma BeginsHex(s: string)
    requires |s| > 1 && s[0] == '0' && s[1] == 'x'
    ensures Spells(s, 0, "0x") && !Spells(s, 0, "infinity") && !Spells(s, 0, "inf") && !Spells(s, 0, "nan")
  {
    assert "infinity"[0] == 'i' && "inf"[0] == 'i' && "nan"[0] == 'n';
    assert s[0 + 0] == '0';
  }

  /** Names, in either case, and a text that is no number. */
  lemma ScanOfNames()
    ensures Strtod("-INF", 0) == Infinity(true, 4)
    ensures Strtod("NaN", 0) == NaN(3)
    ensures Strtod(",", 0).end == 0
  {
    var s, t := "-INF", "NaN";
    assert Lower('I') == 'i' && Lower('N') == 'n' && Lower('F') == 'f' && Lower('a') == 'a' && Lower(',') == ',';
    assert Spells(s, 1, "inf") && !Spells(s, 1, "infinity");
    assert "infinity"[0] == 'i' && "inf"[0] == 'i' && "nan"[0] == 'n' && "0x"[0] == '0';
    assert t[0 + 0] == 'N' && ","[0 + 0] == ',';
    assert Spells(t, 0, "nan") && !Spells(t, 0, "inf") && !Spells(t, 0, "infinity");
    hide Mantissa, HexMantissa;
    assert Mantissa(",", 0).2 == 0 by { NoDigits(); }
  }

  lemma NoDigits()
    ensures Mantissa(",", 0) == (0, 0, 0)
  {
    assert ","[0..0] == "";
  }
}

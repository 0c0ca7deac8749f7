/**
 * Spreadsheet cells as pandas holds them after `read_excel`, the numeric
 * coercion `pd.to_numeric(..., errors='coerce')`, and the clean-up the
 * analysis applies to both blocks (`replace([inf, -inf], nan)` followed by
 * `fillna(0)`).
 */
module Cells {
  import opened Basics
  import Seqs

  /** A cell: a number, a piece of text, an empty cell (NaN) or an infinity. */
  datatype Cell = Num(v: real) | Text(s: string) | Missing | Inf(negative: bool)

  /** A number as pandas compares it: finite or one of the two infinities. */
  datatype Number = Finite(r: real) | PosInf | NegInf

  /** Strict `>` on numbers with infinities. */
  predicate Greater(a: Number, b: Number) {
    match (a, b)
    case (PosInf, PosInf) => false
    case (PosInf, _) => true
    case (_, NegInf) => !a.NegInf?
    case (Finite(x), Finite(y)) => x > y
    case _ => false
  }

  lemma GreaterIsStrictOrder(a: Number, b: Number, c: Number)
    ensures !Greater(a, a)
    ensures Greater(a, b) ==> !Greater(b, a)
    ensures Greater(a, b) && Greater(b, c) ==> Greater(a, c)
  {
  }

  // ---- numeric text --------------------------------------------------------

  predicate IsDigit(c: char) { '0' <= c <= '9' }

  predicate AllDigits(s: string) {
    forall i :: 0 <= i < |s| ==> IsDigit(s[i])
  }

  /** The characters that can occur in text `pd.to_numeric` accepts here. */
  predicate IsNumeralChar(c: char) {
    IsDigit(c) || c == '.' || c == '+' || c == '-'
  }

  function DigitsValue(s: string): nat
    requires AllDigits(s)
  {
    if s == [] then 0
    else DigitsValue(s[..|s| - 1]) * 10 + (s[|s| - 1] as int - '0' as int)
  }

  function Pow10(n: nat): (p: nat)
    ensures p > 0
  {
    if n == 0 then 1 else 10 * Pow10(n - 1)
  }

  /** The value of `whole.frac`. */
  function PointValue(whole: string, frac: string): real
    requires AllDigits(whole) && AllDigits(frac)
  {
    DigitsValue(whole) as real + DigitsValue(frac) as real / Pow10(|frac|) as real
  }

  /** Unsigned decimal: digits, or digits '.' digits with at least one digit. */
  function ParseUnsigned(s: string): Option<real> {
    if s != [] && AllDigits(s) then Some(DigitsValue(s) as real)
    else if '.' in s then
      var p := Seqs.IndexOf(s, '.');
      var whole, frac := s[..p], s[p + 1..];
      if AllDigits(whole) && AllDigits(frac) && |whole| + |frac| > 0 then
        Some(PointValue(whole, frac))
      else None
    else None
  }

  /** Decimal text with an optional sign, as the coercion reads it; None is NaN. */
  function ParseDecimal(s: string): Option<real> {
    if |s| > 0 && (s[0] == '+' || s[0] == '-') then
      match ParseUnsigned(s[1..])
      case None => None
      case Some(v) => Some(if s[0] == '-' then -v else v)
    else ParseUnsigned(s)
  }

  /** Text holding anything but digits, a point and a sign never coerces. */
  lemma ParseRejectsForeign(s: string, i: nat)
    requires i < |s| && !IsNumeralChar(s[i])
    ensures ParseDecimal(s) == None
  {
    if |s| > 0 && (s[0] == '+' || s[0] == '-') {
      assert s[1..][i - 1] == s[i];
    }
  }

  /** Decimal rendering of a natural number, most significant digit first. */
  function ShowNat(n: nat): (s: string)
    ensures s != [] && AllDigits(s)
  {
    if n < 10 then [('0' as int + n) as char]
    else ShowNat(n / 10) + [('0' as int + n % 10) as char]
  }

  lemma {:induction false} DigitsOfShowNat(n: nat)
    ensures DigitsValue(ShowNat(n)) == n
  {
    if n >= 10 {
      var s := ShowNat(n);
      assert s[..|s| - 1] == ShowNat(n / 10);
      DigitsOfShowNat(n / 10);
    }
  }

  /** Numeric text coerces back to the number it spells: "15", "+15" and "-15". */
  lemma ParseShowNat(n: nat)
    ensures ParseDecimal(ShowNat(n)) == Some(n as real)
    ensures ParseDecimal("+" + ShowNat(n)) == Some(n as real)
    ensures ParseDecimal("-" + ShowNat(n)) == Some(-(n as real))
  {
    DigitsOfShowNat(n);
    assert ("+" + ShowNat(n))[1..] == ShowNat(n);
    assert ("-" + ShowNat(n))[1..] == ShowNat(n);
  }

  /** Digits, a point and digits read as the whole part plus the fraction. */
  lemma ParsePointed(whole: string, frac: string)
    requires AllDigits(whole) && AllDigits(frac) && frac != []
    ensures ParseUnsigned(whole + "." + frac) == Some(PointValue(whole, frac))
  {
    var s := whole + "." + frac;
    assert s[|whole|] == '.';
    assert !AllDigits(s);
    assert s[..|whole|] == whole;
    Seqs.IndexOfUnique(s, '.', |whole|);
    assert s[|whole| + 1..] == frac;
  }

  /**
   * Text of digits, a point and at least one digit, with or without a sign,
   * coerces to the value it spells: "10.5", "+10.5", "-10.5" and ".5".
   */
  lemma ParseFraction(whole: string, frac: string)
    requires AllDigits(whole) && AllDigits(frac) && frac != []
    ensures ParseDecimal(whole + "." + frac) == Some(PointValue(whole, frac))
    ensures ParseDecimal("+" + whole + "." + frac) == Some(PointValue(whole, frac))
    ensures ParseDecimal("-" + whole + "." + frac) == Some(-PointValue(whole, frac))
  {
    var u := whole + "." + frac;
    ParsePointed(whole, frac);
    assert u[0] != '+' && u[0] != '-' by {
      if whole == [] { assert u[0] == '.'; } else { assert u[0] == whole[0] && IsDigit(whole[0]); }
    }
    assert ("+" + u)[1..] == u && "+" + whole + "." + frac == "+" + u;
    assert ("-" + u)[1..] == u && "-" + whole + "." + frac == "-" + u;
  }

  /** "10.5" coerces to 10.5. */
  lemma ParseTenAndAHalf()
    ensures ParseDecimal("10.5") == Some(10.5)
  {
    assert DigitsValue("10") == 10 && DigitsValue("5") == 5 && Pow10(1) == 10;
    assert PointValue("10", "5") == 10.5;
    ParsePointed("10", "5");
    assert "10" + "." + "5" == "10.5";
  }

  // ---- coercion and clean-up -----------------------------------------------

  /** `pd.to_numeric(cell, errors='coerce')`; None stands for NaN. */
  function ToNumeric(c: Cell): Option<Number> {
    match c
    case Num(v) => Some(Finite(v))
    case Inf(negative) => Some(if negative then NegInf else PosInf)
    case Missing => None
    case Text(s) =>
      match ParseDecimal(s)
      case None => None
      case Some(v) => Some(Finite(v))
  }

  /** Neither missing nor infinite: what every cell is once a block is cleaned. */
  predicate Clean(c: Cell) {
    c.Num? || c.Text?
  }

  /** `replace([inf, -inf], nan)` then `fillna(0)` on one cell. */
  function Normalize(c: Cell): (r: Cell)
    ensures Clean(r)
    ensures Clean(c) ==> r == c
    ensures ToNumeric(r).Some? || r.Text?
  {
    if Clean(c) then c else Num(0.0)
  }

  predicate CleanRow(row: seq<Cell>) {
    forall i :: 0 <= i < |row| ==> Clean(row[i])
  }

  function NormalizeRow(row: seq<Cell>): (r: seq<Cell>)
    ensures |r| == |row| && CleanRow(r)
    ensures forall i :: 0 <= i < |row| ==> r[i] == Normalize(row[i])
  {
    seq(|row|, i requires 0 <= i < |row| => Normalize(row[i]))
  }

  function NormalizeRows(rows: seq<seq<Cell>>): (r: seq<seq<Cell>>)
    ensures |r| == |rows|
    ensures forall i :: 0 <= i < |rows| ==> r[i] == NormalizeRow(rows[i])
  {
    seq(|rows|, i requires 0 <= i < |rows| => NormalizeRow(rows[i]))
  }

  /** Cleaning is idempotent, and a blank or infinite cell reads as zero. */
  lemma NormalizeProperties(c: Cell)
    ensures Normalize(Normalize(c)) == Normalize(c)
    ensures c.Missing? || c.Inf? ==> ToNumeric(Normalize(c)) == Some(Finite(0.0))
  {
  }
}

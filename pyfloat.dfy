/**
 * Python's `float(text)` for the decimal spellings an HTTP `Retry-After` header carries:
 * surrounding whitespace, an optional sign, digits with at most one decimal point.
 */
module PyFloat {
  import opened Wrappers
  import opened PyText

  function Pow10(k: nat): (r: nat)
    ensures r >= 1
  {
    if k == 0 then 1 else 10 * Pow10(k - 1)
  }

  /** `s.find(c)`, as an option. */
  function IndexOf(s: string, c: char): (r: Option<nat>)
    ensures r.Some? ==> r.value < |s| && s[r.value] == c && forall j :: 0 <= j < r.value ==> s[j] != c
    ensures r.None? <==> forall j :: 0 <= j < |s| ==> s[j] != c
    decreases |s|
  {
    if s == [] then None
    else if s[0] == c then Some(0)
    else match IndexOf(s[1..], c)
      case Some(k) => Some(k + 1)
      case None => None
  }

  /** The value of the digits after a decimal point: the first is tenths, the next hundredths, and so on. */
  function FractionValue(f: string): (r: real)
    requires AllDigits(f)
    ensures 0.0 <= r < 1.0
    decreases |f|
  {
    if f == [] then 0.0 else (DigitValue(f[0]) as real + FractionValue(f[1..])) / 10.0
  }

  /** The value of `digits[.digits]` with at least one digit in all, or `None`. */
  function UnsignedValue(t: string): (r: Option<real>)
    ensures r.Some? ==> r.value >= 0.0
  {
    match IndexOf(t, '.')
    case None => if t != [] && AllDigits(t) then Some(DecimalValue(t) as real) else None
    case Some(k) =>
      var whole := t[..k];
      var frac := t[k + 1..];
      if |whole| + |frac| >= 1 && AllDigits(whole) && AllDigits(frac) then
        Some(DecimalValue(whole) as real + FractionValue(frac))
      else None
  }

  /** `float(s)`, or `None` where Python raises `ValueError`. */
  function ParseFloat(s: string): Option<real> {
    var t := Strip(s);
    if t != [] && (t[0] == '+' || t[0] == '-') then
      match UnsignedValue(t[1..])
      case Some(v) => Some(if t[0] == '-' then -v else v)
      case None => None
    else UnsignedValue(t)
  }

  lemma DigitsNoEdgeSpace(s: string)
    requires AllDigits(s)
    ensures NoEdgeSpace(s)
  {
  }

  /** The text of a natural number reads back as that number. */
  lemma ParseFloatDecimal(n: nat)
    ensures ParseFloat(Decimal(n)) == Some(n as real)
  {
    var d := Decimal(n);
    DigitsNoEdgeSpace(d);
    StripNoop(d);
    DecimalRoundTrip(n);
    assert !IsDigit('.');
  }

  lemma {:induction false} IndexOfAfter(d: string, c: char, rest: string)
    requires forall j :: 0 <= j < |d| ==> d[j] != c
    ensures IndexOf(d + [c] + rest, c) == Some(|d|)
    decreases |d|
  {
    if d != [] {
      assert (d + [c] + rest)[1..] == d[1..] + [c] + rest;
      IndexOfAfter(d[1..], c, rest);
    }
  }

  /** A point between digit runs: no edge space, and the first point sits after `d`. */
  lemma PointText(d: string, f: string)
    requires d != [] && AllDigits(d) && AllDigits(f)
    ensures NoEdgeSpace(d + "." + f)
    ensures IndexOf(d + "." + f, '.') == Some(|d|)
    ensures (d + "." + f)[..|d|] == d
    ensures (d + "." + f)[|d| + 1..] == f
  {
    var t := d + "." + f;
    assert t[0] == d[0];
    if f == [] {
      assert t[|t| - 1] == '.';
    } else {
      assert t[|t| - 1] == f[|f| - 1];
    }
    assert d + "." + f == d + ['.'] + f;
    IndexOfAfter(d, '.', f);
  }

  lemma UnsignedValueSplit(t: string, k: nat)
    requires IndexOf(t, '.') == Some(k) && k >= 1 && AllDigits(t[..k]) && AllDigits(t[k + 1..])
    ensures UnsignedValue(t) == Some(DecimalValue(t[..k]) as real + FractionValue(t[k + 1..]))
  {
  }

  /** `d.f` reads back as the whole digits `d` plus the fraction the digits `f` spell. */
  lemma PointFloat(d: string, f: string, whole: nat)
    requires d != [] && AllDigits(d) && AllDigits(f) && DecimalValue(d) == whole
    ensures ParseFloat(d + "." + f) == Some(whole as real + FractionValue(f))
  {
    var t := d + "." + f;
    PointText(d, f);
    StripNoop(t);
    assert t[0] == d[0] && IsDigit(d[0]);
    UnsignedValueSplit(t, |d|);
  }

  /** `n.f` reads back as `n` plus the fraction the digits `f` spell. */
  lemma ParseFloatFraction(n: nat, f: string)
    requires AllDigits(f)
    ensures ParseFloat(Decimal(n) + "." + f) == Some(n as real + FractionValue(f))
  {
    DecimalRoundTrip(n);
    PointFloat(Decimal(n), f, n);
  }

  /** Whitespace around the number does not change it. */
  lemma ParseFloatPadding(p: string, s: string, q: string)
    requires AllSpace(p) && AllSpace(q)
    ensures ParseFloat(p + s + q) == ParseFloat(s)
  {
    StripPadding(p, s, q);
  }

  /** A leading minus sign negates. */
  lemma ParseFloatNegative(s: string)
    requires NoEdgeSpace(s) && s != [] && s[0] != '+' && s[0] != '-'
    ensures ParseFloat("-" + s) == match ParseFloat(s) case Some(v) => Some(-v) case None => None
  {
    var t := "-" + s;
    assert t[|t| - 1] == s[|s| - 1];
    StripNoop(t);
    StripNoop(s);
    assert t[1..] == s;
  }
}

/**
 * The desktop app's integer text: the lenient parsers for session-log totals
 * (`_parse_int_safe`) and typed prices (`_parse_price_input`), the strict parser for
 * character stats (`CharacterWindow._parse_int`), the thousands-grouped formatters
 * (`_format_gp`, `_format_number` and `_format_price` on whole numbers) and the
 * duration parser and formatter.
 */
module AppFormat {
  import opened Wrappers
  import opened PyText
  import opened PyFloat

  // ---- Decimal text ----

  /** `{:02d}` on a non-negative number: at least two digits, zero-padded. */
  function Pad2(n: nat): string {
    if n < 10 then "0" + Decimal(n) else Decimal(n)
  }

  /** One three-digit group of a grouped number. */
  function Pad3(k: nat): string
    requires k < 1000
  {
    if k < 10 then "00" + Decimal(k) else if k < 100 then "0" + Decimal(k) else Decimal(k)
  }

  /** `f"{n:,}"` for `n >= 0`, with `sep` standing for the comma. */
  function Thousands(n: nat, sep: char): string
    decreases n
  {
    if n < 1000 then Decimal(n) else Thousands(n / 1000, sep) + [sep] + Pad3(n % 1000)
  }

  function Abs(v: int): nat {
    if v < 0 then -v else v
  }

  /** `t` with a minus sign in front when `neg` holds. */
  function Signed(neg: bool, t: string): string {
    if neg then "-" + t else t
  }

  /** The grouped text of `v` with `sep` between groups. */
  function Grouped(v: int, sep: char): string {
    Signed(v < 0, Thousands(Abs(v), sep))
  }

  /** `f"{v:,}"`. */
  function PyThousands(v: int): string {
    Grouped(v, ',')
  }

  /** Digits appended to digits shift them left. */
  lemma {:induction false} DecimalAppend(a: string, b: string)
    requires AllDigits(a) && AllDigits(b)
    ensures AllDigits(a + b)
    ensures DecimalValue(a + b) == DecimalValue(a) * Pow10(|b|) + DecimalValue(b)
    decreases |b|
  {
    if b == [] {
      assert a + b == a;
    } else {
      var c := a + b;
      var b' := b[..|b| - 1];
      assert c[..|c| - 1] == a + b';
      assert c[|c| - 1] == b[|b| - 1];
      DecimalAppend(a, b');
      var d := DigitValue(b[|b| - 1]);
      assert DecimalValue(c) == DecimalValue(a + b') * 10 + d;
      assert DecimalValue(b) == DecimalValue(b') * 10 + d;
      assert Pow10(|b|) == Pow10(|b'|) * 10;
      ShiftLeft(DecimalValue(a), Pow10(|b'|), DecimalValue(b'), d);
    }
  }

  /** The arithmetic of appending one digit. */
  lemma ShiftLeft(x: int, p: int, y: int, d: int)
    ensures (x * p + y) * 10 + d == x * (p * 10) + (y * 10 + d)
  {
  }

  /** A decimal number below 1000 has one, two or three digits, as its size says. */
  lemma DecimalLength(k: nat)
    requires k < 1000
    ensures k < 10 ==> |Decimal(k)| == 1
    ensures 10 <= k < 100 ==> |Decimal(k)| == 2
    ensures 100 <= k ==> |Decimal(k)| == 3
  {
    if k >= 10 {
      assert Decimal(k) == Decimal(k / 10) + [DigitChar(k % 10)];
      if k >= 100 {
        assert Decimal(k / 10) == Decimal(k / 100) + [DigitChar(k / 10 % 10)];
      }
    }
  }

  lemma Pad3Value(k: nat)
    requires k < 1000
    ensures |Pad3(k)| == 3 && AllDigits(Pad3(k)) && DecimalValue(Pad3(k)) == k
  {
    DecimalLength(k);
    DecimalRoundTrip(k);
    var d := Decimal(k);
    if k < 10 {
      assert DecimalValue("00") == 0;
      DecimalAppend("00", d);
    } else if k < 100 {
      assert DecimalValue("0") == 0;
      DecimalAppend("0", d);
    }
  }

  /** A grouped number starts and ends with a digit. */
  lemma {:induction false} ThousandsEdges(n: nat, sep: char)
    ensures Thousands(n, sep) != [] && IsDigit(Thousands(n, sep)[0])
    ensures IsDigit(Thousands(n, sep)[|Thousands(n, sep)| - 1])
    decreases n
  {
    if n >= 1000 {
      var h := Thousands(n / 1000, sep);
      var g := Pad3(n % 1000);
      ThousandsEdges(n / 1000, sep);
      Pad3Value(n % 1000);
      assert Thousands(n, sep) == h + [sep] + g;
      assert Thousands(n, sep)[0] == h[0];
    }
  }

  /** Once the separators are gone, a grouped number is the digits of that number. */
  lemma {:induction false} ThousandsDigits(n: nat, sep: char)
    requires !IsDigit(sep)
    ensures IsDigitText(RemoveChar(Thousands(n, sep), sep))
    ensures DecimalValue(RemoveChar(Thousands(n, sep), sep)) == n
    decreases n
  {
    if n < 1000 {
      DecimalRoundTrip(n);
    } else {
      var h := Thousands(n / 1000, sep);
      var g := Pad3(n % 1000);
      ThousandsDigits(n / 1000, sep);
      Pad3Value(n % 1000);
      var d := RemoveChar(h, sep);
      RemoveSeparator(h, g, sep);
      DecimalAppend(d, g);
      assert Pow10(3) == 1000;
    }
  }

  lemma RemoveSeparator(h: string, g: string, sep: char)
    requires AllDigits(g) && !IsDigit(sep)
    ensures RemoveChar(h + [sep] + g, sep) == RemoveChar(h, sep) + g
  {
    RemoveCharAppend(h + [sep], g, sep);
    RemoveCharAppend(h, [sep], sep);
    assert RemoveChar([sep], sep) == [];
    assert RemoveChar(g, sep) == g;
  }

  /** Replacing one separator by another regroups the same digits. */
  lemma {:induction false} MapThousands(f: char -> char, n: nat, a: char, b: char)
    requires f(a) == b
    requires forall c :: IsDigit(c) ==> f(c) == c
    ensures Map(f, Thousands(n, a)) == Thousands(n, b)
    decreases n
  {
    if n < 1000 {
      MapDigitsUnchanged(f, Decimal(n));
    } else {
      Pad3Value(n % 1000);
      var g := Pad3(n % 1000);
      var high := Thousands(n / 1000, a);
      assert Thousands(n, a) == high + [a] + g;
      assert Thousands(n, b) == Thousands(n / 1000, b) + [b] + g;
      MapThousands(f, n / 1000, a, b);
      MapAppend(f, high + [a], g);
      MapAppend(f, high, [a]);
      assert Map(f, [a]) == [b];
      MapDigitsUnchanged(f, g);
    }
  }

  lemma MapDigitsUnchanged(f: char -> char, d: string)
    requires AllDigits(d)
    requires forall c :: IsDigit(c) ==> f(c) == c
    ensures Map(f, d) == d
  {
    assert forall i :: 0 <= i < |d| ==> Map(f, d)[i] == d[i];
  }

  /** `str.isdigit()` on ASCII text: non-empty and digits only. */
  predicate IsDigitText(s: string) {
    s != [] && AllDigits(s)
  }

  /** `int()` of a non-empty run of digits. */
  lemma PyIntDigits(d: string)
    requires IsDigitText(d)
    ensures PyInt(d) == Some(DecimalValue(d))
  {
    DigitsBody(d);
    PyIntBody(d, DecimalValue(d));
  }

  /** `int()` of a minus sign and a non-empty run of digits. */
  lemma PyIntMinusDigits(d: string)
    requires IsDigitText(d)
    ensures PyInt("-" + d) == Some(-(DecimalValue(d) as int))
  {
    var s := "-" + d;
    assert Strip(s) == s by {
      assert s[|s| - 1] == d[|d| - 1];
      StripNoop(s);
    }
    assert IntBody(d) && BodyValue(d) == DecimalValue(d) by {
      DigitsBody(d);
    }
    assert s[0] == '-' && s[1..] == d;
  }

  /** Removing a character other than '-' keeps the sign. */
  lemma SignedRemove(neg: bool, t: string, c: char)
    requires c != '-'
    ensures RemoveChar(Signed(neg, t), c) == Signed(neg, RemoveChar(t, c))
  {
    if neg {
      RemoveCharAppend("-", t, c);
      assert RemoveChar("-", c) == "-";
    }
  }

  /**
   * The reading shared by `_parse_int_safe` and `_parse_price_input` once the text is
   * cleaned: 0 for a bare sign, the integer `int` accepts, or 0 where it raises.
   */
  function LenientInt(cleaned: string): int {
    if cleaned in {"", "-", "+"} then 0 else PyInt(cleaned).GetOr(0)
  }

  /** Signed digits come through stripping and the lenient reading as their value. */
  lemma LenientSigned(neg: bool, d: string)
    requires IsDigitText(d)
    ensures Strip(Signed(neg, d)) == Signed(neg, d)
    ensures LenientInt(Signed(neg, d)) == if neg then -(DecimalValue(d) as int) else DecimalValue(d)
  {
    if neg {
      var m := "-" + d;
      assert PyInt(m) == Some(-(DecimalValue(d) as int)) by {
        PyIntMinusDigits(d);
      }
      assert Strip(m) == m by {
        assert m[|m| - 1] == d[|d| - 1];
        StripNoop(m);
      }
      assert |m| >= 2;
    } else {
      assert PyInt(d) == Some(DecimalValue(d)) by {
        PyIntDigits(d);
      }
      assert Strip(d) == d by {
        DigitsNoEdgeSpace(d);
        StripNoop(d);
      }
      assert IsDigit(d[0]);
    }
  }

  // ---- _parse_int_safe ----

  /** `_normalize_number`: thousands commas, then surrounding whitespace, removed. */
  function NormalizeNumber(value: string): string {
    Strip(RemoveChar(value, ','))
  }

  /** `_parse_int_safe`: the integer, or 0 for a bare sign and for anything `int` rejects. */
  function ParseIntSafe(value: string): int {
    LenientInt(NormalizeNumber(value))
  }

  /** The bare-sign test only names cases that `int` rejects anyway. */
  lemma BareSignUnparseable()
    ensures PyInt("") == None && PyInt("-") == None && PyInt("+") == None
  {
    StripNoop("-");
    StripNoop("+");
  }

  /** What `int` accepts after normalizing is the answer; everything else is 0. */
  lemma ParseIntSafeMeaning(value: string)
    ensures PyInt(NormalizeNumber(value)).Some? ==> ParseIntSafe(value) == PyInt(NormalizeNumber(value)).value
    ensures PyInt(NormalizeNumber(value)).None? ==> ParseIntSafe(value) == 0
  {
    BareSignUnparseable();
  }

  /** A comma-grouped number, as Python's `{:,}` writes it, reads back as itself. */
  lemma ParseIntSafeGrouped(v: int)
    ensures ParseIntSafe(PyThousands(v)) == v
  {
    var t := Thousands(Abs(v), ',');
    ThousandsDigits(Abs(v), ',');
    SignedRemove(v < 0, t, ',');
    LenientSigned(v < 0, RemoveChar(t, ','));
  }

  /** `str(v)` reads back as `v`. */
  lemma ParseIntSafeStr(v: int)
    ensures ParseIntSafe(Str(v)) == v
  {
    var d := Decimal(Abs(v));
    assert Str(v) == Signed(v < 0, d);
    assert RemoveChar(d, ',') == d;
    SignedRemove(v < 0, d, ',');
    DecimalRoundTrip(Abs(v));
    LenientSigned(v < 0, d);
  }

  // ---- _format_number, _format_gp, _format_price, _parse_price_input ----

  function CommaToX(c: char): char {
    if c == ',' then 'X' else c
  }

  function DotToComma(c: char): char {
    if c == '.' then ',' else c
  }

  function XToDot(c: char): char {
    if c == 'X' then '.' else c
  }

  /**
   * `_format_number(value)` with no decimals on a whole number: Python's comma grouping
   * with commas and points swapped through a placeholder.
   */
  function FormatNumber(v: int): string {
    Map(XToDot, Map(DotToComma, Map(CommaToX, PyThousands(v))))
  }

  /** `_format_gp`: point-grouped, with a " gp" suffix. */
  function FormatGp(v: int): string {
    Map(CommaToDot, PyThousands(v)) + " gp"
  }

  /** `_format_price`: blank for prices that are not positive. */
  function FormatPrice(v: int): string {
    if v <= 0 then "" else FormatNumber(v)
  }

  /** `_parse_price_input`: points and commas are both taken as grouping marks. */
  function ParsePriceInput(value: string): int {
    if value == [] then 0 else LenientInt(Strip(RemoveChar(RemoveChar(value, '.'), ',')))
  }

  lemma MapGrouped(f: char -> char, v: int, a: char, b: char)
    requires f(a) == b && f('-') == '-'
    requires forall c :: IsDigit(c) ==> f(c) == c
    ensures Map(f, Grouped(v, a)) == Grouped(v, b)
  {
    MapThousands(f, Abs(v), a, b);
    if v < 0 {
      MapAppend(f, "-", Thousands(Abs(v), a));
    }
  }

  /** Both whole-number formatters write the number point-grouped; `_format_gp` adds " gp". */
  lemma FormatNumberGrouped(v: int)
    ensures FormatNumber(v) == Grouped(v, '.')
    ensures FormatGp(v) == Grouped(v, '.') + " gp"
  {
    MapGrouped(CommaToX, v, ',', 'X');
    MapGrouped(DotToComma, v, 'X', 'X');
    MapGrouped(XToDot, v, 'X', '.');
    MapGrouped(CommaToDot, v, ',', '.');
  }

  /** The price parser reads every `_format_number` text back. */
  lemma ParsePriceInputFormatNumber(v: int)
    ensures ParsePriceInput(FormatNumber(v)) == v
  {
    FormatNumberGrouped(v);
    var t := Thousands(Abs(v), '.');
    ThousandsDigits(Abs(v), '.');
    ThousandsEdges(Abs(v), '.');
    var d := RemoveChar(t, '.');
    assert RemoveChar(d, ',') == d;
    SignedRemove(v < 0, t, '.');
    SignedRemove(v < 0, d, ',');
    LenientSigned(v < 0, d);
    assert Grouped(v, '.') != [];
  }

  /** A price shown in the items list reads back as the price, clamped at 0. */
  lemma ParsePriceInputFormatPrice(v: int)
    ensures ParsePriceInput(FormatPrice(v)) == if v <= 0 then 0 else v
  {
    if v > 0 {
      ParsePriceInputFormatNumber(v);
    }
  }

  /** A point is a grouping mark for prices. */
  lemma PricePointIsGrouping()
    ensures ParsePriceInput("1.5") == 15
  {
    assert RemoveChar("1.5", '.') == "15";
    assert RemoveChar("15", ',') == "15";
    assert DecimalValue("15") == 15 by {
      assert "15"[..1] == "1";
    }
    LenientSigned(false, "15");
  }

  /** A point breaks `int` in the lenient parser. */
  lemma SafePointUnparseable()
    ensures ParseIntSafe("1.5") == 0
  {
    assert RemoveChar("1.5", ',') == "1.5";
    StripNoop("1.5");
    assert !IntBody("1.5");
  }

  // ---- CharacterWindow._parse_int ----

  /** `_parse_int`: unsigned digits within `[minimum, maximum]`, or `None`. */
  function ParseBoundedInt(value: string, minimum: int, maximum: Option<int>): (r: Option<nat>)
    ensures r.Some? ==> minimum <= r.value && (maximum.Some? ==> r.value <= maximum.value)
    ensures r.Some? <==> IsDigitText(Strip(value)) && minimum <= DecimalValue(Strip(value))
                         && (maximum.Some? ==> DecimalValue(Strip(value)) <= maximum.value)
    ensures r.Some? ==> r.value == DecimalValue(Strip(value))
  {
    var v := Strip(value);
    if !IsDigitText(v) then None
    else
      var parsed := DecimalValue(v);
      if parsed < minimum then None
      else if maximum.Some? && parsed > maximum.value then None
      else Some(parsed)
  }

  /** The digits of `n` parse back as `n` exactly when `n` is within the bounds. */
  lemma ParseBoundedIntDecimal(n: nat, minimum: int, maximum: Option<int>)
    ensures ParseBoundedInt(Decimal(n), minimum, maximum)
            == if minimum <= n && (maximum.None? || n <= maximum.value) then Some(n) else None
  {
    DigitsNoEdgeSpace(Decimal(n));
    StripNoop(Decimal(n));
    DecimalRoundTrip(n);
  }

  /** Signs and grouping marks are refused, where the lenient parser takes them. */
  lemma ParseBoundedIntRefusesSigns(d: string, minimum: int, maximum: Option<int>)
    requires IsDigitText(d)
    ensures ParseBoundedInt("-" + d, minimum, maximum).None?
    ensures ParseBoundedInt("+" + d, minimum, maximum).None?
  {
    var m := "-" + d;
    var p := "+" + d;
    assert m[|m| - 1] == d[|d| - 1] && p[|p| - 1] == d[|d| - 1];
    StripNoop(m);
    StripNoop(p);
    assert !IsDigit(m[0]) && !IsDigit(p[0]);
  }

  /** The whitespace left trimming removes. */
  lemma LeftPart(s: string) returns (p: string)
    ensures s == p + TrimLeft(s) && AllSpace(p)
  {
    TrimLeftIsSuffix(s);
    p := s[..|s| - |TrimLeft(s)|];
  }

  /** The whitespace right trimming removes. */
  lemma RightPart(s: string) returns (q: string)
    ensures s == TrimRight(s) + q && AllSpace(q)
  {
    TrimRightIsPrefix(s);
    q := s[|TrimRight(s)|..];
  }

  /** The whitespace `strip()` removes. */
  lemma StripParts(value: string) returns (p: string, q: string)
    ensures value == p + Strip(value) + q && AllSpace(p) && AllSpace(q)
  {
    var l := TrimLeft(value);
    var r := TrimRight(l);
    assert Strip(value) == r;
    p := LeftPart(value);
    q := RightPart(l);
    AppendAssoc(p, r, q);
  }

  lemma AppendAssoc(a: string, b: string, c: string)
    ensures a + b + c == a + (b + c)
  {
  }

  /** Text whose stripped core has no comma has none at all. */
  lemma NoCommaPadded(p: string, v: string, q: string)
    requires AllSpace(p) && AllSpace(q) && forall i :: 0 <= i < |v| ==> v[i] != ','
    ensures RemoveChar(p + v + q, ',') == p + v + q
  {
    var s := p + v + q;
    forall i | 0 <= i < |s|
      ensures s[i] != ','
    {
      if i < |p| {
        assert s[i] == p[i];
      } else if i < |p| + |v| {
        assert s[i] == v[i - |p|];
      } else {
        assert s[i] == q[i - |p| - |v|];
      }
    }
  }

  /** Where the strict parser accepts a text, the lenient one reads the same number. */
  lemma ParseBoundedIntAgrees(value: string, minimum: int, maximum: Option<int>)
    requires ParseBoundedInt(value, minimum, maximum).Some?
    ensures ParseIntSafe(value) == ParseBoundedInt(value, minimum, maximum).value
  {
    var v := Strip(value);
    var p, q := StripParts(value);
    NoCommaPadded(p, v, q);
    StripIdempotent(value);
    LenientSigned(false, v);
  }

  // ---- Durations ----

  /**
   * `_parse_duration`: `re.match(r"^(\d{1,2}):(\d{2})h$")` on the stripped text, read as
   * hours and minutes (minutes are not range-checked), or 0.
   */
  function ParseDuration(value: string): nat {
    var t := Strip(value);
    if |t| == 5 && IsDigit(t[0]) && t[1] == ':' && IsDigit(t[2]) && IsDigit(t[3]) && t[4] == 'h' then
      DecimalValue(t[..1]) * 3600 + DecimalValue(t[2..4]) * 60
    else if |t| == 6 && IsDigit(t[0]) && IsDigit(t[1]) && t[2] == ':' && IsDigit(t[3]) && IsDigit(t[4])
            && t[5] == 'h' then
      DecimalValue(t[..2]) * 3600 + DecimalValue(t[3..5]) * 60
    else 0
  }

  /** `{:02d}` of a number below 100 is two digits that read back as the number. */
  lemma Pad2Value(n: nat)
    requires n < 100
    ensures |Pad2(n)| == 2 && AllDigits(Pad2(n)) && DecimalValue(Pad2(n)) == n
  {
    DecimalLength(n);
    DecimalRoundTrip(n);
    if n < 10 {
      assert DecimalValue("0") == 0;
      DecimalAppend("0", Decimal(n));
    }
  }

  /** A two-digit hour field, a colon, two minute digits and 'h'. */
  lemma ParseLongClock(a: string, b: string)
    requires |a| == 2 && |b| == 2 && AllDigits(a) && AllDigits(b)
    ensures ParseDuration(a + ":" + b + "h") == DecimalValue(a) * 3600 + DecimalValue(b) * 60
  {
    var t := a + ":" + b + "h";
    assert t[0] == a[0] && t[1] == a[1] && t[3] == b[0] && t[4] == b[1];
    assert t[..2] == a && t[3..5] == b;
    assert NoEdgeSpace(t);
    StripNoop(t);
  }

  /** A one-digit hour field, a colon, two minute digits and 'h'. */
  lemma ParseShortClock(a: string, b: string)
    requires |a| == 1 && |b| == 2 && AllDigits(a) && AllDigits(b)
    ensures ParseDuration(a + ":" + b + "h") == DecimalValue(a) * 3600 + DecimalValue(b) * 60
  {
    var t := a + ":" + b + "h";
    assert t[0] == a[0] && t[2] == b[0] && t[3] == b[1];
    assert t[..1] == a && t[2..4] == b;
    assert NoEdgeSpace(t);
    StripNoop(t);
  }

  /** A clock text the app shows, `HH:MMh` or `H:MMh`, reads back as its seconds. */
  lemma ParseDurationClock(h: nat, m: nat)
    requires h < 100 && m < 100
    ensures ParseDuration(Pad2(h) + ":" + Pad2(m) + "h") == h * 3600 + m * 60
    ensures h < 10 ==> ParseDuration(Decimal(h) + ":" + Pad2(m) + "h") == h * 3600 + m * 60
  {
    Pad2Value(h);
    Pad2Value(m);
    ParseLongClock(Pad2(h), Pad2(m));
    if h < 10 {
      DecimalLength(h);
      DecimalRoundTrip(h);
      ParseShortClock(Decimal(h), Pad2(m));
    }
  }

  /** Anything that does not end in 'h' after stripping is no duration. */
  lemma ParseDurationNeedsSuffix(value: string)
    requires Strip(value) == [] || Strip(value)[|Strip(value)| - 1] != 'h'
    ensures ParseDuration(value) == 0
  {
  }

  /** Every parsed duration is whole minutes, below 100 hours and 100 minutes. */
  lemma ParseDurationBounds(value: string)
    ensures ParseDuration(value) % 60 == 0
    ensures ParseDuration(value) <= 99 * 3600 + 99 * 60
  {
    var t := Strip(value);
    if |t| == 5 && IsDigit(t[0]) && t[1] == ':' && IsDigit(t[2]) && IsDigit(t[3]) && t[4] == 'h' {
      DigitsBelow(t[..1]);
      DigitsBelow(t[2..4]);
    } else if |t| == 6 && IsDigit(t[0]) && IsDigit(t[1]) && t[2] == ':' && IsDigit(t[3]) && IsDigit(t[4])
            && t[5] == 'h' {
      DigitsBelow(t[..2]);
      DigitsBelow(t[3..5]);
    }
  }

  /** At most two digits are below 100. */
  lemma DigitsBelow(d: string)
    requires AllDigits(d) && |d| <= 2
    ensures DecimalValue(d) < Pow10(|d|) && DecimalValue(d) < 100
  {
    if |d| == 2 {
      assert d[..1][..0] == [];
    } else if |d| == 1 {
      assert d[..0] == [];
    }
  }

  /** `_format_duration`: an em dash for no time, otherwise `HH:MM:SS`. */
  function FormatDuration(seconds: int): string {
    if seconds <= 0 then "\U{2014}"
    else Pad2(seconds / 3600) + ":" + Pad2(seconds % 3600 / 60) + ":" + Pad2(seconds % 60)
  }

  /** Three parts without the separator, joined by it, split back into the three. */
  lemma SplitThree(a: string, b: string, c: string, sep: char)
    requires forall i :: 0 <= i < |a| ==> a[i] != sep
    requires forall i :: 0 <= i < |b| ==> b[i] != sep
    requires forall i :: 0 <= i < |c| ==> c[i] != sep
    ensures Split(a + [sep] + b + [sep] + c, sep) == [a, b, c]
  {
    SplitNoSep(c, sep);
    SplitAfter(b, sep, c);
    SplitAfter(a, sep, b + [sep] + c);
    assert a + [sep] + b + [sep] + c == a + [sep] + (b + [sep] + c);
  }

  /**
   * A positive duration is shown as three colon-separated fields: hours, then minutes and
   * seconds of two digits each and below 60, which add back up to the duration.
   */
  lemma FormatDurationFields(seconds: int)
    requires seconds > 0
    ensures var f := Split(FormatDuration(seconds), ':');
      && |f| == 3
      && (forall k :: 0 <= k < 3 ==> IsDigitText(f[k]))
      && |f[1]| == 2 && |f[2]| == 2
      && DecimalValue(f[1]) < 60 && DecimalValue(f[2]) < 60
      && DecimalValue(f[0]) * 3600 + DecimalValue(f[1]) * 60 + DecimalValue(f[2]) == seconds
  {
    var h: nat := seconds / 3600;
    var m: nat := seconds % 3600 / 60;
    var s: nat := seconds % 60;
    HoursValue(h);
    HoursValue(m);
    HoursValue(s);
    Pad2Value(m);
    Pad2Value(s);
    assert FormatDuration(seconds) == Pad2(h) + [':'] + Pad2(m) + [':'] + Pad2(s);
    SplitThree(Pad2(h), Pad2(m), Pad2(s), ':');
    ClockArithmetic(seconds);
  }

  /** Hours, minutes and seconds as `_format_duration` computes them add up again. */
  lemma ClockArithmetic(seconds: int)
    requires seconds > 0
    ensures seconds % 3600 / 60 < 60 && seconds % 60 < 60
    ensures (seconds / 3600) * 3600 + (seconds % 3600 / 60) * 60 + seconds % 60 == seconds
  {
    var r := seconds % 3600;
    assert seconds == (seconds / 3600) * 3600 + r;
    assert r == (r / 60) * 60 + r % 60;
    DivUnique(seconds, 60, (seconds / 3600) * 60 + r / 60, r % 60);
  }

  lemma HoursValue(h: nat)
    ensures IsDigitText(Pad2(h)) && DecimalValue(Pad2(h)) == h
    ensures forall i :: 0 <= i < |Pad2(h)| ==> Pad2(h)[i] != ':'
  {
    if h < 100 {
      Pad2Value(h);
    } else {
      DecimalRoundTrip(h);
    }
  }

  /** An `HH:MMh` entry of under 100 hours is shown back with zero seconds. */
  lemma DurationRoundTrip(h: nat, m: nat)
    requires h < 100 && m < 60 && (h > 0 || m > 0)
    ensures FormatDuration(ParseDuration(Pad2(h) + ":" + Pad2(m) + "h")) == Pad2(h) + ":" + Pad2(m) + ":00"
  {
    ParseDurationClock(h, m);
    FormatClock(ParseDuration(Pad2(h) + ":" + Pad2(m) + "h"), h, m);
  }

  /** A duration of whole hours and minutes is shown with zero seconds. */
  lemma FormatClock(secs: int, h: nat, m: nat)
    requires m < 60 && (h > 0 || m > 0) && secs == h * 3600 + m * 60
    ensures FormatDuration(secs) == Pad2(h) + ":" + Pad2(m) + ":00"
  {
    ClockOf(h, m);
    assert Pad2(secs % 60) == "00";
  }

  /** The fields `_format_duration` computes from whole hours and minutes. */
  lemma ClockOf(h: nat, m: nat)
    requires m < 60
    ensures (h * 3600 + m * 60) / 3600 == h
    ensures (h * 3600 + m * 60) % 3600 / 60 == m
    ensures (h * 3600 + m * 60) % 60 == 0
  {
    var secs := h * 3600 + m * 60;
    DivUnique(secs, 3600, h, m * 60);
    DivUnique(m * 60, 60, m, 0);
    DivUnique(secs, 60, h * 60 + m, 0);
  }

  /** Euclidean division is determined by quotient and remainder. */
  lemma DivUnique(x: int, d: int, q: int, r: int)
    requires d > 0 && 0 <= r < d && x == q * d + r
    ensures x / d == q && x % d == r
  {
    var q', r' := x / d, x % d;
    assert (q - q') * d == r' - r;
    if q - q' >= 1 {
      MulAtLeast(q - q', d);
    } else if q' - q >= 1 {
      MulAtLeast(q' - q, d);
    }
  }

  lemma MulAtLeast(k: int, d: int)
    requires k >= 1 && d > 0
    ensures k * d >= d
  {
  }
}

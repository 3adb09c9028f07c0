/**
 * The part of Python's `str`, `re` and `int` behaviour that the modelled code relies on:
 * whitespace stripping, `re.sub(r"\s+", " ", ...)`, ASCII lower-casing, character
 * maps and removal, substring tests, `str.split`, and conversions between integers and
 * their decimal text.
 */
module PyText {
  import opened Wrappers

  /** Python's `str.isspace()`; `re`'s `\s` on str patterns matches the same characters. */
  predicate IsSpace(c: char) {
    || c == ' '
    || '\t' <= c <= '\r'
    || '\U{1c}' <= c <= '\U{1f}'
    || c == '\U{85}' || c == '\U{a0}' || c == '\U{1680}'
    || '\U{2000}' <= c <= '\U{200a}'
    || c == '\U{2028}' || c == '\U{2029}' || c == '\U{202f}' || c == '\U{205f}' || c == '\U{3000}'
  }

  predicate AllSpace(s: string) {
    forall i :: 0 <= i < |s| ==> IsSpace(s[i])
  }

  /** Neither the first nor the last character is whitespace. */
  predicate NoEdgeSpace(s: string) {
    s == [] || (!IsSpace(s[0]) && !IsSpace(s[|s| - 1]))
  }

  function TrimLeft(s: string): (r: string)
    ensures |r| <= |s|
    ensures r == [] || !IsSpace(r[0])
    ensures AllSpace(s[..|s| - |r|])
    decreases |s|
  {
    if s != [] && IsSpace(s[0]) then TrimLeft(s[1..]) else s
  }

  function TrimRight(s: string): (r: string)
    ensures |r| <= |s|
    ensures r == [] || !IsSpace(r[|r| - 1])
    ensures AllSpace(s[|r|..])
    decreases |s|
  {
    if s != [] && IsSpace(s[|s| - 1]) then
      var r := TrimRight(s[..|s| - 1]);
      assert s[|r|..] == s[..|s| - 1][|r|..] + [s[|s| - 1]];
      r
    else s
  }

  /** Left trimming removes a prefix. */
  lemma {:induction false} TrimLeftIsSuffix(s: string)
    ensures TrimLeft(s) == s[|s| - |TrimLeft(s)|..]
    decreases |s|
  {
    if s != [] && IsSpace(s[0]) {
      TrimLeftIsSuffix(s[1..]);
    }
  }

  /** Right trimming removes a suffix. */
  lemma {:induction false} TrimRightIsPrefix(s: string)
    ensures TrimRight(s) == s[..|TrimRight(s)|]
    decreases |s|
  {
    if s != [] && IsSpace(s[|s| - 1]) {
      TrimRightIsPrefix(s[..|s| - 1]);
    }
  }

  /** Python's `str.strip()` with no argument. */
  function Strip(s: string): (r: string)
    ensures NoEdgeSpace(r)
    ensures |r| <= |s|
  {
    var l := TrimLeft(s);
    var r := TrimRight(l);
    TrimRightIsPrefix(l);
    assert r != [] ==> r[0] == l[0];
    r
  }

  lemma TrimLeftNoop(s: string)
    requires s == [] || !IsSpace(s[0])
    ensures TrimLeft(s) == s
  {
  }

  lemma TrimRightNoop(s: string)
    requires s == [] || !IsSpace(s[|s| - 1])
    ensures TrimRight(s) == s
  {
  }

  lemma StripNoop(s: string)
    requires NoEdgeSpace(s)
    ensures Strip(s) == s
  {
    TrimLeftNoop(s);
    TrimRightNoop(s);
  }

  lemma {:induction false} TrimLeftAllSpace(s: string)
    requires AllSpace(s)
    ensures TrimLeft(s) == []
    decreases |s|
  {
    if s != [] {
      TrimLeftAllSpace(s[1..]);
    }
  }

  lemma {:induction false} TrimLeftPrefix(p: string, s: string)
    requires AllSpace(p)
    ensures TrimLeft(p + s) == TrimLeft(s)
    decreases |p|
  {
    if p != [] {
      assert IsSpace((p + s)[0]);
      assert (p + s)[1..] == p[1..] + s;
      assert TrimLeft(p + s) == TrimLeft(p[1..] + s);
      TrimLeftPrefix(p[1..], s);
    } else {
      assert p + s == s;
    }
  }

  lemma {:induction false} TrimRightSuffix(s: string, q: string)
    requires AllSpace(q)
    ensures TrimRight(s + q) == TrimRight(s)
    decreases |q|
  {
    if q != [] {
      var q' := q[..|q| - 1];
      assert IsSpace((s + q)[|s + q| - 1]);
      assert (s + q)[..|s + q| - 1] == s + q';
      assert TrimRight(s + q) == TrimRight(s + q');
      TrimRightSuffix(s, q');
    } else {
      assert s + q == s;
    }
  }

  /** Left trimming stops inside `a` when `a` holds a non-space character. */
  lemma {:induction false} TrimLeftAppend(a: string, b: string)
    requires TrimLeft(a) != []
    ensures TrimLeft(a + b) == TrimLeft(a) + b
    decreases |a|
  {
    assert (a + b)[0] == a[0];
    if IsSpace(a[0]) {
      assert (a + b)[1..] == a[1..] + b;
      TrimLeftAppend(a[1..], b);
    }
  }

  /** Whitespace around a string does not change what `strip()` returns. */
  lemma StripPadding(p: string, s: string, q: string)
    requires AllSpace(p) && AllSpace(q)
    ensures Strip(p + s + q) == Strip(s)
  {
    assert p + s + q == p + (s + q);
    TrimLeftPrefix(p, s + q);
    var l := TrimLeft(s);
    if l == [] {
      var k := |s| - |l|;
      assert s == s[..k];
      assert AllSpace(s + q);
      TrimLeftAllSpace(s + q);
    } else {
      TrimLeftAppend(s, q);
      TrimRightSuffix(l, q);
    }
  }

  lemma StripIdempotent(s: string)
    ensures Strip(Strip(s)) == Strip(s)
  {
    StripNoop(Strip(s));
  }

  /** No whitespace other than single ' ' characters. */
  ghost predicate Collapsed(s: string) {
    && (forall i :: 0 <= i < |s| && IsSpace(s[i]) ==> s[i] == ' ')
    && (forall i, j :: 0 <= i < j < |s| && j == i + 1 ==> !(IsSpace(s[i]) && IsSpace(s[j])))
  }

  /** `re.sub(r"\s+", " ", s)`: every maximal run of whitespace becomes a single space. */
  function Collapse(s: string): (r: string)
    ensures |r| <= |s|
    decreases |s|
  {
    if s == [] then []
    else if IsSpace(s[0]) then [' '] + Collapse(TrimLeft(s[1..]))
    else [s[0]] + Collapse(s[1..])
  }

  /** Collapsing keeps emptiness, a non-space first character, and whether the last is a space. */
  lemma CollapseEdges(s: string)
    ensures Collapse(s) == [] <==> s == []
    ensures s != [] && !IsSpace(s[0]) ==> Collapse(s)[0] == s[0]
    ensures s != [] && IsSpace(s[0]) ==> Collapse(s)[0] == ' '
    ensures s != [] ==> (IsSpace(Collapse(s)[|Collapse(s)| - 1]) <==> IsSpace(s[|s| - 1]))
  {
    if s != [] {
      CollapseLast(s);
    }
  }

  /** The last character of a collapsed text is a space exactly when the original's is. */
  lemma {:induction false} CollapseLast(s: string)
    requires s != []
    ensures Collapse(s) != []
    ensures IsSpace(Collapse(s)[|Collapse(s)| - 1]) <==> IsSpace(s[|s| - 1])
    decreases |s|
  {
    var s' := s[1..];
    if IsSpace(s[0]) {
      var t := TrimLeft(s');
      assert Collapse(s) == [' '] + Collapse(t);
      if t == [] {
        if s' != [] {
          assert s'[..|s'|] == s';
          assert s[|s| - 1] == s'[|s'| - 1];
        }
      } else {
        TrimLeftIsSuffix(s');
        assert t[|t| - 1] == s[|s| - 1];
        CollapseLast(t);
      }
    } else {
      assert Collapse(s) == [s[0]] + Collapse(s');
      if s' != [] {
        assert s'[|s'| - 1] == s[|s| - 1];
        CollapseLast(s');
      }
    }
  }

  lemma ConsCollapsed(c: char, r: string)
    requires Collapsed(r)
    requires IsSpace(c) ==> c == ' ' && (r == [] || !IsSpace(r[0]))
    ensures Collapsed([c] + r)
  {
    var cr := [c] + r;
    forall i | 0 < i < |cr|
      ensures cr[i] == r[i - 1]
    {
    }
  }

  lemma {:induction false} CollapseCollapsed(s: string)
    ensures Collapsed(Collapse(s))
    decreases |s|
  {
    if s != [] {
      if IsSpace(s[0]) {
        var t := TrimLeft(s[1..]);
        CollapseCollapsed(t);
        CollapseEdges(t);
        ConsCollapsed(' ', Collapse(t));
      } else {
        CollapseCollapsed(s[1..]);
        ConsCollapsed(s[0], Collapse(s[1..]));
      }
    }
  }

  lemma {:induction false} CollapseNoop(s: string)
    requires Collapsed(s)
    ensures Collapse(s) == s
    decreases |s|
  {
    if s != [] {
      assert Collapsed(s[1..]);
      if IsSpace(s[0]) {
        TrimLeftNoop(s[1..]);
      }
      CollapseNoop(s[1..]);
    }
  }

  lemma CollapseIdempotent(s: string)
    ensures Collapse(Collapse(s)) == Collapse(s)
  {
    CollapseCollapsed(s);
    CollapseNoop(Collapse(s));
  }

  lemma {:induction false} CollapseTrimLeft(s: string)
    ensures Collapse(TrimLeft(s)) == TrimLeft(Collapse(s))
  {
    if s != [] && IsSpace(s[0]) {
      var t := TrimLeft(s[1..]);
      assert TrimLeft(s) == t;
      var c := Collapse(t);
      assert Collapse(s) == [' '] + c;
      assert ([' '] + c)[1..] == c;
      CollapseEdges(t);
      TrimLeftNoop(c);
    } else {
      TrimLeftNoop(s);
      CollapseEdges(s);
      TrimLeftNoop(Collapse(s));
    }
  }

  /** Left trimming keeps a last character that is not whitespace. */
  lemma {:induction false} TrimLeftKeepsLast(s: string)
    requires s != [] && !IsSpace(s[|s| - 1])
    ensures TrimLeft(s) != [] && TrimLeft(s)[|TrimLeft(s)| - 1] == s[|s| - 1]
    decreases |s|
  {
    if IsSpace(s[0]) {
      TrimLeftKeepsLast(s[1..]);
    }
  }

  lemma CollapseSpaceHead(s: string)
    requires s != [] && IsSpace(s[0])
    ensures Collapse(s) == [' '] + Collapse(TrimLeft(s[1..]))
  {
  }

  /** A trailing run of whitespace collapses to one trailing space. */
  lemma AppendSpacesSpaceHead(x: string, q: string) returns (t: string)
    requires x != [] && IsSpace(x[0]) && !IsSpace(x[|x| - 1])
    ensures t == TrimLeft(x[1..]) && |t| < |x| && t != [] && !IsSpace(t[|t| - 1])
    ensures Collapse(x + q) == [' '] + Collapse(t + q)
    ensures Collapse(x) == [' '] + Collapse(t)
  {
    var xq := x + q;
    t := TrimLeft(x[1..]);
    TrimLeftKeepsLast(x[1..]);
    assert x[1..][|x| - 2] == x[|x| - 1];
    assert xq[1..] == x[1..] + q;
    TrimLeftAppend(x[1..], q);
    CollapseSpaceHead(xq);
    CollapseSpaceHead(x);
  }

  lemma AppendSpacesOtherHead(x: string, q: string)
    requires x != [] && !IsSpace(x[0])
    requires Collapse(x[1..] + q) == Collapse(x[1..]) + [' ']
    ensures Collapse(x + q) == Collapse(x) + [' ']
  {
    var xq := x + q;
    assert xq[0] == x[0];
    assert xq[1..] == x[1..] + q;
    var c := Collapse(x[1..]);
    assert Collapse(x) == [x[0]] + c;
    assert [x[0]] + (c + [' ']) == ([x[0]] + c) + [' '];
  }

  /** A trailing run of whitespace collapses to one trailing space. */
  lemma {:induction false} CollapseAppendSpaces(x: string, q: string)
    requires x == [] || !IsSpace(x[|x| - 1])
    requires q != [] && AllSpace(q)
    ensures Collapse(x + q) == Collapse(x) + [' ']
    decreases |x|
  {
    if x == [] {
      assert x + q == q;
      TrimLeftAllSpace(q[1..]);
    } else if IsSpace(x[0]) {
      var t := AppendSpacesSpaceHead(x, q);
      CollapseAppendSpaces(t, q);
      ConsSnoc(' ', Collapse(t), ' ');
    } else {
      assert x[1..] == [] || x[1..][|x| - 2] == x[|x| - 1];
      CollapseAppendSpaces(x[1..], q);
      AppendSpacesOtherHead(x, q);
    }
  }

  lemma ConsSnoc(c: char, s: string, d: char)
    ensures [c] + (s + [d]) == ([c] + s) + [d]
  {
  }

  lemma CollapseTrimRight(s: string)
    ensures Collapse(TrimRight(s)) == TrimRight(Collapse(s))
  {
    var r := TrimRight(s);
    var q := s[|r|..];
    TrimRightIsPrefix(s);
    assert s == r + q;
    if q == [] {
      CollapseEdges(s);
      TrimRightNoop(Collapse(s));
    } else {
      CollapseTrailingSpaces(r, q);
    }
  }

  /** Trailing whitespace collapses to one space, which right trimming then removes. */
  lemma CollapseTrailingSpaces(r: string, q: string)
    requires r == [] || !IsSpace(r[|r| - 1])
    requires q != [] && AllSpace(q)
    ensures TrimRight(Collapse(r + q)) == Collapse(r)
  {
    var c := Collapse(r);
    assert Collapse(r + q) == c + [' '] by {
      CollapseAppendSpaces(r, q);
    }
    assert TrimRight(c + [' ']) == TrimRight(c) by {
      TrimRightSuffix(c, [' ']);
    }
    assert TrimRight(c) == c by {
      CollapseEdges(r);
      TrimRightNoop(c);
    }
  }

  /** `strip()` and whitespace collapsing commute. */
  lemma StripCollapse(s: string)
    ensures Strip(Collapse(s)) == Collapse(Strip(s))
  {
    CollapseTrimLeft(s);
    CollapseTrimRight(TrimLeft(s));
  }

  /** Applies `f` to every character. */
  function Map(f: char -> char, s: string): (r: string)
    ensures |r| == |s|
    ensures forall i :: 0 <= i < |s| ==> r[i] == f(s[i])
    decreases |s|
  {
    if s == [] then [] else [f(s[0])] + Map(f, s[1..])
  }

  /** `s.replace(",", ".")`. */
  function CommaToDot(c: char): char {
    if c == ',' then '.' else c
  }

  lemma MapAppend(g: char -> char, a: string, b: string)
    ensures Map(g, a + b) == Map(g, a) + Map(g, b)
  {
    assert Map(g, a + b) == Map(g, a) + Map(g, b);
  }

  /** `f` maps whitespace to whitespace and nothing else to whitespace, and keeps ' '. */
  ghost predicate SpaceFaithful(f: char -> char) {
    (forall c :: IsSpace(f(c)) <==> IsSpace(c)) && f(' ') == ' '
  }

  lemma {:induction false} MapTrimLeft(f: char -> char, s: string)
    requires SpaceFaithful(f)
    ensures Map(f, TrimLeft(s)) == TrimLeft(Map(f, s))
    decreases |s|
  {
    if s != [] && IsSpace(s[0]) {
      assert Map(f, s)[1..] == Map(f, s[1..]);
      MapTrimLeft(f, s[1..]);
    }
  }

  lemma {:induction false} MapTrimRight(f: char -> char, s: string)
    requires SpaceFaithful(f)
    ensures Map(f, TrimRight(s)) == TrimRight(Map(f, s))
    decreases |s|
  {
    if s != [] && IsSpace(s[|s| - 1]) {
      assert Map(f, s)[..|s| - 1] == Map(f, s[..|s| - 1]);
      MapTrimRight(f, s[..|s| - 1]);
    }
  }

  lemma MapStrip(f: char -> char, s: string)
    requires SpaceFaithful(f)
    ensures Map(f, Strip(s)) == Strip(Map(f, s))
  {
    MapTrimLeft(f, s);
    MapTrimRight(f, TrimLeft(s));
  }

  lemma {:induction false} MapCollapse(f: char -> char, s: string)
    requires SpaceFaithful(f)
    ensures Map(f, Collapse(s)) == Collapse(Map(f, s))
    decreases |s|
  {
    if s != [] {
      var m := Map(f, s);
      assert m[1..] == Map(f, s[1..]);
      if IsSpace(s[0]) {
        var t := TrimLeft(s[1..]);
        MapTrimLeft(f, s[1..]);
        MapCollapse(f, t);
        assert Map(f, [' '] + Collapse(t)) == [' '] + Map(f, Collapse(t));
      } else {
        MapCollapse(f, s[1..]);
        assert Map(f, [s[0]] + Collapse(s[1..])) == [f(s[0])] + Map(f, Collapse(s[1..]));
      }
    }
  }

  lemma MapMap(f: char -> char, g: char -> char, s: string)
    requires forall c :: f(g(c)) == g(f(c))
    ensures Map(f, Map(g, s)) == Map(g, Map(f, s))
  {
  }

  lemma MapIdempotent(f: char -> char, s: string)
    requires forall c :: f(f(c)) == f(c)
    ensures Map(f, Map(f, s)) == Map(f, s)
  {
  }

  /** Python's `str.lower()` on ASCII letters. */
  function LowerChar(c: char): (r: char)
    ensures 'A' <= c <= 'Z' ==> 'a' <= r <= 'z'
    ensures !('A' <= c <= 'Z') ==> r == c
  {
    if 'A' <= c <= 'Z' then (c as int + 32) as char else c
  }

  function Lower(s: string): (r: string)
    ensures |r| == |s|
  {
    Map(LowerChar, s)
  }

  lemma LowerSpaceFaithful()
    ensures SpaceFaithful(LowerChar)
  {
  }

  /** `s.replace(c, "")`. */
  function RemoveChar(s: string, c: char): (r: string)
    ensures |r| <= |s|
    ensures forall i :: 0 <= i < |r| ==> r[i] != c
    ensures (forall i :: 0 <= i < |s| ==> s[i] != c) ==> r == s
    decreases |s|
  {
    if s == [] then []
    else if s[0] == c then RemoveChar(s[1..], c)
    else [s[0]] + RemoveChar(s[1..], c)
  }

  lemma {:induction false} RemoveCharAppend(a: string, b: string, c: char)
    ensures RemoveChar(a + b, c) == RemoveChar(a, c) + RemoveChar(b, c)
    decreases |a|
  {
    if a != [] {
      assert (a + b)[0] == a[0];
      assert (a + b)[1..] == a[1..] + b;
      RemoveCharAppend(a[1..], b, c);
      if a[0] != c {
        assert RemoveChar(a + b, c) == [a[0]] + RemoveChar(a[1..] + b, c);
        assert [a[0]] + (RemoveChar(a[1..], c) + RemoveChar(b, c)) == ([a[0]] + RemoveChar(a[1..], c)) + RemoveChar(b, c);
      }
    } else {
      assert a + b == b;
    }
  }

  /** Python's `needle in haystack` for strings. */
  predicate Contains(haystack: string, needle: string)
    decreases |haystack|
  {
    needle <= haystack || (haystack != [] && Contains(haystack[1..], needle))
  }

  predicate IsDigit(c: char) {
    '0' <= c <= '9'
  }

  predicate AllDigits(s: string) {
    forall i :: 0 <= i < |s| ==> IsDigit(s[i])
  }

  function DigitValue(c: char): (d: nat)
    requires IsDigit(c)
    ensures d < 10
  {
    c as int - '0' as int
  }

  function DigitChar(d: nat): (c: char)
    requires d < 10
    ensures IsDigit(c) && DigitValue(c) == d
  {
    ('0' as int + d) as char
  }

  /** The number a string of decimal digits denotes (leading zeros allowed). */
  function DecimalValue(ds: string): nat
    requires AllDigits(ds)
    decreases |ds|
  {
    if ds == [] then 0 else DecimalValue(ds[..|ds| - 1]) * 10 + DigitValue(ds[|ds| - 1])
  }

  /** `str(n)` for a non-negative integer. */
  function Decimal(n: nat): (r: string)
    ensures r != [] && AllDigits(r)
    ensures |r| > 1 ==> r[0] != '0'
    decreases n
  {
    if n < 10 then [DigitChar(n)] else Decimal(n / 10) + [DigitChar(n % 10)]
  }

  lemma {:induction false} DecimalRoundTrip(n: nat)
    ensures DecimalValue(Decimal(n)) == n
    decreases n
  {
    if n >= 10 {
      var d := Decimal(n);
      assert d[..|d| - 1] == Decimal(n / 10);
      DecimalRoundTrip(n / 10);
    }
  }

  /** `str(n)` for any integer. */
  function Str(n: int): (r: string)
    ensures r != []
  {
    if n < 0 then "-" + Decimal(-n) else Decimal(n)
  }

  /**
   * The digits of a Python integer literal as `int()` accepts them: ASCII digits with
   * single underscores allowed between two digits.
   */
  predicate IntBody(t: string) {
    && t != []
    && IsDigit(t[0])
    && IsDigit(t[|t| - 1])
    && (forall i :: 0 <= i < |t| ==> IsDigit(t[i]) || t[i] == '_')
    && (forall i, j :: 0 <= i < |t| && 0 <= j < |t| && j == i + 1 && t[i] == '_' ==> t[j] != '_')
  }

  lemma {:induction false} RemoveUnderscoresDigits(t: string)
    requires forall i :: 0 <= i < |t| ==> IsDigit(t[i]) || t[i] == '_'
    ensures AllDigits(RemoveChar(t, '_'))
    decreases |t|
  {
    if t != [] {
      var tail := t[1..];
      assert forall i :: 0 <= i < |tail| ==> tail[i] == t[i + 1];
      RemoveUnderscoresDigits(tail);
      var r := RemoveChar(tail, '_');
      if t[0] != '_' {
        var r' := [t[0]] + r;
        assert RemoveChar(t, '_') == r';
        assert forall i :: 1 <= i < |r'| ==> r'[i] == r[i - 1];
      }
    }
  }

  function BodyValue(t: string): nat
    requires IntBody(t)
  {
    RemoveUnderscoresDigits(t);
    DecimalValue(RemoveChar(t, '_'))
  }

  /** Python's `int(s)` on a str, base 10: `None` where Python raises `ValueError`. */
  function PyInt(s: string): (r: Option<int>)
  {
    var t := Strip(s);
    if t != [] && (t[0] == '+' || t[0] == '-') then
      var body := t[1..];
      if IntBody(body) then Some(if t[0] == '-' then -(BodyValue(body) as int) else BodyValue(body)) else None
    else if IntBody(t) then Some(BodyValue(t))
    else None
  }

  /** A non-empty run of digits is an integer body worth its decimal value. */
  lemma DigitsBody(d: string)
    requires d != [] && AllDigits(d)
    ensures IntBody(d) && BodyValue(d) == DecimalValue(d)
  {
    assert RemoveChar(d, '_') == d;
  }

  /** An integer body reads as its value. */
  lemma PyIntBody(b: string, v: nat)
    requires IntBody(b) && BodyValue(b) == v
    ensures PyInt(b) == Some(v)
  {
    assert b[0] != '+' && b[0] != '-';
    StripNoop(b);
  }

  /** The longest prefix made of digits. */
  function DigitPrefix(s: string): (r: string)
    ensures r <= s && AllDigits(r)
    ensures |r| < |s| ==> !IsDigit(s[|r|])
    decreases |s|
  {
    if s != [] && IsDigit(s[0]) then [s[0]] + DigitPrefix(s[1..]) else []
  }

  /** `re.search(r"\d+", s)` converted with `int`: the first run of digits, if any. */
  function FirstDigitRun(s: string): (r: Option<nat>)
    ensures r.None? <==> forall i :: 0 <= i < |s| ==> !IsDigit(s[i])
    decreases |s|
  {
    if s == [] then None
    else if IsDigit(s[0]) then Some(DecimalValue(DigitPrefix(s)))
    else FirstDigitRun(s[1..])
  }

  /** Python's `s.split(sep)` for a one-character separator. */
  function Split(s: string, sep: char): (r: seq<string>)
    ensures |r| >= 1
    ensures forall i, j :: 0 <= i < |r| && 0 <= j < |r[i]| ==> r[i][j] != sep
    decreases |s|
  {
    if s == [] then [[]]
    else if s[0] == sep then [[]] + Split(s[1..], sep)
    else
      var rest := Split(s[1..], sep);
      [[s[0]] + rest[0]] + rest[1..]
  }

  /** Python's `sep.join(parts)`. */
  function Join(sep: string, parts: seq<string>): string
    decreases |parts|
  {
    if parts == [] then []
    else if |parts| == 1 then parts[0]
    else parts[0] + sep + Join(sep, parts[1..])
  }

  /** A string without the separator splits into itself. */
  lemma {:induction false} SplitNoSep(a: string, sep: char)
    requires forall i :: 0 <= i < |a| ==> a[i] != sep
    ensures Split(a, sep) == [a]
    decreases |a|
  {
    if a != [] {
      SplitNoSep(a[1..], sep);
      assert [a[0]] + a[1..] == a;
    }
  }

  /** The text up to the first separator is the first part. */
  lemma {:induction false} SplitAfter(a: string, sep: char, rest: string)
    requires forall i :: 0 <= i < |a| ==> a[i] != sep
    ensures Split(a + [sep] + rest, sep) == [a] + Split(rest, sep)
    decreases |a|
  {
    if a == [] {
      assert a + [sep] + rest == [sep] + rest;
      assert ([sep] + rest)[1..] == rest;
    } else {
      assert (a + [sep] + rest)[1..] == a[1..] + [sep] + rest;
      SplitAfter(a[1..], sep, rest);
      assert [a[0]] + a[1..] == a;
    }
  }
}

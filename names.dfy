/**
 * The two string keys of the scraping scripts: `normalize_name` (the key under which an
 * item name is looked up in the name-to-id mapping) and `normalize_header` (the key a
 * table header is compared by).
 */
module Names {
  import opened PyText

  /** The character map behind `.replace("’", "'")`. */
  function StraightenQuote(c: char): char {
    if c == '\U{2019}' then '\'' else c
  }

  /** `normalize_name`: strip, straighten right quotes, collapse whitespace, lower-case. */
  function NormalizeName(v: string): string {
    Lower(Collapse(Map(StraightenQuote, Strip(v))))
  }

  /** `normalize_header`: strip, lower-case, collapse whitespace. */
  function NormalizeHeader(v: string): string {
    Collapse(Lower(Strip(v)))
  }

  predicate NoChar(s: string, c: char) {
    forall i :: 0 <= i < |s| ==> s[i] != c
  }

  predicate NoUpper(s: string) {
    forall i :: 0 <= i < |s| ==> !('A' <= s[i] <= 'Z')
  }

  /** The shape of every key `normalize_name` produces. */
  ghost predicate IsNameKey(k: string) {
    NoEdgeSpace(k) && Collapsed(k) && NoChar(k, '\U{2019}') && NoUpper(k)
  }

  lemma StraightenQuoteSpaceFaithful()
    ensures SpaceFaithful(StraightenQuote)
  {
  }

  lemma MapKeepsEdges(f: char -> char, s: string)
    requires SpaceFaithful(f) && NoEdgeSpace(s)
    ensures NoEdgeSpace(Map(f, s))
  {
  }

  lemma MapKeepsCollapsed(f: char -> char, s: string)
    requires SpaceFaithful(f) && Collapsed(s)
    ensures Collapsed(Map(f, s))
  {
  }

  lemma CollapseKeepsEdges(s: string)
    requires NoEdgeSpace(s)
    ensures NoEdgeSpace(Collapse(s))
  {
    CollapseEdges(s);
  }

  /** Collapsing only ever introduces ' ', so it never introduces another character. */
  lemma {:induction false} CollapseKeepsNoChar(s: string, c: char)
    requires c != ' ' && NoChar(s, c)
    ensures NoChar(Collapse(s), c)
    decreases |s|
  {
    if s != [] {
      if IsSpace(s[0]) {
        var t := TrimLeft(s[1..]);
        TrimLeftIsSuffix(s[1..]);
        assert NoChar(t, c);
        CollapseKeepsNoChar(t, c);
      } else {
        assert NoChar(s[1..], c);
        CollapseKeepsNoChar(s[1..], c);
      }
    }
  }

  /** Every key has the shape `IsNameKey`. */
  lemma NormalizeNameIsKey(v: string)
    ensures IsNameKey(NormalizeName(v))
  {
    var s := Strip(v);
    StraightenQuoteSpaceFaithful();
    LowerSpaceFaithful();
    var q := Map(StraightenQuote, s);
    MapKeepsEdges(StraightenQuote, s);
    var c := Collapse(q);
    CollapseKeepsEdges(q);
    CollapseCollapsed(q);
    CollapseKeepsNoChar(q, '\U{2019}');
    MapKeepsEdges(LowerChar, c);
    MapKeepsCollapsed(LowerChar, c);
  }

  /** A string of that shape is its own key. */
  lemma NameKeyFixed(k: string)
    requires IsNameKey(k)
    ensures NormalizeName(k) == k
  {
    StripNoop(k);
    assert Map(StraightenQuote, k) == k;
    CollapseNoop(k);
    assert Lower(k) == k;
  }

  /** `normalize_name` is idempotent. */
  lemma NormalizeNameIdempotent(v: string)
    ensures NormalizeName(NormalizeName(v)) == NormalizeName(v)
  {
    NormalizeNameIsKey(v);
    NameKeyFixed(NormalizeName(v));
  }

  lemma LowerStraightenCommute(s: string)
    ensures Map(StraightenQuote, Lower(s)) == Lower(Map(StraightenQuote, s))
  {
    MapMap(StraightenQuote, LowerChar, s);
  }

  /** Names that differ only in ASCII letter case have the same key. */
  lemma NormalizeNameIgnoresCase(v: string)
    ensures NormalizeName(Lower(v)) == NormalizeName(v)
  {
    LowerSpaceFaithful();
    StraightenQuoteSpaceFaithful();
    var s := Strip(v);
    MapStrip(LowerChar, v);
    LowerStraightenCommute(s);
    var q := Map(StraightenQuote, s);
    MapCollapse(LowerChar, q);
    MapIdempotent(LowerChar, Collapse(q));
  }

  /** Straightening right quotes beforehand does not change the key. */
  lemma NormalizeNameIgnoresQuotes(v: string)
    ensures NormalizeName(Map(StraightenQuote, v)) == NormalizeName(v)
  {
    StraightenQuoteSpaceFaithful();
    MapStrip(StraightenQuote, v);
    MapIdempotent(StraightenQuote, Strip(v));
  }

  /** Collapsing runs of whitespace beforehand does not change the key. */
  lemma NormalizeNameIgnoresRuns(v: string)
    ensures NormalizeName(Collapse(v)) == NormalizeName(v)
  {
    StraightenQuoteSpaceFaithful();
    StripCollapse(v);
    var s := Strip(v);
    MapCollapse(StraightenQuote, s);
    CollapseIdempotent(Map(StraightenQuote, s));
  }

  /** Leading and trailing whitespace does not change the key. */
  lemma NormalizeNameIgnoresPadding(p: string, v: string, q: string)
    requires AllSpace(p) && AllSpace(q)
    ensures NormalizeName(p + v + q) == NormalizeName(v)
  {
    StripPadding(p, v, q);
  }

  /** A header key has no edge whitespace, single spaces only, and no upper-case letters. */
  lemma NormalizeHeaderShape(v: string)
    ensures NoEdgeSpace(NormalizeHeader(v)) && Collapsed(NormalizeHeader(v)) && NoUpper(NormalizeHeader(v))
  {
    LowerSpaceFaithful();
    var l := Lower(Strip(v));
    MapKeepsEdges(LowerChar, Strip(v));
    CollapseKeepsEdges(l);
    CollapseCollapsed(l);
    CollapseKeepsNoUpper(l);
  }

  lemma {:induction false} CollapseKeepsNoUpper(s: string)
    requires NoUpper(s)
    ensures NoUpper(Collapse(s))
    decreases |s|
  {
    if s != [] {
      if IsSpace(s[0]) {
        var t := TrimLeft(s[1..]);
        TrimLeftIsSuffix(s[1..]);
        assert NoUpper(t);
        CollapseKeepsNoUpper(t);
      } else {
        assert NoUpper(s[1..]);
        CollapseKeepsNoUpper(s[1..]);
      }
    }
  }

  /** `normalize_header` is idempotent. */
  lemma NormalizeHeaderIdempotent(v: string)
    ensures NormalizeHeader(NormalizeHeader(v)) == NormalizeHeader(v)
  {
    var h := NormalizeHeader(v);
    NormalizeHeaderShape(v);
    StripNoop(h);
    assert Lower(h) == h;
    CollapseNoop(h);
  }

  /** Header keys ignore ASCII letter case. */
  lemma NormalizeHeaderIgnoresCase(v: string)
    ensures NormalizeHeader(Lower(v)) == NormalizeHeader(v)
  {
    LowerSpaceFaithful();
    MapStrip(LowerChar, v);
    MapIdempotent(LowerChar, Strip(v));
  }
}

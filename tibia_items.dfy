/**
 * The item-resource refresher: it scrapes the creature-products table and the
 * delivery-task-items table, turns each row into a resource item (cleaned name, slug,
 * link, weight, category, providers), and writes the items sorted by lower-cased name,
 * falling back to a saved snapshot when the page cannot be fetched or has no table.
 * Slugging (Unicode normalisation and percent-quoting) and URL joining are parameters.
 */
module TibiaItems {
  import opened Wrappers
  import opened PyText
  import opened PyFloat
  import opened Names
  import opened HtmlTables
  import opened Ordering

  const CreatureProductsUrl: string := "https://tibia.fandom.com/wiki/Creature_Products"
  const DeliveryTaskItemsUrl: string := "https://tibiopedia.pl/items/others/delivery"
  const WikiBase: string := "https://tibia.fandom.com/wiki/"

  // ---- clean_item_name ----

  /** `re.sub(r"^item\s+", "", s, flags=re.IGNORECASE)`: one leading "item" word and the whitespace after it. */
  function DropItemPrefix(s: string): string {
    if |s| >= 5 && Lower(s[..4]) == "item" && IsSpace(s[4]) then TrimLeft(s[4..]) else s
  }

  /** `clean_item_name`: strip, drop a leading "item " word, strip again. */
  function CleanItemName(name: string): (r: string)
    ensures NoEdgeSpace(r)
  {
    Strip(DropItemPrefix(Strip(name)))
  }

  lemma DropItemPrefixOf(w: string, sp: string, x: string)
    requires |w| == 4 && Lower(w) == "item"
    requires sp != [] && AllSpace(sp)
    requires x == [] || !IsSpace(x[0])
    ensures DropItemPrefix(w + sp + x) == x
  {
    var t := w + sp + x;
    assert t[..4] == w && t[4] == sp[0];
    assert t[4..] == sp + x;
    TrimLeftPrefix(sp, x);
    TrimLeftNoop(x);
  }

  /** "Item <name>" cleans to the name. */
  lemma CleanItemWord(w: string, sp: string, x: string)
    requires |w| == 4 && Lower(w) == "item"
    requires sp != [] && AllSpace(sp)
    requires x != [] && NoEdgeSpace(x)
    ensures NoEdgeSpace(w + sp + x)
    ensures CleanItemName(w + sp + x) == x
  {
    var t := w + sp + x;
    assert !IsSpace(t[0]) by {
      assert t[0] == w[0];
      assert Lower(w)[0] == LowerChar(w[0]) == 'i';
    }
    assert t[|t| - 1] == x[|x| - 1];
    StripNoop(t);
    DropItemPrefixOf(w, sp, x);
    StripNoop(x);
  }

  /** A padded "Item <name>" cleans to the name. */
  lemma CleanItemNamePrefix(p: string, w: string, sp: string, x: string, q: string)
    requires AllSpace(p) && AllSpace(q)
    requires |w| == 4 && Lower(w) == "item"
    requires sp != [] && AllSpace(sp)
    requires x != [] && NoEdgeSpace(x)
    ensures CleanItemName(p + w + sp + x + q) == x
  {
    var t := w + sp + x;
    assert p + w + sp + x + q == p + t + q;
    StripPadding(p, t, q);
    assert CleanItemName(p + t + q) == CleanItemName(t);
    CleanItemWord(w, sp, x);
  }

  /** A padded name that does not start with the "item" word is only stripped. */
  lemma CleanItemNamePlain(p: string, x: string, q: string)
    requires AllSpace(p) && AllSpace(q) && NoEdgeSpace(x)
    requires !(|x| >= 5 && Lower(x[..4]) == "item" && IsSpace(x[4]))
    ensures CleanItemName(p + x + q) == x
  {
    StripPadding(p, x, q);
    StripNoop(x);
  }

  /** The prefix goes once: "item item Foo" cleans to "item Foo", so cleaning is not idempotent. */
  lemma CleanItemNameOnce(w: string, sp: string, x: string)
    requires |w| == 4 && Lower(w) == "item"
    requires sp != [] && AllSpace(sp)
    requires x != [] && NoEdgeSpace(x)
    ensures CleanItemName(w + sp + w + sp + x) == w + sp + x
    ensures CleanItemName(CleanItemName(w + sp + w + sp + x)) == x != w + sp + x
  {
    var y := w + sp + x;
    CleanItemWord(w, sp, x);
    assert w + sp + w + sp + x == w + sp + y;
    CleanItemWord(w, sp, y);
    assert |x| < |y|;
  }

  // ---- split_providers ----

  /** What every provider name looks like: non-empty, stripped, comma-free. */
  predicate ProviderOk(p: string) {
    p != [] && NoEdgeSpace(p) && forall j :: 0 <= j < |p| ==> p[j] != ','
  }

  function StripEach(parts: seq<string>): (r: seq<string>)
    ensures |r| == |parts| && forall i :: 0 <= i < |parts| ==> r[i] == Strip(parts[i])
  {
    seq(|parts|, i requires 0 <= i < |parts| => Strip(parts[i]))
  }

  /** `[part for part in parts if part]`. */
  function NonEmpty(parts: seq<string>): (r: seq<string>)
    ensures forall i :: 0 <= i < |r| ==> r[i] != [] && r[i] in parts
    ensures forall p :: p in parts && p != [] ==> p in r
    decreases |parts|
  {
    if parts == [] then []
    else (if parts[0] != [] then [parts[0]] else []) + NonEmpty(parts[1..])
  }

  /** `split_providers`: the comma-separated names, stripped, empty ones dropped. */
  function SplitProviders(raw: string): seq<string> {
    if raw == [] then [] else NonEmpty(StripEach(Split(raw, ',')))
  }

  /** Strip returns a slice, so it brings in no new character. */
  lemma StripKeepsOut(s: string, c: char)
    requires forall j :: 0 <= j < |s| ==> s[j] != c
    ensures forall j :: 0 <= j < |Strip(s)| ==> Strip(s)[j] != c
  {
    var l := TrimLeft(s);
    var r := Strip(s);
    assert l == s[|s| - |l|..] by {
      TrimLeftIsSuffix(s);
    }
    assert r == l[..|r|] by {
      TrimRightIsPrefix(l);
    }
    forall j | 0 <= j < |r|
      ensures r[j] != c
    {
      assert r[j] == l[j] == s[|s| - |l| + j];
    }
  }

  lemma SplitProvidersOk(raw: string)
    ensures forall i :: 0 <= i < |SplitProviders(raw)| ==> ProviderOk(SplitProviders(raw)[i])
  {
    if raw != [] {
      var parts := Split(raw, ',');
      var stripped := StripEach(parts);
      forall i | 0 <= i < |stripped|
        ensures forall j :: 0 <= j < |stripped[i]| ==> stripped[i][j] != ','
      {
        StripKeepsOut(parts[i], ',');
      }
      var r := NonEmpty(stripped);
      forall i | 0 <= i < |r|
        ensures ProviderOk(r[i])
      {
        var k :| 0 <= k < |stripped| && stripped[k] == r[i];
      }
    }
  }

  /** The empty-input guard changes nothing: an empty string splits into one empty part. */
  lemma SplitProvidersEmpty()
    ensures NonEmpty(StripEach(Split("", ','))) == []
  {
    assert StripEach(Split("", ',')) == [""];
  }

  function Padded(qs: seq<string>): (r: seq<string>)
    ensures |r| == |qs| && forall i :: 0 <= i < |qs| ==> r[i] == " " + qs[i]
  {
    seq(|qs|, i requires 0 <= i < |qs| => " " + qs[i])
  }

  lemma {:induction false} SplitJoined(ps: seq<string>)
    requires ps != []
    requires forall i, j :: 0 <= i < |ps| && 0 <= j < |ps[i]| ==> ps[i][j] != ','
    ensures Split(Join(", ", ps), ',') == [ps[0]] + Padded(ps[1..])
    decreases |ps|
  {
    if |ps| == 1 {
      SplitNoSep(ps[0], ',');
    } else {
      var rest := Join(", ", ps[1..]);
      JoinCommaHead(ps);
      SplitAfter(ps[0], ',', " " + rest);
      SplitJoined(ps[1..]);
      SplitSpaceHead(rest, ps[1], Padded(ps[2..]));
      PaddedTail(ps);
    }
  }

  lemma JoinCommaHead(ps: seq<string>)
    requires |ps| >= 2
    ensures Join(", ", ps) == ps[0] + [','] + (" " + Join(", ", ps[1..]))
  {
  }

  lemma SplitSpaceHead(rest: string, head: string, tail: seq<string>)
    requires Split(rest, ',') == [head] + tail
    ensures Split(" " + rest, ',') == [" " + head] + tail
  {
    assert (" " + rest)[1..] == rest;
    assert ([head] + tail)[1..] == tail;
  }

  lemma PaddedTail(ps: seq<string>)
    requires |ps| >= 2
    ensures Padded(ps[1..]) == [" " + ps[1]] + Padded(ps[2..])
  {
    assert ps[1..][1..] == ps[2..];
  }

  lemma {:induction false} NonEmptyAll(ps: seq<string>)
    requires forall i :: 0 <= i < |ps| ==> ps[i] != []
    ensures NonEmpty(ps) == ps
    decreases |ps|
  {
    if ps != [] {
      NonEmptyAll(ps[1..]);
    }
  }

  lemma StripPadded(ps: seq<string>)
    requires ps != [] && forall i :: 0 <= i < |ps| ==> ProviderOk(ps[i])
    ensures StripEach([ps[0]] + Padded(ps[1..])) == ps
  {
    var parts := [ps[0]] + Padded(ps[1..]);
    forall i | 0 <= i < |ps|
      ensures Strip(parts[i]) == ps[i]
    {
      if i == 0 {
        StripNoop(ps[0]);
      } else {
        assert parts[i] == " " + ps[i] + "";
        StripPadding(" ", ps[i], "");
        StripNoop(ps[i]);
      }
    }
  }

  /** Joining provider names with ", " and splitting again gives the names back. */
  lemma ProvidersRoundTrip(ps: seq<string>)
    requires forall i :: 0 <= i < |ps| ==> ProviderOk(ps[i])
    ensures SplitProviders(Join(", ", ps)) == ps
  {
    if ps != [] {
      var joined := Join(", ", ps);
      assert joined != [] by {
        if |ps| > 1 {
          assert joined == ps[0] + ", " + Join(", ", ps[1..]);
        }
      }
      SplitJoined(ps);
      StripPadded(ps);
      NonEmptyAll(ps);
      assert SplitProviders(joined) == NonEmpty(StripEach(Split(joined, ',')));
    }
  }

  // ---- parse_weight ----

  /** A match of `\d+(?:\.\d+)?`: the digits before the point and those after it (maybe none). */
  datatype Number = Number(whole: string, frac: string)

  predicate NumberOk(m: Number) {
    m.whole != [] && AllDigits(m.whole) && AllDigits(m.frac)
  }

  /** The match text, as `match.group(0)` returns it. */
  function MatchText(m: Number): string {
    if m.frac == [] then m.whole else m.whole + "." + m.frac
  }

  /** The greedy match starting at a digit. */
  function MatchAt(s: string): (r: Number)
    requires s != [] && IsDigit(s[0])
    ensures NumberOk(r)
  {
    var d := DigitPrefix(s);
    var rest := s[|d|..];
    if |rest| >= 2 && rest[0] == '.' && IsDigit(rest[1]) then Number(d, DigitPrefix(rest[1..]))
    else Number(d, "")
  }

  /** `re.search(r"\d+(?:\.\d+)?", s)`: the match at the first digit. */
  function SearchNumber(s: string): (r: Option<Number>)
    ensures r.None? <==> forall i :: 0 <= i < |s| ==> !IsDigit(s[i])
    ensures r.Some? ==> NumberOk(r.value)
    decreases |s|
  {
    if s == [] then None
    else if IsDigit(s[0]) then Some(MatchAt(s))
    else SearchNumber(s[1..])
  }

  function NumberValue(m: Number): real
    requires NumberOk(m)
  {
    DecimalValue(m.whole) as real + FractionValue(m.frac)
  }

  /** `parse_weight`: the first number in the text, commas read as decimal points; 0.0 without one. */
  function ParseWeight(raw: string): (w: real)
    ensures w >= 0.0
  {
    if raw == [] then 0.0
    else match SearchNumber(Map(CommaToDot, raw))
      case None => 0.0
      case Some(m) => NumberValue(m)
  }

  lemma WholeFloat(d: string)
    requires d != [] && AllDigits(d)
    ensures ParseFloat(d) == Some(DecimalValue(d) as real)
  {
    DigitsNoEdgeSpace(d);
    StripNoop(d);
    assert forall j :: 0 <= j < |d| ==> d[j] != '.';
  }

  /** `float()` of the match text is the value taken. */
  lemma MatchTextFloat(m: Number)
    requires NumberOk(m)
    ensures ParseFloat(MatchText(m)) == Some(NumberValue(m))
  {
    var d := m.whole;
    if m.frac == [] {
      WholeFloat(d);
      assert FractionValue(m.frac) == 0.0;
      SameFloat(d, MatchText(m), DecimalValue(d) as real, NumberValue(m));
    } else {
      var t := d + "." + m.frac;
      PyFloat.PointFloat(d, m.frac, DecimalValue(d));
      SameFloat(t, MatchText(m), DecimalValue(d) as real + FractionValue(m.frac), NumberValue(m));
    }
  }

  lemma SameFloat(t: string, t': string, v: real, v': real)
    requires ParseFloat(t) == Some(v) && t' == t && v' == v
    ensures ParseFloat(t') == Some(v')
  {
  }

  lemma ParseWeightIsFloat(raw: string)
    requires raw != [] && SearchNumber(Map(CommaToDot, raw)).Some?
    ensures ParseFloat(MatchText(SearchNumber(Map(CommaToDot, raw)).value)) == Some(ParseWeight(raw))
  {
    MatchTextFloat(SearchNumber(Map(CommaToDot, raw)).value);
  }

  /** Text without digits weighs nothing. */
  lemma ParseWeightNoDigits(raw: string)
    requires forall i :: 0 <= i < |raw| ==> !IsDigit(raw[i])
    ensures ParseWeight(raw) == 0.0
  {
    var s := Map(CommaToDot, raw);
    assert forall i :: 0 <= i < |s| ==> !IsDigit(s[i]);
  }

  lemma {:induction false} DigitPrefixStops(d: string, q: string)
    requires AllDigits(d) && (q == [] || !IsDigit(q[0]))
    ensures DigitPrefix(d + q) == d
    decreases |d|
  {
    if d == [] {
      assert d + q == q;
    } else {
      assert (d + q)[1..] == d[1..] + q;
      DigitPrefixStops(d[1..], q);
    }
  }

  lemma {:induction false} SearchNumberSkips(p: string, s: string)
    requires forall i :: 0 <= i < |p| ==> !IsDigit(p[i])
    ensures SearchNumber(p + s) == SearchNumber(s)
    decreases |p|
  {
    if p == [] {
      assert p + s == s;
    } else {
      assert (p + s)[1..] == p[1..] + s;
      SearchNumberSkips(p[1..], s);
    }
  }

  /** The first number after a digit-free label is a whole number when no ".digit" follows. */
  lemma WholeAfterLabel(p: string, d: string, rest: string)
    requires forall i :: 0 <= i < |p| ==> !IsDigit(p[i])
    requires d != [] && AllDigits(d)
    requires rest == [] || (!IsDigit(rest[0]) && rest[0] != '.')
    ensures SearchNumber(p + d + rest) == Some(Number(d, ""))
  {
    WholeLayout(p, d, rest);
    SearchNumberSkips(p, d + rest);
    DigitPrefixStops(d, rest);
  }

  lemma WholeLayout(p: string, d: string, rest: string)
    ensures p + d + rest == p + (d + rest)
    ensures (d + rest)[|d|..] == rest
  {
  }

  /** The first number after a digit-free label takes the digits after a point. */
  lemma PointAfterLabel(p: string, d: string, f: string, rest: string)
    requires forall i :: 0 <= i < |p| ==> !IsDigit(p[i])
    requires d != [] && AllDigits(d) && f != [] && AllDigits(f)
    requires rest == [] || !IsDigit(rest[0])
    ensures SearchNumber(p + d + "." + f + rest) == Some(Number(d, f))
  {
    var s := d + (['.'] + (f + rest));
    PointLayout(p, d, f, rest);
    SearchNumberSkips(p, s);
    MatchAtPoint(d, f, rest);
    assert s[0] == d[0];
  }

  /** A match starting at `d.f` takes both digit runs. */
  lemma MatchAtPoint(d: string, f: string, rest: string)
    requires d != [] && AllDigits(d) && f != [] && AllDigits(f)
    requires rest == [] || !IsDigit(rest[0])
    ensures var s := d + (['.'] + (f + rest)); s != [] && IsDigit(s[0]) && MatchAt(s) == Number(d, f)
  {
    var tail := ['.'] + (f + rest);
    var s := d + tail;
    assert s[0] == d[0];
    DigitPrefixStops(d, tail);
    assert s[|d|..] == tail;
    assert tail[1..] == f + rest;
    DigitPrefixStops(f, rest);
  }

  lemma PointLayout(p: string, d: string, f: string, rest: string)
    ensures p + d + "." + f + rest == p + (d + (['.'] + (f + rest)))
    ensures (d + (['.'] + (f + rest)))[|d|..] == ['.'] + (f + rest)
    ensures (['.'] + (f + rest))[1..] == f + rest
  {
  }

  lemma MapAppend5(g: char -> char, a: string, b: string, c: string, d: string, e: string)
    ensures Map(g, a + b + c + d + e) == Map(g, a) + Map(g, b) + Map(g, c) + Map(g, d) + Map(g, e)
  {
    MapAppend(g, a + b + c + d, e);
    MapAppend(g, a + b + c, d);
    MapAppend(g, a + b, c);
    MapAppend(g, a, b);
  }

  lemma CommaToDotDigits(d: string)
    requires AllDigits(d)
    ensures Map(CommaToDot, d) == d
  {
    assert forall i :: 0 <= i < |d| ==> d[i] != ',';
  }

  lemma CommaToDotText(p: string, d: string, sep: char, f: string, q: string)
    requires AllDigits(d) && AllDigits(f) && (sep == '.' || sep == ',')
    ensures Map(CommaToDot, p + d + [sep] + f + q) == Map(CommaToDot, p) + d + "." + f + Map(CommaToDot, q)
  {
    MapAppend5(CommaToDot, p, d, [sep], f, q);
    CommaToDotDigits(d);
    CommaToDotDigits(f);
    assert Map(CommaToDot, [sep]) == "." by {
      assert Map(CommaToDot, [sep])[0] == CommaToDot(sep) == '.';
    }
  }

  lemma LabelText(p: string, d: string, q: string)
    requires forall i :: 0 <= i < |p| ==> !IsDigit(p[i])
    requires AllDigits(d)
    requires q == [] || (!IsDigit(q[0]) && q[0] != '.' && q[0] != ',')
    ensures Map(CommaToDot, p + d + q) == Map(CommaToDot, p) + d + Map(CommaToDot, q)
    ensures forall i :: 0 <= i < |Map(CommaToDot, p)| ==> !IsDigit(Map(CommaToDot, p)[i])
    ensures Map(CommaToDot, q) == [] || (!IsDigit(Map(CommaToDot, q)[0]) && Map(CommaToDot, q)[0] != '.')
  {
    MapAppend(CommaToDot, p + d, q);
    MapAppend(CommaToDot, p, d);
    CommaToDotDigits(d);
  }

  lemma NoFraction()
    ensures FractionValue("") == 0.0
  {
  }

  /** A labelled whole number ("Weight: 12 oz") reads as that number. */
  lemma ParseWeightLabelled(p: string, n: nat, q: string)
    requires forall i :: 0 <= i < |p| ==> !IsDigit(p[i])
    requires q == [] || (!IsDigit(q[0]) && q[0] != '.' && q[0] != ',')
    ensures ParseWeight(p + Decimal(n) + q) == n as real
  {
    var d := Decimal(n);
    DecimalRoundTrip(n);
    LabelText(p, d, q);
    WholeAfterLabel(Map(CommaToDot, p), d, Map(CommaToDot, q));
    NoFraction();
  }

  /** "12.5" and "12,5" both read as the decimal 12.5. */
  lemma ParseWeightDecimalMark(p: string, n: nat, sep: char, f: string, q: string)
    requires forall i :: 0 <= i < |p| ==> !IsDigit(p[i])
    requires sep == '.' || sep == ','
    requires f != [] && AllDigits(f)
    requires q == [] || !IsDigit(q[0])
    ensures ParseWeight(p + Decimal(n) + [sep] + f + q) == n as real + FractionValue(f)
  {
    var d := Decimal(n);
    DecimalRoundTrip(n);
    var mp := Map(CommaToDot, p);
    var mq := Map(CommaToDot, q);
    CommaToDotText(p, d, sep, f, q);
    PointAfterLabel(mp, d, f, mq);
  }

  // ---- Rows to items ----

  /** The two scraped pages. */
  datatype Source = CreatureProducts | DeliveryItems

  function PageUrl(kind: Source): string {
    match kind
    case CreatureProducts => CreatureProductsUrl
    case DeliveryItems => DeliveryTaskItemsUrl
  }

  function DefaultCategory(kind: Source): (r: string)
    ensures r != []
  {
    match kind
    case CreatureProducts => "Creature Product"
    case DeliveryItems => "Delivery Task Item"
  }

  function MissingTableError(kind: Source): string {
    match kind
    case CreatureProducts => "Creature products table not found"
    case DeliveryItems => "Delivery task items table not found"
  }

  const RequiredHeaders: set<string> := {"item", "weight"}
  const NameHeaders: seq<string> := ["item", "name"]
  const WeightHeaders: seq<string> := ["weight"]
  const CategoryHeaders: seq<string> := ["category", "type"]

  function ProviderHeaders(kind: Source): seq<string> {
    match kind
    case CreatureProducts => ["dropped by", "creature", "creatures", "dropped"]
    case DeliveryItems => ["npc", "from", "provider"]
  }

  /** The column indices a page's rows are read with. */
  datatype Columns = Columns(name: nat, weight: nat, providers: Option<nat>, category: Option<nat>)

  /**
   * Name and weight fall back to column 0 (`or 0`); the category column, and the
   * delivery page's provider column, count as missing when found at index 0 (`or None`).
   */
  function ColumnsOf(kind: Source, headers: Row): Columns {
    Columns(
      ColumnOr(FindColumn(headers, NameHeaders), 0),
      ColumnOr(FindColumn(headers, WeightHeaders), 0),
      match kind
      case CreatureProducts => FindColumn(headers, ProviderHeaders(kind))
      case DeliveryItems => ColumnOrNone(FindColumn(headers, ProviderHeaders(kind))),
      ColumnOrNone(FindColumn(headers, CategoryHeaders)))
  }

  /** A row of a matching table, as written to the resource file. */
  datatype ResourceItem = ResourceItem(
    name: string, slug: string, url: string, weight: real, category: string, providers: seq<string>)

  /** `row[idx].text if idx is not None and idx < len(row) else default`. */
  function CellText(row: Row, idx: Option<nat>, default: string): string {
    if idx.Some? && idx.value < |row| then row[idx.value].text else default
  }

  /** The wiki page of a creature product; the first link of a delivery item's name cell, or "". */
  function ItemUrl(kind: Source, nameCell: HtmlCell, slug: string, urljoin: (string, string) -> string): string {
    match kind
    case CreatureProducts => WikiBase + slug
    case DeliveryItems => if nameCell.links != [] then urljoin(DeliveryTaskItemsUrl, nameCell.links[0]) else ""
  }

  /** One loop iteration of `parse_creature_products` / `parse_delivery_items`. */
  function RowItem(kind: Source, row: Row, cols: Columns, slugify: string -> string,
                   urljoin: (string, string) -> string): Option<ResourceItem> {
    if cols.name >= |row| then None
    else
      var name := CleanItemName(row[cols.name].text);
      if name == [] then None
      else
        var category := CellText(row, cols.category, DefaultCategory(kind));
        var slug := slugify(name);
        Some(ResourceItem(
          name, slug, ItemUrl(kind, row[cols.name], slug, urljoin),
          ParseWeight(CellText(row, Some(cols.weight), "")),
          if category == [] then DefaultCategory(kind) else category,
          SplitProviders(CellText(row, cols.providers, ""))))
  }

  function RowReader(kind: Source, cols: Columns, slugify: string -> string,
                     urljoin: (string, string) -> string): Row -> Option<ResourceItem> {
    row => RowItem(kind, row, cols, slugify, urljoin)
  }

  function TableItems(kind: Source, rows: seq<Row>, cols: Columns, slugify: string -> string,
                   urljoin: (string, string) -> string): seq<ResourceItem> {
    Collect(rows, RowReader(kind, cols, slugify, urljoin))
  }

  /** The page's items, or the error raised when no table has "item" and "weight" headers. */
  function ParseItems(kind: Source, toks: seq<Token>, slugify: string -> string,
                      urljoin: (string, string) -> string): Result<seq<ResourceItem>, string> {
    match FindTable(ParseTables(toks, true), RequiredHeaders)
    case None => Failure(MissingTableError(kind))
    case Some(t) => Success(TableItems(kind, t.1, ColumnsOf(kind, t.0), slugify, urljoin))
  }

  /** The body of the row loop; `None` where the loop continues without appending. */
  method ReadRow(kind: Source, row: Row, cols: Columns, slugify: string -> string,
                 urljoin: (string, string) -> string) returns (item: Option<ResourceItem>)
    ensures item == RowItem(kind, row, cols, slugify, urljoin)
  {
    if cols.name >= |row| {
      return None;
    }
    var nameCell := row[cols.name];
    var name := CleanItemName(nameCell.text);
    if name == [] {
      return None;
    }
    var weight := ParseWeight(CellText(row, Some(cols.weight), ""));
    var providersText := CellText(row, cols.providers, "");
    var category := CellText(row, cols.category, DefaultCategory(kind));
    var slug := slugify(name);
    var url := "";
    if kind.CreatureProducts? {
      url := WikiBase + slug;
    } else if nameCell.links != [] {
      url := urljoin(DeliveryTaskItemsUrl, nameCell.links[0]);
    }
    return Some(ResourceItem(name, slug, url, weight,
      if category == [] then DefaultCategory(kind) else category, SplitProviders(providersText)));
  }

  method CollectItems(kind: Source, rows: seq<Row>, cols: Columns, slugify: string -> string,
                      urljoin: (string, string) -> string) returns (items: seq<ResourceItem>)
    ensures items == TableItems(kind, rows, cols, slugify, urljoin)
  {
    items := [];
    for i := 0 to |rows|
      invariant items == TableItems(kind, rows[..i], cols, slugify, urljoin)
    {
      assert rows[..i + 1][..i] == rows[..i];
      var item := ReadRow(kind, rows[i], cols, slugify, urljoin);
      if item.Some? {
        items := items + [item.value];
      }
    }
    assert rows[..|rows|] == rows;
  }

  /** `parse_creature_products` (kind `CreatureProducts`) and `parse_delivery_items` (kind `DeliveryItems`). */
  method ParsePage(kind: Source, toks: seq<Token>, slugify: string -> string,
                   urljoin: (string, string) -> string) returns (r: Result<seq<ResourceItem>, string>)
    ensures r == ParseItems(kind, toks, slugify, urljoin)
  {
    var tables := ParseTablesOf(toks, true);
    var table := FindTable(tables, RequiredHeaders);
    if table.None? {
      return Failure(MissingTableError(kind));
    }
    var headers := table.value.0;
    var rows := table.value.1;
    var items := CollectItems(kind, rows, ColumnsOf(kind, headers), slugify, urljoin);
    return Success(items);
  }

  // ---- What the items look like ----

  /** What the resource tests demand of every item. */
  predicate ItemOk(kind: Source, it: ResourceItem, slugify: string -> string) {
    && it.name != [] && NoEdgeSpace(it.name)
    && it.slug == slugify(it.name)
    && it.category != []
    && it.weight >= 0.0
    && (forall i :: 0 <= i < |it.providers| ==> ProviderOk(it.providers[i]))
    && (kind.CreatureProducts? ==> it.url == WikiBase + it.slug)
  }

  /** A row yields an item exactly when its name cell exists and cleans to a non-empty name. */
  lemma RowItemKept(kind: Source, row: Row, cols: Columns, slugify: string -> string,
                    urljoin: (string, string) -> string)
    ensures RowItem(kind, row, cols, slugify, urljoin).Some? <==>
      cols.name < |row| && CleanItemName(row[cols.name].text) != []
    ensures RowItem(kind, row, cols, slugify, urljoin).Some? ==>
      ItemOk(kind, RowItem(kind, row, cols, slugify, urljoin).value, slugify)
  {
    if cols.name < |row| {
      SplitProvidersOk(CellText(row, cols.providers, ""));
    }
  }

  /** A delivery item links to the first link of its name cell, and to nothing without one. */
  lemma DeliveryItemUrl(row: Row, cols: Columns, slugify: string -> string, urljoin: (string, string) -> string)
    requires RowItem(DeliveryItems, row, cols, slugify, urljoin).Some?
    ensures row[cols.name].links == [] ==> RowItem(DeliveryItems, row, cols, slugify, urljoin).value.url == ""
    ensures row[cols.name].links != [] ==>
      RowItem(DeliveryItems, row, cols, slugify, urljoin).value.url == urljoin(DeliveryTaskItemsUrl, row[cols.name].links[0])
  {
  }

  /** The items are the rows that yield one: no more items than rows, none invented, none lost. */
  lemma ItemsOfRows(kind: Source, rows: seq<Row>, cols: Columns, slugify: string -> string,
                    urljoin: (string, string) -> string)
    ensures |TableItems(kind, rows, cols, slugify, urljoin)| <= |rows|
    ensures forall it :: it in TableItems(kind, rows, cols, slugify, urljoin) ==>
      exists j :: 0 <= j < |rows| && RowItem(kind, rows[j], cols, slugify, urljoin) == Some(it)
    ensures forall j :: 0 <= j < |rows| && RowItem(kind, rows[j], cols, slugify, urljoin).Some? ==>
      RowItem(kind, rows[j], cols, slugify, urljoin).value in TableItems(kind, rows, cols, slugify, urljoin)
  {
    var f := RowReader(kind, cols, slugify, urljoin);
    CollectMembers(rows, f);
    assert forall j :: 0 <= j < |rows| ==> f(rows[j]) == RowItem(kind, rows[j], cols, slugify, urljoin);
  }

  /** Every parsed item meets the resource tests' demands. */
  lemma ItemsOk(kind: Source, rows: seq<Row>, cols: Columns, slugify: string -> string,
                urljoin: (string, string) -> string)
    ensures forall it :: it in TableItems(kind, rows, cols, slugify, urljoin) ==> ItemOk(kind, it, slugify)
  {
    ItemsOfRows(kind, rows, cols, slugify, urljoin);
    forall it | it in TableItems(kind, rows, cols, slugify, urljoin)
      ensures ItemOk(kind, it, slugify)
    {
      var j :| 0 <= j < |rows| && RowItem(kind, rows[j], cols, slugify, urljoin) == Some(it);
      RowItemKept(kind, rows[j], cols, slugify, urljoin);
    }
  }

  /** A page fails exactly when no table has both required headers; otherwise every item is well formed. */
  lemma ParseItemsMeaning(kind: Source, toks: seq<Token>, slugify: string -> string,
                          urljoin: (string, string) -> string)
    ensures ParseItems(kind, toks, slugify, urljoin).Failure? <==>
      forall k :: 0 <= k < |ParseTables(toks, true)| ==> !TableMatches(ParseTables(toks, true)[k], RequiredHeaders)
    ensures ParseItems(kind, toks, slugify, urljoin).Failure? ==>
      ParseItems(kind, toks, slugify, urljoin).error == MissingTableError(kind)
    ensures ParseItems(kind, toks, slugify, urljoin).Success? ==>
      forall it :: it in ParseItems(kind, toks, slugify, urljoin).value ==> ItemOk(kind, it, slugify)
  {
    var t := FindTable(ParseTables(toks, true), RequiredHeaders);
    if t.Some? {
      ItemsOk(kind, t.value.1, ColumnsOf(kind, t.value.0), slugify, urljoin);
    }
  }

  lemma FoundUnder(headers: Row, name: string, candidates: seq<string>)
    requires name in HeaderNames(headers) && name in candidates
    ensures FindColumn(headers, candidates).Some?
  {
    var i :| 0 <= i < |headers| && NormalizeHeader(headers[i].text) == name;
    assert Contains(name, name);
    ContainsAnyMeaning(name, candidates);
    assert HeaderHasAny(headers[i], candidates);
  }

  /** The name and weight columns of a matching table are always found under headers that name them. */
  lemma ColumnsFound(kind: Source, headers: Row)
    requires RequiredHeaders <= HeaderNames(headers)
    ensures ColumnsOf(kind, headers).name < |headers| && HeaderHasAny(headers[ColumnsOf(kind, headers).name], NameHeaders)
    ensures ColumnsOf(kind, headers).weight < |headers| && HeaderHasAny(headers[ColumnsOf(kind, headers).weight], WeightHeaders)
  {
    assert "item" in HeaderNames(headers) && "item" in NameHeaders;
    FoundUnder(headers, "item", NameHeaders);
    assert "weight" in HeaderNames(headers) && "weight" in WeightHeaders;
    FoundUnder(headers, "weight", WeightHeaders);
  }

  /** Delivery rows whose cells carry no links give items without a url. */
  lemma DeliveryRowsWithoutLinks(rows: seq<Row>, cols: Columns, slugify: string -> string,
                                 urljoin: (string, string) -> string)
    requires forall j :: 0 <= j < |rows| ==> RowOk(rows[j], false)
    ensures forall it :: it in TableItems(DeliveryItems, rows, cols, slugify, urljoin) ==> it.url == ""
  {
    ItemsOfRows(DeliveryItems, rows, cols, slugify, urljoin);
    forall it | it in TableItems(DeliveryItems, rows, cols, slugify, urljoin)
      ensures it.url == ""
    {
      var j :| 0 <= j < |rows| && RowItem(DeliveryItems, rows[j], cols, slugify, urljoin) == Some(it);
      assert CellOk(rows[j][cols.name], false);
      DeliveryItemUrl(rows[j], cols, slugify, urljoin);
    }
  }

  lemma FoundRowsNoLinks(tables: seq<Table>, required: set<string>)
    requires forall i :: 0 <= i < |tables| ==> TableOk(tables[i], false)
    requires FindTable(tables, required).Some?
    ensures forall j :: 0 <= j < |FindTable(tables, required).value.1| ==>
      RowOk(FindTable(tables, required).value.1[j], false)
  {
    var t := FindTable(tables, required).value;
    var k :| 0 <= k < |tables| && TableMatches(tables[k], required) && t == (tables[k][0], tables[k][1..]);
    assert TableOk(tables[k], false);
    assert forall j :: 0 <= j < |t.1| ==> t.1[j] == tables[k][j + 1];
  }

  /** Without anchor tags on the delivery page every item's url is empty. */
  lemma DeliveryUrlsNeedAnchors(toks: seq<Token>, slugify: string -> string, urljoin: (string, string) -> string)
    requires forall i :: 0 <= i < |toks| ==> !IsAnchorStart(toks[i])
    ensures ParseItems(DeliveryItems, toks, slugify, urljoin).Success? ==>
      forall it :: it in ParseItems(DeliveryItems, toks, slugify, urljoin).value ==> it.url == ""
  {
    var tables := ParseTables(toks, true);
    NoAnchorNoLinks(toks, true);
    var t := FindTable(tables, RequiredHeaders);
    if t.Some? {
      FoundRowsNoLinks(tables, RequiredHeaders);
      DeliveryRowsWithoutLinks(t.value.1, ColumnsOf(DeliveryItems, t.value.0), slugify, urljoin);
    }
  }

  // ---- write_resource and the refresh with snapshot fallback ----

  /** `key=lambda item: item["name"].lower()`. */
  predicate NameKeyLe(a: ResourceItem, b: ResourceItem) {
    StrLe(Lower(a.name), Lower(b.name))
  }

  lemma NameKeyLeTotal()
    ensures TotalPreorder(NameKeyLe)
  {
    StrLeTotalPreorder();
    forall a: ResourceItem, b: ResourceItem
      ensures NameKeyLe(a, b) || NameKeyLe(b, a)
    {
      assert StrLe(Lower(a.name), Lower(b.name)) || StrLe(Lower(b.name), Lower(a.name));
    }
    forall a: ResourceItem, b: ResourceItem, c: ResourceItem | NameKeyLe(a, b) && NameKeyLe(b, c)
      ensures NameKeyLe(a, c)
    {
      assert StrLe(Lower(a.name), Lower(b.name)) && StrLe(Lower(b.name), Lower(c.name));
    }
  }

  datatype ResourceSource = ResourceSource(name: string, url: string, fetchedAt: string)

  /** The JSON document a resource file holds. */
  datatype Resource = Resource(version: int, source: ResourceSource, items: seq<ResourceItem>)

  function SourceName(kind: Source): string {
    match kind
    case CreatureProducts => "TibiaWiki (Creature Products)"
    case DeliveryItems => "Tibiopedia (Delivery Items)"
  }

  function SnapshotDescription(kind: Source): string {
    match kind
    case CreatureProducts => "creature products"
    case DeliveryItems => "delivery task items"
  }

  /** `write_resource`'s payload; `fetchedAt` is the clock's ISO timestamp. */
  function ResourcePayload(kind: Source, fetchedAt: string, items: seq<ResourceItem>): Resource {
    Resource(1, ResourceSource(SourceName(kind), PageUrl(kind), fetchedAt), SortBy(items, NameKeyLe))
  }

  /** The written items are the given ones, ordered by lower-cased name. */
  lemma ResourcePayloadSorted(kind: Source, fetchedAt: string, items: seq<ResourceItem>)
    ensures SortedBy(ResourcePayload(kind, fetchedAt, items).items, NameKeyLe)
    ensures multiset(ResourcePayload(kind, fetchedAt, items).items) == multiset(items)
  {
    NameKeyLeTotal();
    SortBySorted(items, NameKeyLe);
  }

  /**
   * `refresh_creature_products` / `refresh_delivery_items`: `page` is the fetched page
   * (`None` when the fetch raised), `snapshot` the saved items (`None` when the snapshot
   * file is missing; a snapshot without "items" gives the empty list).
   */
  function RefreshResource(kind: Source, page: Option<seq<Token>>, snapshot: Option<seq<ResourceItem>>,
                           fetchedAt: string, slugify: string -> string,
                           urljoin: (string, string) -> string): Result<Resource, string> {
    var live := if page.Some? then ParseItems(kind, page.value, slugify, urljoin) else Failure("fetch failed");
    if live.Success? then Success(ResourcePayload(kind, fetchedAt, live.value))
    else if snapshot.Some? then Success(ResourcePayload(kind, fetchedAt, snapshot.value))
    else Failure("Missing snapshot for " + SnapshotDescription(kind))
  }

  /** Live items win; the snapshot is used exactly when the live page fails; a written file is always sorted. */
  lemma RefreshResourceFallback(kind: Source, page: Option<seq<Token>>, snapshot: Option<seq<ResourceItem>>,
                                fetchedAt: string, slugify: string -> string, urljoin: (string, string) -> string)
    ensures page.Some? && ParseItems(kind, page.value, slugify, urljoin).Success? ==>
      RefreshResource(kind, page, snapshot, fetchedAt, slugify, urljoin)
        == Success(ResourcePayload(kind, fetchedAt, ParseItems(kind, page.value, slugify, urljoin).value))
    ensures (page.None? || ParseItems(kind, page.value, slugify, urljoin).Failure?) ==>
      (RefreshResource(kind, page, snapshot, fetchedAt, slugify, urljoin).Success? <==> snapshot.Some?)
    ensures (page.None? || ParseItems(kind, page.value, slugify, urljoin).Failure?) && snapshot.Some? ==>
      RefreshResource(kind, page, snapshot, fetchedAt, slugify, urljoin)
        == Success(ResourcePayload(kind, fetchedAt, snapshot.value))
    ensures RefreshResource(kind, page, snapshot, fetchedAt, slugify, urljoin).Success? ==>
      && RefreshResource(kind, page, snapshot, fetchedAt, slugify, urljoin).value.version == 1
      && SortedBy(RefreshResource(kind, page, snapshot, fetchedAt, slugify, urljoin).value.items, NameKeyLe)
  {
    var r := RefreshResource(kind, page, snapshot, fetchedAt, slugify, urljoin);
    if page.Some? && ParseItems(kind, page.value, slugify, urljoin).Success? {
      ResourcePayloadSorted(kind, fetchedAt, ParseItems(kind, page.value, slugify, urljoin).value);
    } else if snapshot.Some? {
      ResourcePayloadSorted(kind, fetchedAt, snapshot.value);
    }
  }
}

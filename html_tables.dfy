/**
 * The `TableParser` of both scraping scripts, fed with the token stream Python's
 * `HTMLParser` produces (tag names arrive lower-cased), plus `find_table` and
 * `find_column`, which pick a table and a column out of what it collected.
 *
 * One parser models both copies: `captureLinks` is true for the item-resource script,
 * whose cells also remember the `href` of every `a` tag inside them, and false for the
 * market script, whose cells carry text only (their `links` stay empty).
 */
module HtmlTables {
  import opened Wrappers
  import opened PyText
  import opened Names

  datatype Attr = Attr(key: string, value: Option<string>)

  datatype Token =
    | StartTag(tag: string, attrs: seq<Attr>)
    | EndTag(tag: string)
    | Data(text: string)

  datatype HtmlCell = HtmlCell(text: string, links: seq<string>)

  type Row = seq<HtmlCell>
  type Table = seq<Row>

  predicate IsCellTag(tag: string) {
    tag == "td" || tag == "th"
  }

  /** The stripped, non-empty text fragments of a cell. */
  function Fragments(parts: seq<string>): (r: seq<string>)
    ensures forall i :: 0 <= i < |r| ==> r[i] != [] && NoEdgeSpace(r[i])
    decreases |parts|
  {
    if parts == [] then []
    else
      var rest := Fragments(parts[..|parts| - 1]);
      var p := Strip(parts[|parts| - 1]);
      if p != [] then rest + [p] else rest
  }

  /** `" ".join(part.strip() for part in parts if part.strip())`. */
  function CellText(parts: seq<string>): string {
    Join(" ", Fragments(parts))
  }

  /** The values of the truthy `href` attributes, in order. */
  function Hrefs(attrs: seq<Attr>): (r: seq<string>)
    ensures forall i :: 0 <= i < |r| ==> r[i] != []
    decreases |attrs|
  {
    if attrs == [] then []
    else
      var rest := Hrefs(attrs[..|attrs| - 1]);
      var a := attrs[|attrs| - 1];
      if a.key == "href" && a.value.Some? && a.value.value != [] then rest + [a.value.value] else rest
  }

  /** Every field of the Python parser object. */
  datatype ParserState = ParserState(
    tables: seq<Table>,
    inTable: bool,
    inRow: bool,
    inCell: bool,
    currentTable: Table,
    currentRow: Row,
    cellText: seq<string>,
    cellLinks: seq<string>)

  function Initial(): ParserState {
    ParserState([], false, false, false, [], [], [], [])
  }

  /** `handle_starttag`. */
  function StartTagStep(st: ParserState, tag: string, attrs: seq<Attr>, captureLinks: bool): ParserState {
    var s1 := if tag == "table" then st.(inTable := true, currentTable := []) else st;
    if !s1.inTable then s1
    else if tag == "tr" then s1.(inRow := true, currentRow := [])
    else if IsCellTag(tag) && s1.inRow then s1.(inCell := true, cellText := [], cellLinks := [])
    else if captureLinks && tag == "a" && s1.inCell then s1.(cellLinks := s1.cellLinks + Hrefs(attrs))
    else s1
  }

  /** `handle_data`. */
  function DataStep(st: ParserState, data: string): ParserState {
    if st.inCell then st.(cellText := st.cellText + [data]) else st
  }

  /** `handle_endtag`. */
  function EndTagStep(st: ParserState, tag: string): ParserState {
    if tag == "table" && st.inTable then
      st.(inTable := false,
          tables := if st.currentTable != [] then st.tables + [st.currentTable] else st.tables,
          currentTable := [])
    else if tag == "tr" && st.inRow then
      st.(inRow := false,
          currentTable := if st.currentRow != [] then st.currentTable + [st.currentRow] else st.currentTable,
          currentRow := [])
    else if IsCellTag(tag) && st.inCell then
      st.(inCell := false,
          currentRow := st.currentRow + [HtmlCell(CellText(st.cellText), st.cellLinks)],
          cellText := [],
          cellLinks := [])
    else st
  }

  function Step(st: ParserState, tok: Token, captureLinks: bool): ParserState {
    match tok
    case StartTag(tag, attrs) => StartTagStep(st, tag, attrs, captureLinks)
    case EndTag(tag) => EndTagStep(st, tag)
    case Data(text) => DataStep(st, text)
  }

  /** The state after feeding `toks`, one token at a time. */
  function Run(st: ParserState, toks: seq<Token>, captureLinks: bool): ParserState
    decreases |toks|
  {
    if toks == [] then st
    else Step(Run(st, toks[..|toks| - 1], captureLinks), toks[|toks| - 1], captureLinks)
  }

  /** `parse_tables`: the tables a fresh parser has collected after the whole stream. */
  function ParseTables(toks: seq<Token>, captureLinks: bool): seq<Table> {
    Run(Initial(), toks, captureLinks).tables
  }

  class TableParser {
    const captureLinks: bool
    var tables: seq<Table>
    var inTable: bool
    var inRow: bool
    var inCell: bool
    var currentTable: Table
    var currentRow: Row
    var cellText: seq<string>
    var cellLinks: seq<string>

    function State(): ParserState
      reads this
    {
      ParserState(tables, inTable, inRow, inCell, currentTable, currentRow, cellText, cellLinks)
    }

    constructor(captureLinks: bool)
      ensures this.captureLinks == captureLinks && State() == Initial()
    {
      this.captureLinks := captureLinks;
      tables := [];
      inTable := false;
      inRow := false;
      inCell := false;
      currentTable := [];
      currentRow := [];
      cellText := [];
      cellLinks := [];
    }

    method HandleStartTag(tag: string, attrs: seq<Attr>)
      modifies this
      ensures State() == StartTagStep(old(State()), tag, attrs, captureLinks)
    {
      if tag == "table" {
        inTable := true;
        currentTable := [];
      }
      if !inTable {
        return;
      }
      if tag == "tr" {
        inRow := true;
        currentRow := [];
      } else if IsCellTag(tag) && inRow {
        inCell := true;
        cellText := [];
        cellLinks := [];
      } else if captureLinks && tag == "a" && inCell {
        var links := cellLinks;
        var i := 0;
        while i < |attrs|
          invariant 0 <= i <= |attrs|
          invariant links == cellLinks + Hrefs(attrs[..i])
        {
          var a := attrs[i];
          assert attrs[..i + 1][..i] == attrs[..i];
          if a.key == "href" && a.value.Some? && a.value.value != [] {
            links := links + [a.value.value];
          }
          i := i + 1;
        }
        assert attrs[..i] == attrs;
        cellLinks := links;
      }
    }

    method HandleData(data: string)
      modifies this
      ensures State() == DataStep(old(State()), data)
    {
      if inCell {
        cellText := cellText + [data];
      }
    }

    method HandleEndTag(tag: string)
      modifies this
      ensures State() == EndTagStep(old(State()), tag)
    {
      if tag == "table" && inTable {
        inTable := false;
        if currentTable != [] {
          tables := tables + [currentTable];
        }
        currentTable := [];
      } else if tag == "tr" && inRow {
        inRow := false;
        if currentRow != [] {
          currentTable := currentTable + [currentRow];
        }
        currentRow := [];
      } else if IsCellTag(tag) && inCell {
        inCell := false;
        var text := CellText(cellText);
        currentRow := currentRow + [HtmlCell(text, cellLinks)];
        cellText := [];
        cellLinks := [];
      }
    }

    /** `feed`: dispatches every token to its handler. */
    method Feed(toks: seq<Token>)
      modifies this
      ensures State() == Run(old(State()), toks, captureLinks)
    {
      for i := 0 to |toks|
        invariant State() == Run(old(State()), toks[..i], captureLinks)
      {
        assert toks[..i + 1][..i] == toks[..i];
        match toks[i]
        case StartTag(tag, attrs) => HandleStartTag(tag, attrs);
        case EndTag(tag) => HandleEndTag(tag);
        case Data(text) => HandleData(text);
      }
      assert toks[..|toks|] == toks;
    }
  }

  /** `parse_tables`: a fresh parser fed the whole stream. */
  method ParseTablesOf(toks: seq<Token>, captureLinks: bool) returns (tables: seq<Table>)
    ensures tables == ParseTables(toks, captureLinks)
  {
    var parser := new TableParser(captureLinks);
    parser.Feed(toks);
    tables := parser.tables;
  }

  // ---- What every collected table looks like ----

  /** A cell's text has no edge whitespace; links are non-empty, and absent unless captured. */
  predicate CellOk(c: HtmlCell, withLinks: bool) {
    NoEdgeSpace(c.text)
    && (forall i :: 0 <= i < |c.links| ==> c.links[i] != [])
    && (!withLinks ==> c.links == [])
  }

  predicate RowOk(r: Row, withLinks: bool) {
    forall i :: 0 <= i < |r| ==> CellOk(r[i], withLinks)
  }

  predicate TableOk(t: Table, withLinks: bool) {
    forall i :: 0 <= i < |t| ==> t[i] != [] && RowOk(t[i], withLinks)
  }

  predicate StateOk(st: ParserState, withLinks: bool) {
    && (forall i :: 0 <= i < |st.tables| ==> st.tables[i] != [] && TableOk(st.tables[i], withLinks))
    && TableOk(st.currentTable, withLinks)
    && RowOk(st.currentRow, withLinks)
    && (forall i :: 0 <= i < |st.cellLinks| ==> st.cellLinks[i] != [])
    && (!withLinks ==> st.cellLinks == [])
  }

  predicate IsAnchorStart(tok: Token) {
    tok.StartTag? && tok.tag == "a"
  }

  lemma {:induction false} JoinNoEdgeSpace(parts: seq<string>)
    requires forall i :: 0 <= i < |parts| ==> parts[i] != [] && NoEdgeSpace(parts[i])
    ensures NoEdgeSpace(Join(" ", parts))
    decreases |parts|
  {
    if |parts| > 1 {
      JoinNoEdgeSpace(parts[1..]);
      var rest := Join(" ", parts[1..]);
      var j := parts[0] + " " + rest;
      assert j[0] == parts[0][0];
      if rest == [] {
        assert j[|j| - 1] == ' ';
        JoinNonEmpty(parts[1..]);
      } else {
        assert j[|j| - 1] == rest[|rest| - 1];
      }
    }
  }

  lemma {:induction false} JoinNonEmpty(parts: seq<string>)
    requires parts != [] && parts[0] != []
    ensures Join(" ", parts) != []
  {
  }

  lemma StartTagStepOk(st: ParserState, tag: string, attrs: seq<Attr>, captureLinks: bool, withLinks: bool)
    requires StateOk(st, withLinks)
    requires withLinks || !captureLinks || tag != "a"
    ensures StateOk(StartTagStep(st, tag, attrs, captureLinks), withLinks)
  {
  }

  lemma DataStepOk(st: ParserState, text: string, withLinks: bool)
    requires StateOk(st, withLinks)
    ensures StateOk(DataStep(st, text), withLinks)
  {
  }

  lemma EndTagStepOk(st: ParserState, tag: string, withLinks: bool)
    requires StateOk(st, withLinks)
    ensures StateOk(EndTagStep(st, tag), withLinks)
  {
    if !(tag == "table" && st.inTable) && !(tag == "tr" && st.inRow) && IsCellTag(tag) && st.inCell {
      JoinNoEdgeSpace(Fragments(st.cellText));
      var c := HtmlCell(CellText(st.cellText), st.cellLinks);
      assert CellOk(c, withLinks);
      var row := st.currentRow + [c];
      assert RowOk(row, withLinks) by {
        forall i | 0 <= i < |row| ensures CellOk(row[i], withLinks) {
          if i < |st.currentRow| {
            assert row[i] == st.currentRow[i];
          }
        }
      }
    }
  }

  lemma StepOk(st: ParserState, tok: Token, captureLinks: bool, withLinks: bool)
    requires StateOk(st, withLinks)
    requires withLinks || !captureLinks || !IsAnchorStart(tok)
    ensures StateOk(Step(st, tok, captureLinks), withLinks)
  {
    match tok
    case StartTag(tag, attrs) => StartTagStepOk(st, tag, attrs, captureLinks, withLinks);
    case Data(text) => DataStepOk(st, text, withLinks);
    case EndTag(tag) => EndTagStepOk(st, tag, withLinks);
  }

  lemma {:induction false} RunOk(st: ParserState, toks: seq<Token>, captureLinks: bool, withLinks: bool)
    requires StateOk(st, withLinks)
    requires withLinks || !captureLinks || forall i :: 0 <= i < |toks| ==> !IsAnchorStart(toks[i])
    ensures StateOk(Run(st, toks, captureLinks), withLinks)
    decreases |toks|
  {
    if toks != [] {
      RunOk(st, toks[..|toks| - 1], captureLinks, withLinks);
      StepOk(Run(st, toks[..|toks| - 1], captureLinks), toks[|toks| - 1], captureLinks, withLinks);
    }
  }

  /**
   * No empty table and no empty row is recorded; cell text is stripped; every link is a
   * non-empty `href`, and there are none unless links are captured.
   */
  lemma ParseTablesShape(toks: seq<Token>, captureLinks: bool)
    ensures forall i :: 0 <= i < |ParseTables(toks, captureLinks)| ==>
      ParseTables(toks, captureLinks)[i] != [] && TableOk(ParseTables(toks, captureLinks)[i], captureLinks)
  {
    RunOk(Initial(), toks, captureLinks, captureLinks);
  }

  /** Links come only from `a` tags: without one, every cell's link list is empty. */
  lemma NoAnchorNoLinks(toks: seq<Token>, captureLinks: bool)
    requires forall i :: 0 <= i < |toks| ==> !IsAnchorStart(toks[i])
    ensures forall i :: 0 <= i < |ParseTables(toks, captureLinks)| ==> TableOk(ParseTables(toks, captureLinks)[i], false)
  {
    RunOk(Initial(), toks, captureLinks, false);
  }

  predicate HasNoStart(toks: seq<Token>, tag: string) {
    forall i :: 0 <= i < |toks| ==> !(toks[i].StartTag? && toks[i].tag == tag)
  }

  lemma {:induction false} RunNoRows(toks: seq<Token>, captureLinks: bool)
    requires HasNoStart(toks, "tr")
    ensures var st := Run(Initial(), toks, captureLinks);
      st.tables == [] && st.currentTable == [] && st.currentRow == [] && !st.inRow && !st.inCell
    decreases |toks|
  {
    if toks != [] {
      RunNoRows(toks[..|toks| - 1], captureLinks);
    }
  }

  /** Cells are collected only inside rows: a stream without `tr` yields no table. */
  lemma NoRowNoTables(toks: seq<Token>, captureLinks: bool)
    requires HasNoStart(toks, "tr")
    ensures ParseTables(toks, captureLinks) == []
  {
    RunNoRows(toks, captureLinks);
  }

  lemma {:induction false} RunNoTable(toks: seq<Token>, captureLinks: bool)
    requires HasNoStart(toks, "table")
    ensures var st := Run(Initial(), toks, captureLinks); st.tables == [] && !st.inTable
    decreases |toks|
  {
    if toks != [] {
      RunNoTable(toks[..|toks| - 1], captureLinks);
    }
  }

  /** Rows are collected only inside tables: a stream without `table` yields no table. */
  lemma NoTableTagNoTables(toks: seq<Token>, captureLinks: bool)
    requires HasNoStart(toks, "table")
    ensures ParseTables(toks, captureLinks) == []
  {
    RunNoTable(toks, captureLinks);
  }

  // ---- find_table / find_column ----

  /** `{normalize_header(cell.text) for cell in headers}`. */
  function HeaderNames(headers: Row): set<string> {
    set i | 0 <= i < |headers| :: NormalizeHeader(headers[i].text)
  }

  predicate TableMatches(t: Table, required: set<string>) {
    t != [] && required <= HeaderNames(t[0])
  }

  /** `find_table`: the header row and the remaining rows of the first matching table. */
  function FindTable(tables: seq<Table>, required: set<string>): (r: Option<(Row, seq<Row>)>)
    ensures r.None? <==> forall k :: 0 <= k < |tables| ==> !TableMatches(tables[k], required)
    ensures r.Some? ==>
      exists k :: 0 <= k < |tables| && TableMatches(tables[k], required)
        && (forall j :: 0 <= j < k ==> !TableMatches(tables[j], required))
        && r.value == (tables[k][0], tables[k][1..])
    decreases |tables|
  {
    if tables == [] then None
    else if TableMatches(tables[0], required) then Some((tables[0][0], tables[0][1..]))
    else
      var r := FindTable(tables[1..], required);
      FoundShift(tables, required, r);
      r
  }

  /** A match found after a non-matching first table is the first match of the whole list. */
  lemma FoundShift(tables: seq<Table>, required: set<string>, r: Option<(Row, seq<Row>)>)
    requires tables != [] && !TableMatches(tables[0], required)
    requires r.None? <==> forall k :: 0 <= k < |tables[1..]| ==> !TableMatches(tables[1..][k], required)
    requires r.Some? ==>
      exists k :: 0 <= k < |tables[1..]| && TableMatches(tables[1..][k], required)
        && (forall j :: 0 <= j < k ==> !TableMatches(tables[1..][j], required))
        && r.value == (tables[1..][k][0], tables[1..][k][1..])
    ensures r.None? <==> forall k :: 0 <= k < |tables| ==> !TableMatches(tables[k], required)
    ensures r.Some? ==>
      exists k :: 0 <= k < |tables| && TableMatches(tables[k], required)
        && (forall j :: 0 <= j < k ==> !TableMatches(tables[j], required))
        && r.value == (tables[k][0], tables[k][1..])
  {
    var rest := tables[1..];
    assert forall k :: 1 <= k < |tables| ==> tables[k] == rest[k - 1];
    if r.Some? {
      var k :| 0 <= k < |rest| && TableMatches(rest[k], required)
        && (forall j :: 0 <= j < k ==> !TableMatches(rest[j], required))
        && r.value == (rest[k][0], rest[k][1..]);
      assert tables[k + 1] == rest[k];
      forall j | 0 <= j < k + 1
        ensures !TableMatches(tables[j], required)
      {
        if j > 0 {
          assert tables[j] == rest[j - 1];
        }
      }
    }
  }

  /** Whether some candidate occurs in the text: `any(c in text for c in candidates)`. */
  predicate ContainsAny(text: string, candidates: seq<string>)
    decreases |candidates|
  {
    candidates != [] && (Contains(text, candidates[0]) || ContainsAny(text, candidates[1..]))
  }

  /** `ContainsAny` holds exactly when some candidate occurs in the text. */
  lemma {:induction false} ContainsAnyMeaning(text: string, candidates: seq<string>)
    ensures ContainsAny(text, candidates) <==> exists c :: c in candidates && Contains(text, c)
    decreases |candidates|
  {
    if candidates != [] {
      var rest := candidates[1..];
      ContainsAnyMeaning(text, rest);
      if Contains(text, candidates[0]) {
        assert candidates[0] in candidates;
      } else if ContainsAny(text, rest) {
        var c :| c in rest && Contains(text, c);
        assert c in candidates;
      } else {
        forall c | c in candidates
          ensures !Contains(text, c)
        {
          if c != candidates[0] {
            assert c in rest;
          }
        }
      }
    }
  }

  /** The normalized header contains one of the candidates. */
  predicate HeaderHasAny(h: HtmlCell, candidates: seq<string>) {
    ContainsAny(NormalizeHeader(h.text), candidates)
  }

  function FindColumnFrom(headers: Row, candidates: seq<string>, i: nat): (r: Option<nat>)
    requires i <= |headers|
    ensures r.Some? ==> i <= r.value < |headers| && HeaderHasAny(headers[r.value], candidates)
    ensures r.Some? ==> forall j :: i <= j < r.value ==> !HeaderHasAny(headers[j], candidates)
    ensures r.None? ==> forall j :: i <= j < |headers| ==> !HeaderHasAny(headers[j], candidates)
    decreases |headers| - i
  {
    if i == |headers| then None
    else if HeaderHasAny(headers[i], candidates) then Some(i)
    else FindColumnFrom(headers, candidates, i + 1)
  }

  /** `find_column`: the first header containing any candidate, or `None`. */
  function FindColumn(headers: Row, candidates: seq<string>): (r: Option<nat>)
    ensures r.Some? ==> r.value < |headers| && HeaderHasAny(headers[r.value], candidates)
    ensures r.Some? ==> forall j :: 0 <= j < r.value ==> !HeaderHasAny(headers[j], candidates)
    ensures r.None? <==> forall j :: 0 <= j < |headers| ==> !HeaderHasAny(headers[j], candidates)
  {
    FindColumnFrom(headers, candidates, 0)
  }

  /** `find_column(...) or default`: Python's `or` also replaces a found index 0. */
  function ColumnOr(r: Option<nat>, default: nat): (k: nat)
    ensures r.Some? && r.value != 0 ==> k == r.value
    ensures (r.None? || r.value == 0) ==> k == default
  {
    if r.Some? && r.value != 0 then r.value else default
  }

  /** `find_column(...) or None`: a column found at index 0 counts as missing. */
  function ColumnOrNone(r: Option<nat>): (k: Option<nat>)
    ensures k.Some? <==> r.Some? && r.value != 0
    ensures k.Some? ==> k == r
  {
    if r.Some? && r.value != 0 then r else None
  }
}

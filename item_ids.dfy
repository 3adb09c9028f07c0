/**
 * The name-to-id mapping read from the saved "Item IDs" wiki table, shared by the
 * market refresh (`fetch_item_ids`) and the one-shot back-fill script (`load_item_ids`,
 * `find_item_id_table`), the alias table both scripts add, and the back-fill itself
 * (`apply_ids_to_items`).
 */
module ItemIds {
  import opened Wrappers
  import opened PyText
  import opened PyJson
  import opened Names
  import opened HtmlTables
  import opened Catalog

  // ---- The id column ----

  /** `find_column(headers, ["name", "item"]) or 0`. */
  function NameColumn(headers: Row): nat {
    ColumnOr(FindColumn(headers, ["name", "item"]), 0)
  }

  /** `find_column(headers, ["item id", "id"]) or 1`, as written: a match at index 0 also becomes 1. */
  function IdColumnAsWritten(headers: Row): (k: nat)
    ensures k != 0
    ensures k != 1 ==> k < |headers| && HeaderHasAny(headers[k], ["item id", "id"])
  {
    ColumnOr(FindColumn(headers, ["item id", "id"]), 1)
  }

  /** The id column as evidently intended: the first id-like header, and column 1 only when there is none. */
  function IdColumn(headers: Row): (k: nat)
    ensures (exists j :: 0 <= j < |headers| && HeaderHasAny(headers[j], ["item id", "id"])) ==>
      k < |headers| && HeaderHasAny(headers[k], ["item id", "id"])
      && forall j :: 0 <= j < k ==> !HeaderHasAny(headers[j], ["item id", "id"])
    ensures (forall j :: 0 <= j < |headers| ==> !HeaderHasAny(headers[j], ["item id", "id"])) ==> k == 1
  {
    match FindColumn(headers, ["item id", "id"])
    case Some(k) => k
    case None => 1
  }

  /** The two agree except when the first id-like header is column 0. */
  lemma IdColumnsAgree(headers: Row)
    requires FindColumn(headers, ["item id", "id"]) != Some(0)
    ensures IdColumnAsWritten(headers) == IdColumn(headers)
  {
  }

  /** A table whose first column is the id column: `ID | Item`. */
  function IdFirstHeaders(): Row {
    [HtmlCell("ID", []), HtmlCell("Item", [])]
  }

  lemma HeaderIdNormalized()
    ensures NormalizeHeader("ID") == "id"
  {
    StripNoop("ID");
    assert Lower("ID") == "id";
    CollapseNoop("id");
  }

  lemma HeaderItemNormalized()
    ensures NormalizeHeader("Item") == "item"
  {
    StripNoop("Item");
    assert Lower("Item") == "item";
    CollapseNoop("item");
  }

  lemma IdFirstHeaderMatches()
    ensures HeaderHasAny(IdFirstHeaders()[0], ["item id", "id"])
    ensures !HeaderHasAny(IdFirstHeaders()[0], ["name", "item"])
    ensures HeaderHasAny(IdFirstHeaders()[1], ["name", "item"])
  {
    HeaderIdNormalized();
    HeaderItemNormalized();
    assert "id" <= "id";
    assert Contains("id", "id");
    NoContains("id", "name");
    NoContains("id", "item");
    assert "item" <= "item";
    assert Contains("item", "item");
  }

  lemma IdFirstColumns()
    ensures FindColumn(IdFirstHeaders(), ["item id", "id"]) == Some(0)
    ensures NameColumn(IdFirstHeaders()) == 1
  {
    IdFirstHeaderMatches();
  }

  lemma FooHasNoDigit()
    ensures Strip("Foo") == "Foo" && FirstDigitRun("Foo").None?
  {
    StripNoop("Foo");
    var foo := "Foo";
    assert forall i :: 0 <= i < |foo| ==> !IsDigit(foo[i]);
  }

  /**
   * As written, the `ID | Item` table reads ids from the name column: the row `17 | Foo`
   * is skipped, where the intended column gives it the id 17.
   */
  lemma IdColumnAsWrittenMisses()
    ensures IdColumnAsWritten(IdFirstHeaders()) == 1 && IdColumn(IdFirstHeaders()) == 0
    ensures RowEntry([HtmlCell("17", []), HtmlCell("Foo", [])], NameColumn(IdFirstHeaders()),
                     IdColumnAsWritten(IdFirstHeaders())).None?
  {
    IdFirstColumns();
    FooHasNoDigit();
  }

  /** A needle longer than the haystack is never contained in it. */
  lemma {:induction false} NoContains(h: string, n: string)
    requires |h| < |n|
    ensures !Contains(h, n)
    decreases |h|
  {
    if h != [] {
      NoContains(h[1..], n);
    }
  }

  // ---- Reading the table ----

  /**
   * One row's contribution: the name key and the first run of digits of the id cell. Rows
   * too short for either column, with an empty name or id cell, or without a digit are skipped.
   */
  function RowEntry(row: Row, nameIdx: nat, idIdx: nat): Option<(string, int)> {
    if nameIdx >= |row| || idIdx >= |row| then None
    else
      var name := Strip(row[nameIdx].text);
      var rawId := Strip(row[idIdx].text);
      if name == [] || rawId == [] then None
      else match FirstDigitRun(rawId)
        case None => None
        case Some(v) => Some((NormalizeName(name), v))
  }

  /** A row is accepted exactly when both cells exist, the name is not blank and the id cell holds a digit. */
  lemma RowEntryAccepts(row: Row, nameIdx: nat, idIdx: nat)
    ensures RowEntry(row, nameIdx, idIdx).Some? ==>
      && nameIdx < |row| && idIdx < |row| && Strip(row[nameIdx].text) != []
      && RowEntry(row, nameIdx, idIdx).value.0 == NormalizeName(row[nameIdx].text)
      && FirstDigitRun(Strip(row[idIdx].text)).Some?
      && FirstDigitRun(Strip(row[idIdx].text)).value == RowEntry(row, nameIdx, idIdx).value.1
    ensures
      (&& nameIdx < |row| && idIdx < |row| && Strip(row[nameIdx].text) != []
       && FirstDigitRun(Strip(row[idIdx].text)).Some?) ==> RowEntry(row, nameIdx, idIdx).Some?
  {
    if nameIdx < |row| {
      StripIdempotentName(row[nameIdx].text);
    }
  }

  lemma StripIdempotentName(v: string)
    ensures NormalizeName(Strip(v)) == NormalizeName(v)
  {
    StripIdempotent(v);
  }

  /** One row's effect on the dictionary. */
  function AddEntry(m: map<string, int>, e: Option<(string, int)>): map<string, int> {
    match e
    case Some(kv) => m[kv.0 := kv.1]
    case None => m
  }

  /** The dictionary the row loop fills; a later row with the same key overwrites. */
  function IdMappingOf(rows: seq<Row>, nameIdx: nat, idIdx: nat): map<string, int>
    decreases |rows|
  {
    if rows == [] then map[]
    else AddEntry(IdMappingOf(rows[..|rows| - 1], nameIdx, idIdx), RowEntry(rows[|rows| - 1], nameIdx, idIdx))
  }

  /** The row loop of `fetch_item_ids` and `load_item_ids`. */
  method ExtractIdMapping(rows: seq<Row>, nameIdx: nat, idIdx: nat) returns (mapping: map<string, int>)
    ensures mapping == IdMappingOf(rows, nameIdx, idIdx)
  {
    mapping := map[];
    for i := 0 to |rows|
      invariant mapping == IdMappingOf(rows[..i], nameIdx, idIdx)
    {
      assert rows[..i + 1][..i] == rows[..i];
      var row := rows[i];
      if nameIdx >= |row| || idIdx >= |row| {
        continue;
      }
      var name := Strip(row[nameIdx].text);
      var rawId := Strip(row[idIdx].text);
      if name == [] || rawId == [] {
        continue;
      }
      var found := FirstDigitRun(rawId);
      if found.None? {
        continue;
      }
      mapping := mapping[NormalizeName(name) := found.value];
      assert mapping == AddEntry(IdMappingOf(rows[..i], nameIdx, idIdx), RowEntry(row, nameIdx, idIdx));
    }
    assert rows[..|rows|] == rows;
  }

  /** Every key and id of the mapping comes from one accepted row. */
  lemma {:induction false} IdMappingSources(rows: seq<Row>, nameIdx: nat, idIdx: nat, k: string)
    requires k in IdMappingOf(rows, nameIdx, idIdx)
    ensures exists i :: 0 <= i < |rows| && RowEntry(rows[i], nameIdx, idIdx) == Some((k, IdMappingOf(rows, nameIdx, idIdx)[k]))
    decreases |rows|
  {
    var init := rows[..|rows| - 1];
    var e := RowEntry(rows[|rows| - 1], nameIdx, idIdx);
    var m0 := IdMappingOf(init, nameIdx, idIdx);
    assert IdMappingOf(rows, nameIdx, idIdx) == AddEntry(m0, e);
    if !(e.Some? && e.value.0 == k) {
      assert k in m0 && AddEntry(m0, e)[k] == m0[k];
      IdMappingSources(init, nameIdx, idIdx, k);
      var i :| 0 <= i < |init| && RowEntry(init[i], nameIdx, idIdx) == Some((k, m0[k]));
      assert rows[i] == init[i];
    }
  }

  /** Every accepted row's name key is in the mapping. */
  lemma {:induction false} IdMappingCovers(rows: seq<Row>, nameIdx: nat, idIdx: nat, i: nat)
    requires i < |rows| && RowEntry(rows[i], nameIdx, idIdx).Some?
    ensures RowEntry(rows[i], nameIdx, idIdx).value.0 in IdMappingOf(rows, nameIdx, idIdx)
    decreases |rows|
  {
    var init := rows[..|rows| - 1];
    var m0 := IdMappingOf(init, nameIdx, idIdx);
    var e := RowEntry(rows[|rows| - 1], nameIdx, idIdx);
    assert IdMappingOf(rows, nameIdx, idIdx) == AddEntry(m0, e);
    if i < |init| {
      assert rows[i] == init[i];
      IdMappingCovers(init, nameIdx, idIdx, i);
      assert m0.Keys <= AddEntry(m0, e).Keys;
    }
  }

  /** The header set both scripts look for. */
  const IdTableHeaders: set<string> := {"item", "id"}

  /** The mapping the written code reads from a found table: ids come from `IdColumnAsWritten`. */
  function TableIds(t: (Row, seq<Row>)): map<string, int> {
    IdMappingOf(t.1, NameColumn(t.0), IdColumnAsWritten(t.0))
  }

  /** The mapping the evidently intended code reads: ids come from `IdColumn`. */
  function IntendedTableIds(t: (Row, seq<Row>)): map<string, int> {
    IdMappingOf(t.1, NameColumn(t.0), IdColumn(t.0))
  }

  /** Both mappings are the same unless the table's first id-like header is its column 0. */
  lemma TableIdsAgree(t: (Row, seq<Row>))
    requires FindColumn(t.0, ["item id", "id"]) != Some(0)
    ensures TableIds(t) == IntendedTableIds(t)
  {
    IdColumnsAgree(t.0);
  }

  /** On the `ID | Item` table with the row `17 | Foo`, the written code reads nothing; the intended code reads Foo's id. */
  lemma TableIdsIdFirst()
    ensures TableIds((IdFirstHeaders(), [[HtmlCell("17", []), HtmlCell("Foo", [])]])) == map[]
    ensures IntendedTableIds((IdFirstHeaders(), [[HtmlCell("17", []), HtmlCell("Foo", [])]])) == map[NormalizeName("Foo") := 17]
  {
    assert NameColumn(IdFirstHeaders()) == 1 && IdColumnAsWritten(IdFirstHeaders()) == 1 && IdColumn(IdFirstHeaders()) == 0 by {
      IdFirstColumns();
      IdColumnAsWrittenMisses();
    }
    FooRowMappings([HtmlCell("17", []), HtmlCell("Foo", [])]);
  }

  /** The row `17 | Foo` read with the name in column 1: no entry from column 1, Foo's id from column 0. */
  lemma FooRowMappings(row: Row)
    requires row == [HtmlCell("17", []), HtmlCell("Foo", [])]
    ensures IdMappingOf([row], 1, 1) == map[]
    ensures IdMappingOf([row], 1, 0) == map[NormalizeName("Foo") := 17]
  {
    assert [row][..0] == [];
    FooRowNoId(row);
    FooRowId(row);
  }

  lemma FooRowNoId(row: Row)
    requires row == [HtmlCell("17", []), HtmlCell("Foo", [])]
    ensures RowEntry(row, 1, 1) == None
  {
    FooHasNoDigit();
  }

  lemma FooRowId(row: Row)
    requires row == [HtmlCell("17", []), HtmlCell("Foo", [])]
    ensures RowEntry(row, 1, 0) == Some((NormalizeName("Foo"), 17))
  {
    assert Strip(row[1].text) != [] by {
      StripNoop("Foo");
    }
    assert FirstDigitRun(Strip(row[0].text)) == Some(17) by {
      Seventeen();
    }
    RowEntryAccepts(row, 1, 0);
  }

  lemma Seventeen()
    ensures FirstDigitRun(Strip("17")) == Some(17)
  {
    StripNoop("17");
    assert DigitPrefix("17") == "17" by {
      assert DigitPrefix("7") == "7";
    }
    assert DecimalValue("17") == DecimalValue("1") * 10 + 7;
  }

  /**
   * `fetch_item_ids` of the market refresh, over the token stream of the saved dump (`None`
   * when the dump file does not exist). Unlike the back-fill script it accepts an empty mapping.
   */
  function ItemIdsFromDump(dump: Option<seq<Token>>): Result<map<string, int>, string> {
    if dump.None? then Failure("Item IDs dump not found")
    else
      match FindItemIdTable(ParseTables(dump.value, false))
      case Failure(_) => Failure("Item IDs table not found in saved dump")
      case Success(t) => Success(TableIds(t))
  }

  /** `fetch_item_ids` as evidently intended, reading ids from `IdColumn`. */
  function IntendedItemIdsFromDump(dump: Option<seq<Token>>): Result<map<string, int>, string> {
    if dump.None? then Failure("Item IDs dump not found")
    else
      match FindItemIdTable(ParseTables(dump.value, false))
      case Failure(_) => Failure("Item IDs table not found in saved dump")
      case Success(t) => Success(IntendedTableIds(t))
  }

  /**
   * The written and the intended loaders fail alike, and return the same mapping unless the
   * found table has its first id-like header at column 0.
   */
  lemma ItemIdsFromDumpAgree(dump: Option<seq<Token>>)
    ensures ItemIdsFromDump(dump).Failure? <==> IntendedItemIdsFromDump(dump).Failure?
    ensures ItemIdsFromDump(dump).Success? && FindColumn(FindTable(ParseTables(dump.value, false), IdTableHeaders).value.0, ["item id", "id"]) != Some(0)
      ==> ItemIdsFromDump(dump) == IntendedItemIdsFromDump(dump)
  {
    if dump.Some? {
      match FindItemIdTable(ParseTables(dump.value, false))
      case Failure(_) =>
      case Success(t) =>
        if FindColumn(t.0, ["item id", "id"]) != Some(0) {
          TableIdsAgree(t);
        }
    }
  }

  /**
   * The load fails exactly when there is no dump or no table with both an "item" and an
   * "id" header, and otherwise holds the mapping of the first such table.
   */
  lemma ItemIdsFromDumpMeaning(dump: Option<seq<Token>>)
    ensures ItemIdsFromDump(dump).Failure? <==> (
      || dump.None?
      || forall k :: 0 <= k < |ParseTables(dump.value, false)| ==> !TableMatches(ParseTables(dump.value, false)[k], IdTableHeaders))
    ensures ItemIdsFromDump(dump).Success? ==> exists t ::
      && FindTable(ParseTables(dump.value, false), IdTableHeaders) == Some(t)
      && ItemIdsFromDump(dump).value == IdMappingOf(t.1, NameColumn(t.0), IdColumnAsWritten(t.0))
  {
    if dump.Some? {
      var r := FindItemIdTable(ParseTables(dump.value, false));
    }
  }

  method FetchItemIds(dump: Option<seq<Token>>) returns (r: Result<map<string, int>, string>)
    ensures r == ItemIdsFromDump(dump)
  {
    if dump.None? {
      return Failure("Item IDs dump not found");
    }
    var tables := ParseTablesOf(dump.value, false);
    var table := FindTable(tables, IdTableHeaders);
    if table.None? {
      return Failure("Item IDs table not found in saved dump");
    }
    var (headers, rows) := table.value;
    var mapping := ExtractIdMapping(rows, NameColumn(headers), IdColumnAsWritten(headers));
    return Success(mapping);
  }

  /** `find_item_id_table`: the header row and the other rows, or the error it raises. */
  function FindItemIdTable(tables: seq<Table>): (r: Result<(Row, seq<Row>), string>)
    ensures r.Failure? <==> forall k :: 0 <= k < |tables| ==> !TableMatches(tables[k], IdTableHeaders)
    ensures r.Success? ==> Some(r.value) == FindTable(tables, IdTableHeaders)
  {
    match FindTable(tables, IdTableHeaders)
    case None => Failure("Item ID table not found in the provided HTML dump")
    case Some(t) => Success(t)
  }

  /** `load_item_ids` of the back-fill script, over the token stream of the dump; an empty result raises. */
  method LoadItemIds(toks: seq<Token>) returns (r: Result<map<string, int>, string>)
    ensures match FindItemIdTable(ParseTables(toks, false))
      case Failure(_) => r.Failure?
      case Success(t) =>
        var m := IdMappingOf(t.1, NameColumn(t.0), IdColumnAsWritten(t.0));
        if m == map[] then r.Failure? else r == Success(m)
  {
    var tables := ParseTablesOf(toks, false);
    var table := FindItemIdTable(tables);
    if table.Failure? {
      return Failure(table.error);
    }
    var (headers, rows) := table.value;
    var mapping := ExtractIdMapping(rows, NameColumn(headers), IdColumnAsWritten(headers));
    if mapping == map[] {
      return Failure("Failed to parse any item IDs from the HTML dump");
    }
    return Success(mapping);
  }

  /** A successful load holds at least one name, and every id is a digit run of an accepted row. */
  lemma LoadedMappingNonEmpty(toks: seq<Token>, t: (Row, seq<Row>))
    requires FindItemIdTable(ParseTables(toks, false)) == Success(t)
    requires IdMappingOf(t.1, NameColumn(t.0), IdColumnAsWritten(t.0)) != map[]
    ensures exists i :: 0 <= i < |t.1| && RowEntry(t.1[i], NameColumn(t.0), IdColumnAsWritten(t.0)).Some?
  {
    var m := IdMappingOf(t.1, NameColumn(t.0), IdColumnAsWritten(t.0));
    var k :| k in m;
    IdMappingSources(t.1, NameColumn(t.0), IdColumnAsWritten(t.0), k);
  }

  // ---- Aliases ----

  /** `(alias, canonical name)` in the order of the literal. */
  const AliasPairs: seq<(string, string)> := [
    ("Frozen Claw (Ice Horror)", "Frozen Claw"),
    ("Darklight Core", "Darklight Core (Object)"),
    ("Darklight Matter", "Darklight Matter (Object)"),
    ("Gore Horn", "Gore Horn (Item)"),
    ("Silencer Claw", "Silencer Claws")]

  /** The alias loop over `pairs`: an alias is added when its canonical name's key is mapped. */
  function AliasesFrom(pairs: seq<(string, string)>, mapping: map<string, int>): map<string, int>
    decreases |pairs|
  {
    if pairs == [] then map[]
    else
      var rest := AliasesFrom(pairs[..|pairs| - 1], mapping);
      var p := pairs[|pairs| - 1];
      var source := NormalizeName(p.1);
      if source in mapping then rest[NormalizeName(p.0) := mapping[source]] else rest
  }

  lemma {:induction false} AliasesFromSources(pairs: seq<(string, string)>, mapping: map<string, int>, k: string)
    requires k in AliasesFrom(pairs, mapping)
    ensures exists p ::
      p in pairs && k == NormalizeName(p.0) && NormalizeName(p.1) in mapping
      && AliasesFrom(pairs, mapping)[k] == mapping[NormalizeName(p.1)]
    decreases |pairs|
  {
    var init := pairs[..|pairs| - 1];
    var p := pairs[|pairs| - 1];
    if !(NormalizeName(p.1) in mapping && k == NormalizeName(p.0)) {
      AliasesFromSources(init, mapping, k);
      var q :| q in init && k == NormalizeName(q.0) && NormalizeName(q.1) in mapping
        && AliasesFrom(init, mapping)[k] == mapping[NormalizeName(q.1)];
      assert q in pairs;
    }
  }

  lemma {:induction false} AliasesFromCovers(pairs: seq<(string, string)>, mapping: map<string, int>, i: nat)
    requires i < |pairs| && NormalizeName(pairs[i].1) in mapping
    ensures NormalizeName(pairs[i].0) in AliasesFrom(pairs, mapping)
    decreases |pairs|
  {
    var init := pairs[..|pairs| - 1];
    if i < |init| {
      assert init[i] == pairs[i];
      AliasesFromCovers(init, mapping, i);
    }
  }

  /** `build_alias_mapping`, the same in both scripts. */
  function BuildAliasMapping(mapping: map<string, int>): map<string, int> {
    AliasesFrom(AliasPairs, mapping)
  }

  /**
   * An alias key appears exactly for the aliases whose canonical name resolves, and then
   * carries the id of a canonical name it is listed with.
   */
  lemma BuildAliasMappingMeaning(mapping: map<string, int>)
    ensures forall k :: k in BuildAliasMapping(mapping) ==>
      exists p :: p in AliasPairs && k == NormalizeName(p.0) && NormalizeName(p.1) in mapping
        && BuildAliasMapping(mapping)[k] == mapping[NormalizeName(p.1)]
    ensures forall i :: 0 <= i < |AliasPairs| && NormalizeName(AliasPairs[i].1) in mapping ==>
      NormalizeName(AliasPairs[i].0) in BuildAliasMapping(mapping)
  {
    forall k | k in BuildAliasMapping(mapping)
      ensures exists p ::
        p in AliasPairs && k == NormalizeName(p.0) && NormalizeName(p.1) in mapping
        && BuildAliasMapping(mapping)[k] == mapping[NormalizeName(p.1)]
    {
      AliasesFromSources(AliasPairs, mapping, k);
    }
    forall i | 0 <= i < |AliasPairs| && NormalizeName(AliasPairs[i].1) in mapping
      ensures NormalizeName(AliasPairs[i].0) in BuildAliasMapping(mapping)
    {
      AliasesFromCovers(AliasPairs, mapping, i);
    }
  }

  /** An empty mapping has no aliases. */
  lemma NoSourcesNoAliases(mapping: map<string, int>)
    requires forall p :: p in AliasPairs ==> NormalizeName(p.1) !in mapping
    ensures BuildAliasMapping(mapping) == map[]
  {
    BuildAliasMappingMeaning(mapping);
  }

  // ---- apply_ids_to_items ----

  /** `mapping.get(n) or aliases.get(n)`: a mapped id of 0 is falsy and falls through to the alias. */
  function PickId(name: string, mapping: map<string, int>, aliases: map<string, int>): (r: Option<int>)
    ensures var k := NormalizeName(name);
      && (k in mapping && mapping[k] != 0 ==> r == Some(mapping[k]))
      && ((k !in mapping || mapping[k] == 0) && k in aliases ==> r == Some(aliases[k]))
      && ((k !in mapping || mapping[k] == 0) && k !in aliases ==> r.None?)
  {
    var k := NormalizeName(name);
    var first := if k in mapping then Some(mapping[k]) else None;
    if first.Some? && first.value != 0 then first
    else if k in aliases then Some(aliases[k])
    else None
  }

  /** Python's `value == n` for a JSON value and an int (`True == 1` and `False == 0` hold). */
  predicate EqualsInt(j: Json, n: int) {
    IsInt(j) && IntValue(j) == n
  }

  function Backfill(it: CatalogItem, mapping: map<string, int>, aliases: map<string, int>): CatalogItem {
    match PickId(it.name, mapping, aliases)
    case Some(v) => if !EqualsInt(it.id, v) then it.(id := JInt(v)) else it
    case None => it
  }

  /** The list after the back-fill loop. */
  function BackfillAll(items: seq<CatalogItem>, mapping: map<string, int>, aliases: map<string, int>): (r: seq<CatalogItem>)
    ensures |r| == |items|
    decreases |items|
  {
    if items == [] then []
    else BackfillAll(items[..|items| - 1], mapping, aliases) + [Backfill(items[|items| - 1], mapping, aliases)]
  }

  /** Each item of the result is the back-fill of the item at the same position. */
  lemma {:induction false} BackfillAllAt(items: seq<CatalogItem>, mapping: map<string, int>, aliases: map<string, int>, i: nat)
    requires i < |items|
    ensures BackfillAll(items, mapping, aliases)[i] == Backfill(items[i], mapping, aliases)
    decreases |items|
  {
    if i < |items| - 1 {
      BackfillAllAt(items[..|items| - 1], mapping, aliases, i);
    }
  }

  /** How many items the back-fill changes. */
  function ChangedCount(items: seq<CatalogItem>, mapping: map<string, int>, aliases: map<string, int>): nat
    decreases |items|
  {
    if items == [] then 0
    else
      var last := items[|items| - 1];
      ChangedCount(items[..|items| - 1], mapping, aliases) + (if Backfill(last, mapping, aliases) != last then 1 else 0)
  }

  /** The loop body of `apply_ids_to_items` for one item. */
  method BackfillItem(item: CatalogItem, mapping: map<string, int>, aliases: map<string, int>)
    returns (result: CatalogItem, changed: bool)
    ensures result == Backfill(item, mapping, aliases)
    ensures changed <==> result != item
  {
    result := item;
    changed := false;
    var itemId := PickId(item.name, mapping, aliases);
    if itemId.Some? {
      if !EqualsInt(item.id, itemId.value) {
        result := item.(id := JInt(itemId.value));
        changed := true;
      }
    }
  }

  lemma ChangedCountSnoc(items: seq<CatalogItem>, mapping: map<string, int>, aliases: map<string, int>, i: nat)
    requires i < |items|
    ensures ChangedCount(items[..i + 1], mapping, aliases) ==
      ChangedCount(items[..i], mapping, aliases) + (if Backfill(items[i], mapping, aliases) != items[i] then 1 else 0)
  {
    assert items[..i + 1][..i] == items[..i];
  }

  /** `apply_ids_to_items`: sets ids in place and returns how many items changed. */
  method ApplyIdsToItems(items: array<CatalogItem>, mapping: map<string, int>, aliases: map<string, int>)
    returns (updated: nat)
    modifies items
    ensures items[..] == BackfillAll(old(items[..]), mapping, aliases)
    ensures updated == ChangedCount(old(items[..]), mapping, aliases)
  {
    ghost var before := items[..];
    updated := 0;
    for i := 0 to items.Length
      invariant forall j :: 0 <= j < i ==> items[j] == Backfill(before[j], mapping, aliases)
      invariant forall j :: i <= j < items.Length ==> items[j] == before[j]
      invariant updated == ChangedCount(before[..i], mapping, aliases)
    {
      assert items[i] == before[i];
      var item, changed := BackfillItem(items[i], mapping, aliases);
      label Pass:
      items[i] := item;
      forall j | 0 <= j <= i
        ensures items[j] == Backfill(before[j], mapping, aliases)
      {
        if j < i {
          assert items[j] == old@Pass(items[j]);
        }
      }
      assert ChangedCount(before[..i + 1], mapping, aliases) ==
        ChangedCount(before[..i], mapping, aliases) + (if changed then 1 else 0) by {
        ChangedCountSnoc(before, mapping, aliases, i);
      }
      if changed {
        updated := updated + 1;
      }
    }
    assert before[..items.Length] == before;
    BackfillAllOf(before, items[..], mapping, aliases);
  }

  /** A list holding, at every position, the back-fill of the item there is the back-filled list. */
  lemma BackfillAllOf(items: seq<CatalogItem>, after: seq<CatalogItem>, mapping: map<string, int>, aliases: map<string, int>)
    requires |after| == |items|
    requires forall j :: 0 <= j < |items| ==> after[j] == Backfill(items[j], mapping, aliases)
    ensures after == BackfillAll(items, mapping, aliases)
  {
    forall j | 0 <= j < |items|
      ensures after[j] == BackfillAll(items, mapping, aliases)[j]
    {
      BackfillAllAt(items, mapping, aliases, j);
    }
  }

  /** A back-filled item keeps its name and already holds the id it would be given. */
  lemma BackfillItemIdempotent(it: CatalogItem, mapping: map<string, int>, aliases: map<string, int>)
    ensures Backfill(Backfill(it, mapping, aliases), mapping, aliases) == Backfill(it, mapping, aliases)
  {
  }

  lemma {:induction false} BackfillAllIdempotent(items: seq<CatalogItem>, mapping: map<string, int>, aliases: map<string, int>)
    ensures BackfillAll(BackfillAll(items, mapping, aliases), mapping, aliases) == BackfillAll(items, mapping, aliases)
    decreases |items|
  {
    if items != [] {
      var init := items[..|items| - 1];
      var once := BackfillAll(items, mapping, aliases);
      BackfillAllIdempotent(init, mapping, aliases);
      BackfillItemIdempotent(items[|items| - 1], mapping, aliases);
      assert once[..|once| - 1] == BackfillAll(init, mapping, aliases);
    }
  }

  /** Back-filling is idempotent, so a second run with the same mappings reports no change. */
  lemma {:induction false} BackfillTwiceChangesNothing(items: seq<CatalogItem>, mapping: map<string, int>, aliases: map<string, int>)
    ensures ChangedCount(BackfillAll(items, mapping, aliases), mapping, aliases) == 0
    decreases |items|
  {
    if items != [] {
      var once := BackfillAll(items, mapping, aliases);
      BackfillTwiceChangesNothing(items[..|items| - 1], mapping, aliases);
      BackfillItemIdempotent(items[|items| - 1], mapping, aliases);
      assert once[..|once| - 1] == BackfillAll(items[..|items| - 1], mapping, aliases);
    }
  }

  /** An item changes exactly when an id is found that it does not already equal. */
  lemma BackfillChanges(it: CatalogItem, mapping: map<string, int>, aliases: map<string, int>)
    ensures Backfill(it, mapping, aliases) != it <==>
      PickId(it.name, mapping, aliases).Some? && !EqualsInt(it.id, PickId(it.name, mapping, aliases).value)
  {
  }
}

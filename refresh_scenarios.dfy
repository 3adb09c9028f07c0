/**
 * The two end-to-end cases of the market refresh's own test suite, stated over the model:
 * an unchanged world-data timestamp skips the refresh without any market request, and a
 * first market request answered with 429 and `Retry-After: 2` still updates all four items.
 */
module RefreshScenarios {
  import opened Wrappers
  import opened PyJson
  import opened Catalog
  import opened ItemIds
  import opened MarketValues
  import opened Fetcher
  import opened Refresh

  /** Both catalogs of the tests: Foo with id 1 and Bar with id 2, both at `gold` 0. */
  function FooBar(): seq<CatalogItem> {
    [CatalogItem("Foo", JInt(1), JInt(0)), CatalogItem("Bar", JInt(2), JInt(0))]
  }

  function WorldData(server: string, stamp: string): Json {
    JObj(map["servers" := JObj(map[server := JObj(map["last_update" := JStr(stamp)])])])
  }

  /** The stored and the remote timestamp agree: whatever the market would answer, nothing is fetched. */
  function SkipTestInputs(outcomes: nat -> BatchResult): Inputs {
    Inputs("Antica", Meta(map["Antica" := JStr("2024-01-01T00:00:00Z")], map[]),
           WorldData("Antica", "2024-01-01T00:00:00Z"), "2024-01-01T01:00:00Z",
           Some(map[]), None, outcomes)
  }

  lemma RemoteOf(server: string, stamp: string, meta: Meta, now: string, cached: Option<map<string, int>>,
                 outcomes: nat -> BatchResult)
    ensures Remote(Inputs(server, meta, WorldData(server, stamp), now, cached, None, outcomes)) == Some(stamp)
  {
    ExtractLastUpdateRoundTrip(server, stamp, map[]);
    assert map[]["servers" := JObj(map[server := JObj(map["last_update" := JStr(stamp)])])]
        == map["servers" := JObj(map[server := JObj(map["last_update" := JStr(stamp)])])];
  }

  lemma SkipTest(outcomes: nat -> BatchResult, creature: seq<CatalogItem>, delivery: seq<CatalogItem>)
    ensures RefreshOf(SkipTestInputs(outcomes), creature, delivery).summary == Some(Skipped)
    ensures RefreshOf(SkipTestInputs(outcomes), creature, delivery)
         == RefreshOf(SkipTestInputs(k => Crashed), creature, delivery)
  {
    var inp := SkipTestInputs(outcomes);
    RemoteOf(inp.server, "2024-01-01T00:00:00Z", inp.meta, inp.stamp, inp.cachedIds, outcomes);
    RefreshSkips(inp, creature, delivery, SkipTestInputs(k => Crashed));
  }

  /** Every batch is answered the way the fetcher's retry scenario ends: 429 first, then the payload. */
  function RetryOutcome(k: nat): BatchResult {
    Attempts(Env(0.0, None, [], 0, 0), 1, 0.0, ScenarioReplies, ScenarioDraws).0
  }

  function RetryTestInputs(): Inputs {
    Inputs("Antica", Meta(map[], map[]), WorldData("Antica", "2024-02-01T00:00:00Z"), "2024-02-01T01:00:00Z",
           Some(map[]), None, RetryOutcome)
  }

  lemma RetryOutcomeValues(k: nat)
    ensures RetryOutcome(k) == Values(map[1 := 10, 2 := 0])
  {
    RetryScenario();
  }

  lemma FooBarIds(items: seq<CatalogItem>)
    requires items == FooBar()
    ensures AssignIds(items, map[]) == items
    ensures JointIds(items, items, map[]) == [1, 2]
    ensures Batches([1, 2]) == [[1, 2]]
  {
    assert AssignIds(items, map[]) == items;
    assert items[..1] == [items[0]];
    assert HeldIds(items[..1]) == [1];
    assert HeldIds(items) == [1, 2];
    SortedUniqueIsSortedSet([1, 2] + [1, 2], [1, 2]);
  }

  lemma OneBatch(outcomes: nat -> BatchResult, values: map<int, int>)
    requires outcomes(0) == Values(values)
    ensures BatchLoop([[1, 2]], 1, outcomes) == Some(Totals(values, {1, 2}, 0, 1, []))
  {
    var ts := Totals(map[], {}, 0, 0, []);
    assert BatchLoop([[1, 2]], 0, outcomes) == Some(ts);
    assert Elems([1, 2]) == {1, 2};
    assert ts.values + values == values;
    assert ts.processed + Elems([1, 2]) == {1, 2};
  }

  lemma FooBarPriced(items: seq<CatalogItem>, values: map<int, int>, processed: set<int>)
    requires items == FooBar() && values == map[1 := 10, 2 := 0] && processed == {1, 2}
    ensures TallyOf(items, map[], Some(values), Some(processed)) == Tally(2, 0, 0)
    ensures PriceAll(items, map[], Some(values), Some(processed))
         == [CatalogItem("Foo", JInt(1), JInt(10)), CatalogItem("Bar", JInt(2), JInt(0))]
  {
    assert items[..1] == [items[0]];
    assert Effect(items[0], map[], Some(values), Some(processed)) == Priced;
    assert Effect(items[1], map[], Some(values), Some(processed)) == Priced;
  }

  /** With the answered batch processed, both catalogs are written and every item counts as updated. */
  lemma FooBarSettles(inp: Inputs, creature: seq<CatalogItem>, delivery: seq<CatalogItem>, t: Totals)
    requires creature == FooBar() && delivery == FooBar() && t == Totals(map[1 := 10, 2 := 0], {1, 2}, 0, 1, [])
    ensures var r := Settle(inp, creature, delivery, map[], t);
      && r.summary == Some(Refreshed(4, 0, 0, 1, 0))
      && r.savedCatalogs
      && r.creature == [CatalogItem("Foo", JInt(1), JInt(10)), CatalogItem("Bar", JInt(2), JInt(0))]
  {
    FooBarPriced(creature, t.values, t.processed);
    FooBarPriced(delivery, t.values, t.processed);
  }

  /** The shape of the test's run: past the gate with the empty cached mapping, one answered batch. */
  predicate AnsweredTestRun(inp: Inputs, creature: seq<CatalogItem>, delivery: seq<CatalogItem>) {
    && inp.server == "Antica" && inp.meta == Meta(map[], map[]) && inp.cachedIds == Some(map[])
    && inp.worldData == WorldData("Antica", "2024-02-01T00:00:00Z")
    && inp.outcomes(0) == Values(map[1 := 10, 2 := 0])
    && creature == FooBar() && delivery == FooBar()
  }

  /** The test run reduces to the price write with the one answered batch. */
  lemma AnsweredTestSettles(inp: Inputs, creature: seq<CatalogItem>, delivery: seq<CatalogItem>)
    requires AnsweredTestRun(inp, creature, delivery)
    ensures RefreshOf(inp, creature, delivery)
         == Settle(inp, creature, delivery, map[], Totals(map[1 := 10, 2 := 0], {1, 2}, 0, 1, [])).(idsCache := None)
  {
    var t := Totals(map[1 := 10, 2 := 0], {1, 2}, 0, 1, []);
    AnsweredTestMapping(inp, creature, delivery);
    AnsweredTestLoop(inp, creature, delivery, t);
  }

  /** The test run is past the timestamp gate, with the empty cached mapping and no aliases. */
  lemma AnsweredTestMapping(inp: Inputs, creature: seq<CatalogItem>, delivery: seq<CatalogItem>)
    requires inp.meta == Meta(map[], map[]) && inp.cachedIds == Some(map[])
    ensures RefreshOf(inp, creature, delivery) == RefreshWith(inp, creature, delivery, map[]).(idsCache := None)
  {
    assert !UpToDate(inp);
    NoSourcesNoAliases(map[]);
    assert WithAliases(map[]) == map[];
    RefreshPastMapping(inp, creature, delivery, map[], map[]);
  }

  /** The test run's one batch is answered, so the loop ends with both ids processed. */
  lemma AnsweredTestLoop(inp: Inputs, creature: seq<CatalogItem>, delivery: seq<CatalogItem>, t: Totals)
    requires AnsweredTestRun(inp, creature, delivery) && t == Totals(map[1 := 10, 2 := 0], {1, 2}, 0, 1, [])
    ensures RefreshWith(inp, creature, delivery, map[]) == Settle(inp, creature, delivery, map[], t)
  {
    FooBarIds(creature);
    OneBatch(inp.outcomes, t.values);
    RefreshPastLoop(inp, creature, delivery, map[], t);
  }

  /**
   * Two catalogs of two items each, the first batch answered with `{1: 10, 2: 0}` (the
   * `-1` offer already mapped to 0): all four items are processed, so `updated_items == 4`.
   */
  lemma AnsweredBatchUpdatesFour(inp: Inputs, creature: seq<CatalogItem>, delivery: seq<CatalogItem>)
    requires AnsweredTestRun(inp, creature, delivery)
    ensures var r := RefreshOf(inp, creature, delivery);
      && r.summary == Some(Refreshed(4, 0, 0, 1, 0))
      && r.savedCatalogs
      && r.creature == [CatalogItem("Foo", JInt(1), JInt(10)), CatalogItem("Bar", JInt(2), JInt(0))]
  {
    var t := Totals(map[1 := 10, 2 := 0], {1, 2}, 0, 1, []);
    AnsweredTestSettles(inp, creature, delivery);
    FooBarSettles(inp, creature, delivery, t);
  }

  /** The test's own run: the retried first request leaves every batch answered with `{1: 10, 2: 0}`. */
  lemma RetryTestUpdatesFour(inp: Inputs, items: seq<CatalogItem>)
    requires inp == RetryTestInputs() && items == FooBar()
    ensures RefreshOf(inp, items, items).summary == Some(Refreshed(4, 0, 0, 1, 0))
  {
    RetryOutcomeValues(0);
    assert AnsweredTestRun(inp, items, items);
    AnsweredBatchUpdatesFour(inp, items, items);
  }
}

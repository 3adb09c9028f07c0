/**
 * `_refresh_server_impl` of the market refresher: the freshness gate on the world data,
 * the name-to-id mapping (cache or saved dump, plus aliases), the id back-fill of both
 * catalogs, the batches of 100 ids, the price write and the refresh metadata.
 *
 * The answer of `_fetch_market_batch` for the k-th batch is a parameter (`outcomes(k)`), so
 * are the world-data payload, the fresh id cache and the clock's timestamp.
 */
module Refresh {
  import opened Wrappers
  import opened PyJson
  import opened HtmlTables
  import opened Catalog
  import opened ItemIds
  import opened MarketValues
  import opened Fetcher

  // ---- sorted(set(item_ids)) ----

  predicate Increasing(s: seq<int>) {
    forall i, j :: 0 <= i < j < |s| ==> s[i] < s[j]
  }

  /** Inserts `x` into an increasing sequence unless it is already there. */
  function InsertUnique(x: int, s: seq<int>): (r: seq<int>)
    requires Increasing(s)
    ensures Increasing(r)
    ensures forall y :: y in r <==> y == x || y in s
    decreases |s|
  {
    if s == [] then [x]
    else if x < s[0] then [x] + s
    else if x == s[0] then s
    else
      var rest := InsertUnique(x, s[1..]);
      assert forall i :: 0 <= i < |rest| ==> rest[i] in rest;
      [s[0]] + rest
  }

  /** `sorted(set(ids))`: increasing, and holding exactly the ids. */
  function SortedUnique(ids: seq<int>): (r: seq<int>)
    ensures Increasing(r)
    ensures forall y :: y in r <==> y in ids
    decreases |ids|
  {
    if ids == [] then []
    else InsertUnique(ids[|ids| - 1], SortedUnique(ids[..|ids| - 1]))
  }

  /** An increasing sequence is fixed by its elements, so `SortedUnique` is the only candidate. */
  lemma {:induction false} IncreasingUnique(a: seq<int>, b: seq<int>)
    requires Increasing(a) && Increasing(b)
    requires forall y :: y in a <==> y in b
    ensures a == b
    decreases |a|
  {
    if a == [] {
      assert forall i :: 0 <= i < |b| ==> b[i] in b;
    } else {
      assert a[0] in a;
      assert b != [];
      assert b[0] in b;
      assert a[0] == b[0];
      forall y
        ensures y in a[1..] <==> y in b[1..]
      {
        if y in a[1..] {
          var i :| 0 <= i < |a[1..]| && a[1..][i] == y;
          assert a[i + 1] == y;
          assert y in b;
        }
        if y in b[1..] {
          var i :| 0 <= i < |b[1..]| && b[1..][i] == y;
          assert b[i + 1] == y;
          assert y in a;
        }
      }
      IncreasingUnique(a[1..], b[1..]);
      assert a == [a[0]] + a[1..];
      assert b == [b[0]] + b[1..];
    }
  }

  lemma SortedUniqueIsSortedSet(ids: seq<int>, s: seq<int>)
    requires Increasing(s) && forall y :: y in s <==> y in ids
    ensures SortedUnique(ids) == s
  {
    IncreasingUnique(SortedUnique(ids), s);
  }

  // ---- batches of 100 ----

  const BatchSize: nat := 100

  function MinNat(a: nat, b: nat): nat {
    if a <= b then a else b
  }

  /** `item_ids[batch_start : batch_start + 100]` for `batch_start` in `range(0, len, 100)`. */
  function Batches(ids: seq<int>): seq<seq<int>>
    decreases |ids|
  {
    if ids == [] then []
    else if |ids| <= BatchSize then [ids]
    else [ids[..BatchSize]] + Batches(ids[BatchSize..])
  }

  function Concat(bs: seq<seq<int>>): seq<int>
    decreases |bs|
  {
    if bs == [] then [] else bs[0] + Concat(bs[1..])
  }

  /** The batches, in order, are the ids. */
  lemma {:induction false} BatchesConcat(ids: seq<int>)
    ensures Concat(Batches(ids)) == ids
    decreases |ids|
  {
    if ids != [] && |ids| > BatchSize {
      BatchesConcat(ids[BatchSize..]);
      assert ids == ids[..BatchSize] + ids[BatchSize..];
    }
  }

  /** There are `ceil(len / 100)` batches, each of 1 to 100 ids. */
  lemma {:induction false} BatchesShape(ids: seq<int>)
    ensures |Batches(ids)| == (|ids| + BatchSize - 1) / BatchSize
    ensures forall k :: 0 <= k < |Batches(ids)| ==> 0 < |Batches(ids)[k]| <= BatchSize
    decreases |ids|
  {
    if ids != [] && |ids| > BatchSize {
      BatchesShape(ids[BatchSize..]);
    }
  }

  /** Batch `k` is the slice the loop takes at `batch_start == 100 * k`. */
  lemma {:induction false} BatchAt(ids: seq<int>, k: nat)
    requires k < |Batches(ids)|
    ensures BatchSize * k < |ids|
    ensures Batches(ids)[k] == ids[BatchSize * k .. MinNat(BatchSize * k + BatchSize, |ids|)]
    ensures k + 1 < |Batches(ids)| <==> BatchSize * k + BatchSize < |ids|
    decreases k
  {
    if |ids| <= BatchSize {
      assert Batches(ids) == [ids];
    } else {
      var rest := ids[BatchSize..];
      assert Batches(ids) == [ids[..BatchSize]] + Batches(rest);
      assert Batches(rest) != [];
      if k > 0 {
        BatchAt(rest, k - 1);
        var lo := BatchSize * (k - 1);
        var hi := MinNat(lo + BatchSize, |rest|);
        assert BatchSize * k == lo + BatchSize;
        assert MinNat(BatchSize * k + BatchSize, |ids|) == hi + BatchSize;
        assert rest[lo..hi] == ids[lo + BatchSize..hi + BatchSize];
      }
    }
  }

  // ---- the batch loop ----

  /** `set(batch)`. */
  function Elems(s: seq<int>): (r: set<int>)
    ensures forall x :: x in r <==> x in s
  {
    set i | 0 <= i < |s| :: s[i]
  }

  /** The loop's accumulators, plus the `BATCH_DELAY_SECONDS` sleeps it took. */
  datatype Totals = Totals(values: map<int, int>, processed: set<int>, failed: nat, total: nat, pauses: seq<real>)

  /** The first `n` rounds of the loop; `None` once a batch fetch raised. */
  function BatchLoop(batches: seq<seq<int>>, n: nat, outcomes: nat -> BatchResult): Option<Totals>
    requires n <= |batches|
    decreases n
  {
    if n == 0 then Some(Totals(map[], {}, 0, 0, []))
    else
      match BatchLoop(batches, n - 1, outcomes)
      case None => None
      case Some(t) =>
        match outcomes(n - 1)
        case Crashed => None
        case GaveUp => Some(t.(failed := t.failed + 1, total := t.total + 1))
        case Values(m) =>
          Some(Totals(t.values + m, t.processed + Elems(batches[n - 1]), t.failed, t.total + 1,
                      if n < |batches| then t.pauses + [BatchDelaySeconds] else t.pauses))
  }

  /**
   * What the loop gathers: one round per batch, a processed id exactly when its batch got
   * values, a key only from some batch's values, and one pause per answered batch but the last.
   */
  lemma {:induction false} BatchLoopTotals(batches: seq<seq<int>>, n: nat, outcomes: nat -> BatchResult)
    requires n <= |batches|
    ensures BatchLoop(batches, n, outcomes).None? <==> exists k :: 0 <= k < n && outcomes(k).Crashed?
    ensures BatchLoop(batches, n, outcomes).Some? ==>
      var t := BatchLoop(batches, n, outcomes).value;
      && t.total == n
      && t.failed <= n
      && (t.failed == 0 <==> forall k :: 0 <= k < n ==> outcomes(k).Values?)
      && (t.failed < n <==> exists k :: 0 <= k < n && outcomes(k).Values?)
      && (forall x :: x in t.processed <==> exists k :: 0 <= k < n && outcomes(k).Values? && x in batches[k])
      && (forall x :: x in t.values ==> exists k :: 0 <= k < n && outcomes(k).Values? && x in outcomes(k).values)
      && (forall i :: 0 <= i < |t.pauses| ==> t.pauses[i] == BatchDelaySeconds)
      && |t.pauses| + t.failed <= n
    decreases n
  {
    if n > 0 {
      BatchLoopTotals(batches, n - 1, outcomes);
    }
  }

  /** Every market value the loop keeps is non-negative when every batch's values are. */
  lemma {:induction false} BatchLoopNonNegative(batches: seq<seq<int>>, n: nat, outcomes: nat -> BatchResult)
    requires n <= |batches|
    requires forall k :: 0 <= k < n && outcomes(k).Values? ==> forall x :: x in outcomes(k).values ==> outcomes(k).values[x] >= 0
    ensures BatchLoop(batches, n, outcomes).Some? ==>
      forall x :: x in BatchLoop(batches, n, outcomes).value.values ==> BatchLoop(batches, n, outcomes).value.values[x] >= 0
    decreases n
  {
    if n > 0 {
      BatchLoopNonNegative(batches, n - 1, outcomes);
    }
  }

  /** Once a fetch has raised, the loop is over. */
  lemma {:induction false} BatchLoopStaysCrashed(batches: seq<seq<int>>, n: nat, m: nat, outcomes: nat -> BatchResult)
    requires n <= m <= |batches| && BatchLoop(batches, n, outcomes).None?
    ensures BatchLoop(batches, m, outcomes).None?
    decreases m
  {
    if n < m {
      BatchLoopStaysCrashed(batches, n, m - 1, outcomes);
    }
  }

  /** The `for batch_start in range(0, len(item_ids), 100)` loop, one fetch per batch. */
  method RunBatches(ids: seq<int>, outcomes: nat -> BatchResult) returns (r: Option<Totals>)
    ensures r == BatchLoop(Batches(ids), |Batches(ids)|, outcomes)
  {
    var values: map<int, int> := map[];
    var processed: set<int> := {};
    var failed: nat := 0;
    var total: nat := 0;
    var pauses: seq<real> := [];
    var batchStart: nat := 0;
    while batchStart < |ids|
      invariant total <= |Batches(ids)| && batchStart == BatchSize * total
      invariant total < |Batches(ids)| <==> batchStart < |ids|
      invariant BatchLoop(Batches(ids), total, outcomes) == Some(Totals(values, processed, failed, total, pauses))
      decreases |ids| - batchStart
    {
      BatchAt(ids, total);
      var batch := ids[batchStart .. MinNat(batchStart + BatchSize, |ids|)];
      var k := total;
      total := total + 1;
      var batchValues := outcomes(k);
      if batchValues.Crashed? {
        BatchLoopStaysCrashed(Batches(ids), total, |Batches(ids)|, outcomes);
        return None;
      } else if batchValues.GaveUp? {
        failed := failed + 1;
      } else {
        values := values + batchValues.values;
        processed := processed + Elems(batch);
        if batchStart + BatchSize < |ids| {
          pauses := pauses + [BatchDelaySeconds];
        }
      }
      batchStart := batchStart + BatchSize;
    }
    return Some(Totals(values, processed, failed, total, pauses));
  }

  // ---- _refresh_server_impl ----

  /** The two maps of the refresh metadata file, keyed by server. */
  datatype Meta = Meta(lastUpdate: map<string, Json>, lastRefresh: map<string, Json>)

  /** The summary dictionary; `ItemIdsFailed` is `{"server": ..., "error": "item_ids"}`. */
  datatype Summary =
    | Skipped
    | ItemIdsFailed
    | Refreshed(updated: nat, withoutPrice: nat, missingIds: nat, batches: nat, failedBatches: nat)

  /** Everything the refresh reads besides the two catalogs. */
  datatype Inputs = Inputs(
    server: string,
    meta: Meta,
    worldData: Json,
    stamp: string,                         // `iso_timestamp()`
    cachedIds: Option<map<string, int>>,   // the `items` of a fresh id cache
    dump: Option<seq<Token>>,              // the saved "Item IDs" page, when present
    outcomes: nat -> BatchResult)          // `_fetch_market_batch` for each batch

  /**
   * What the refresh leaves behind: the summary (`None` when a batch fetch raised), the
   * metadata it saved, the id cache it saved, both catalogs as held in memory, and whether
   * it saved the catalogs.
   */
  datatype Outcome = Outcome(summary: Option<Summary>, meta: Option<Meta>, idsCache: Option<map<string, int>>,
                             creature: seq<CatalogItem>, delivery: seq<CatalogItem>, savedCatalogs: bool)

  function Remote(inp: Inputs): Option<string> {
    ExtractLastUpdate(inp.worldData, inp.server)
  }

  /** `last_update_remote and last_update_local == last_update_remote`. */
  predicate UpToDate(inp: Inputs) {
    var remote := Remote(inp);
    remote.Some? && remote.value != [] && inp.server in inp.meta.lastUpdate && inp.meta.lastUpdate[inp.server] == JStr(remote.value)
  }

  /** The mapping before aliases: the fresh cache, or else the saved dump. */
  function IdSource(inp: Inputs): Result<map<string, int>, string> {
    if inp.cachedIds.Some? then Success(inp.cachedIds.value) else ItemIdsFromDump(inp.dump)
  }

  /** `{**name_to_id, **aliases}`. */
  function WithAliases(nameToId: map<string, int>): map<string, int> {
    nameToId + BuildAliasMapping(nameToId)
  }

  function MetaAfter(meta: Meta, server: string, remote: Option<string>, stamp: string): Meta {
    Meta(if remote.Some? && remote.value != [] then meta.lastUpdate[server := JStr(remote.value)] else meta.lastUpdate,
         meta.lastRefresh[server := JStr(stamp)])
  }

  /** The distinct ids both catalogs hold once the mapping has filled theirs in. */
  function JointIds(creature: seq<CatalogItem>, delivery: seq<CatalogItem>, nameToId: map<string, int>): seq<int> {
    SortedUnique(HeldIds(AssignIds(creature, nameToId)) + HeldIds(AssignIds(delivery, nameToId)))
  }

  /** The batch loop over the ids both catalogs hold once their ids are filled in. */
  function Fetched(inp: Inputs, creature: seq<CatalogItem>, delivery: seq<CatalogItem>, nameToId: map<string, int>): Option<Totals> {
    var ids := JointIds(creature, delivery, nameToId);
    BatchLoop(Batches(ids), |Batches(ids)|, inp.outcomes)
  }

  /** The refresh once the mapping is known. */
  function RefreshWith(inp: Inputs, creature: seq<CatalogItem>, delivery: seq<CatalogItem>, nameToId: map<string, int>): Outcome {
    match Fetched(inp, creature, delivery, nameToId)
    case None => Outcome(None, None, None, AssignIds(creature, nameToId), AssignIds(delivery, nameToId), false)
    case Some(t) => Settle(inp, AssignIds(creature, nameToId), AssignIds(delivery, nameToId), nameToId, t)
  }

  /** After the batch loop: the price write when some batch was processed, then the metadata. */
  function Settle(inp: Inputs, creature: seq<CatalogItem>, delivery: seq<CatalogItem>, nameToId: map<string, int>, t: Totals): Outcome {
    var meta := Some(MetaAfter(inp.meta, inp.server, Remote(inp), inp.stamp));
    if t.processed == {} then
      Outcome(Some(Refreshed(0, 0, 0, t.total, t.failed)), meta, None, creature, delivery, false)
    else
      var tc := TallyOf(creature, nameToId, Some(t.values), Some(t.processed));
      var td := TallyOf(delivery, nameToId, Some(t.values), Some(t.processed));
      Outcome(Some(Refreshed(tc.updated + td.updated, tc.withoutPrice + td.withoutPrice, tc.missingIds + td.missingIds,
                             t.total, t.failed)),
              meta, None,
              PriceAll(creature, nameToId, Some(t.values), Some(t.processed)),
              PriceAll(delivery, nameToId, Some(t.values), Some(t.processed)), true)
  }

  function RefreshOf(inp: Inputs, creature: seq<CatalogItem>, delivery: seq<CatalogItem>): Outcome {
    if UpToDate(inp) then
      Outcome(Some(Skipped), Some(inp.meta.(lastRefresh := inp.meta.lastRefresh[inp.server := JStr(inp.stamp)])), None,
              creature, delivery, false)
    else
      match IdSource(inp)
      case Failure(_) => Outcome(Some(ItemIdsFailed), None, None, creature, delivery, false)
      case Success(m) =>
        RefreshWith(inp, creature, delivery, WithAliases(m)).(idsCache := if inp.cachedIds.Some? then None else Some(m))
  }

  /** `_refresh_server_impl`, over the two catalogs' item lists. */
  method RefreshServerImpl(inp: Inputs, creature: array<CatalogItem>, delivery: array<CatalogItem>)
    returns (summary: Option<Summary>, meta: Option<Meta>, idsCache: Option<map<string, int>>, saved: bool)
    requires creature != delivery
    modifies creature, delivery
    ensures Outcome(summary, meta, idsCache, creature[..], delivery[..], saved)
         == RefreshOf(inp, old(creature[..]), old(delivery[..]))
  {
    var remote := ExtractLastUpdate(inp.worldData, inp.server);
    if remote.Some? && remote.value != [] && inp.server in inp.meta.lastUpdate && inp.meta.lastUpdate[inp.server] == JStr(remote.value) {
      var m := inp.meta.(lastRefresh := inp.meta.lastRefresh[inp.server := JStr(inp.stamp)]);
      return Some(Skipped), Some(m), None, false;
    }
    var source := LoadMapping(inp);
    if source.Failure? {
      return Some(ItemIdsFailed), None, None, false;
    }
    var nameToId := source.value;
    idsCache := if inp.cachedIds.Some? then None else Some(nameToId);
    var aliases := BuildAliasMapping(nameToId);
    assert RefreshOf(inp, creature[..], delivery[..])
        == RefreshWith(inp, creature[..], delivery[..], nameToId + aliases).(idsCache := idsCache);
    summary, meta, saved := RefreshCatalogs(inp, creature, delivery, nameToId + aliases);
  }

  /** The id mapping: the fresh cache's items, or else `fetch_item_ids`. */
  method LoadMapping(inp: Inputs) returns (r: Result<map<string, int>, string>)
    ensures r == IdSource(inp)
  {
    if inp.cachedIds.Some? {
      return Success(inp.cachedIds.value);
    }
    r := FetchItemIds(inp.dump);
  }

  /** The two `apply_item_ids` calls and the batch loop over the ids they collect. */
  method FillAndFetch(inp: Inputs, creature: array<CatalogItem>, delivery: array<CatalogItem>, nameToId: map<string, int>)
    returns (totals: Option<Totals>)
    requires creature != delivery
    modifies creature, delivery
    ensures creature[..] == AssignIds(old(creature[..]), nameToId)
    ensures delivery[..] == AssignIds(old(delivery[..]), nameToId)
    ensures totals == Fetched(inp, old(creature[..]), old(delivery[..]), nameToId)
  {
    var creatureIds := ApplyItemIds(creature, nameToId);
    var deliveryIds := ApplyItemIds(delivery, nameToId);
    var itemIds := SortedUnique(creatureIds + deliveryIds);
    totals := RunBatches(itemIds, inp.outcomes);
  }

  /** The two `update_items_with_prices` calls, with their counters summed. */
  method WritePrices(creature: array<CatalogItem>, delivery: array<CatalogItem>, nameToId: map<string, int>, t: Totals)
    returns (updated: nat, withoutPrice: nat, missingIds: nat)
    requires creature != delivery
    modifies creature, delivery
    ensures creature[..] == PriceAll(old(creature[..]), nameToId, Some(t.values), Some(t.processed))
    ensures delivery[..] == PriceAll(old(delivery[..]), nameToId, Some(t.values), Some(t.processed))
    ensures var tc := TallyOf(old(creature[..]), nameToId, Some(t.values), Some(t.processed));
      var td := TallyOf(old(delivery[..]), nameToId, Some(t.values), Some(t.processed));
      updated == tc.updated + td.updated && withoutPrice == tc.withoutPrice + td.withoutPrice
      && missingIds == tc.missingIds + td.missingIds
  {
    var u1, w1, m1 := UpdateItemsWithPrices(creature, nameToId, Some(t.values), Some(t.processed));
    var u2, w2, m2 := UpdateItemsWithPrices(delivery, nameToId, Some(t.values), Some(t.processed));
    updated, withoutPrice, missingIds := u1 + u2, w1 + w2, m1 + m2;
  }

  /** `_refresh_server_impl` from the id back-fill on, once the mapping is known. */
  method RefreshCatalogs(inp: Inputs, creature: array<CatalogItem>, delivery: array<CatalogItem>, nameToId: map<string, int>)
    returns (summary: Option<Summary>, meta: Option<Meta>, saved: bool)
    requires creature != delivery
    modifies creature, delivery
    ensures Outcome(summary, meta, None, creature[..], delivery[..], saved)
         == RefreshWith(inp, old(creature[..]), old(delivery[..]), nameToId)
  {
    var totals := FillAndFetch(inp, creature, delivery, nameToId);
    if totals.None? {
      return None, None, false;
    }
    summary, meta, saved := SettleCatalogs(inp, creature, delivery, nameToId, totals.value);
  }

  /** The price write, the metadata and the summary after the batch loop. */
  method SettleCatalogs(inp: Inputs, creature: array<CatalogItem>, delivery: array<CatalogItem>, nameToId: map<string, int>,
                        t: Totals)
    returns (summary: Option<Summary>, meta: Option<Meta>, saved: bool)
    requires creature != delivery
    modifies creature, delivery
    ensures Outcome(summary, meta, None, creature[..], delivery[..], saved)
         == Settle(inp, old(creature[..]), old(delivery[..]), nameToId, t)
  {
    var updated, withoutPrice, missingIds := 0, 0, 0;
    saved := false;
    if t.processed != {} {
      updated, withoutPrice, missingIds := WritePrices(creature, delivery, nameToId, t);
      saved := true;
    }
    meta := Some(MetaAfter(inp.meta, inp.server, ExtractLastUpdate(inp.worldData, inp.server), inp.stamp));
    summary := Some(Refreshed(updated, withoutPrice, missingIds, t.total, t.failed));
  }

  // ---- properties of the refresh ----

  /** Past the freshness gate and the id mapping, the refresh is the work on the aliased mapping. */
  lemma RefreshPastMapping(inp: Inputs, creature: seq<CatalogItem>, delivery: seq<CatalogItem>, m: map<string, int>,
                            aliased: map<string, int>)
    requires !UpToDate(inp) && IdSource(inp) == Success(m) && aliased == WithAliases(m)
    ensures RefreshOf(inp, creature, delivery)
         == RefreshWith(inp, creature, delivery, aliased).(idsCache := if inp.cachedIds.Some? then None else Some(m))
  {
  }

  /** Past the batch loop, the refresh is the price write on the back-filled catalogs. */
  lemma RefreshPastLoop(inp: Inputs, creature: seq<CatalogItem>, delivery: seq<CatalogItem>, m: map<string, int>, t: Totals)
    requires Fetched(inp, creature, delivery, m) == Some(t)
    ensures RefreshWith(inp, creature, delivery, m) == Settle(inp, AssignIds(creature, m), AssignIds(delivery, m), m, t)
  {
  }

  /**
   * The refresh is skipped exactly when the world data carries a non-empty timestamp equal
   * to the stored one; a skip fetches nothing (it is the same whatever the cache, the dump
   * and the market answers), leaves both catalogs unsaved and only stamps the refresh time.
   */
  lemma RefreshSkips(inp: Inputs, creature: seq<CatalogItem>, delivery: seq<CatalogItem>, other: Inputs)
    requires other.server == inp.server && other.meta == inp.meta && other.worldData == inp.worldData && other.stamp == inp.stamp
    ensures RefreshOf(inp, creature, delivery).summary == Some(Skipped) <==> UpToDate(inp)
    ensures UpToDate(inp) ==>
      var r := RefreshOf(inp, creature, delivery);
      && r == RefreshOf(other, creature, delivery)
      && !r.savedCatalogs && r.creature == creature && r.delivery == delivery && r.idsCache.None?
      && r.meta.Some? && r.meta.value.lastUpdate == inp.meta.lastUpdate
      && r.meta.value.lastRefresh == inp.meta.lastRefresh[inp.server := JStr(inp.stamp)]
  {
    if !UpToDate(inp) && IdSource(inp).Success? {
      var m := WithAliases(IdSource(inp).value);
      match Fetched(inp, creature, delivery, m)
      case None =>
      case Some(t) =>
        assert RefreshOf(inp, creature, delivery) == Settle(inp, AssignIds(creature, m), AssignIds(delivery, m), m, t)
          .(idsCache := RefreshOf(inp, creature, delivery).idsCache);
    }
  }

  /** A completed loop over `ids` ran one round per batch and processed some id exactly when a batch was answered. */
  lemma LoopAnswered(ids: seq<int>, outcomes: nat -> BatchResult)
    ensures BatchLoop(Batches(ids), |Batches(ids)|, outcomes).Some? ==>
      var t := BatchLoop(Batches(ids), |Batches(ids)|, outcomes).value;
      && t.total == (|ids| + BatchSize - 1) / BatchSize
      && (t.processed != {} <==> t.failed < t.total)
  {
    var bs := Batches(ids);
    BatchLoopTotals(bs, |bs|, outcomes);
    BatchesShape(ids);
    if BatchLoop(bs, |bs|, outcomes).Some? {
      var t := BatchLoop(bs, |bs|, outcomes).value;
      assert t.total == |bs|;
      if t.failed < t.total {
        var k :| 0 <= k < |bs| && outcomes(k).Values?;
        assert |bs[k]| > 0;
        var x := bs[k][0];
        assert 0 <= k < |bs| && outcomes(k).Values? && x in bs[k];
        assert x in t.processed;
      } else {
        forall x | x in t.processed
          ensures false
        {
        }
        assert t.processed == {};
      }
    }
  }

  /**
   * A refresh that gets past the id mapping runs one batch per 100 distinct ids, and saves
   * the catalogs exactly when at least one batch was answered.
   */
  lemma RefreshSavesIffAnswered(inp: Inputs, creature: seq<CatalogItem>, delivery: seq<CatalogItem>)
    ensures var r := RefreshOf(inp, creature, delivery);
      r.savedCatalogs <==> r.summary.Some? && r.summary.value.Refreshed? && r.summary.value.failedBatches < r.summary.value.batches
    ensures var r := RefreshOf(inp, creature, delivery);
      r.summary.Some? && r.summary.value.Refreshed? ==>
        IdSource(inp).Success? &&
        r.summary.value.batches == (|JointIds(creature, delivery, WithAliases(IdSource(inp).value))| + BatchSize - 1) / BatchSize
  {
    if !UpToDate(inp) && IdSource(inp).Success? {
      var m := WithAliases(IdSource(inp).value);
      LoopAnswered(JointIds(creature, delivery, m), inp.outcomes);
      match Fetched(inp, creature, delivery, m)
      case None =>
      case Some(t) =>
        var r := RefreshOf(inp, creature, delivery);
        assert r == Settle(inp, AssignIds(creature, m), AssignIds(delivery, m), m, t).(idsCache := r.idsCache);
    }
  }

  /**
   * Whenever the refresh gets past the batches it records the remote timestamp, even when
   * every batch failed and no price was written, so the next refresh against the same world
   * data is skipped.
   */
  lemma RefreshThenSkip(inp: Inputs, creature: seq<CatalogItem>, delivery: seq<CatalogItem>, next: Inputs)
    requires RefreshOf(inp, creature, delivery).summary.Some? && RefreshOf(inp, creature, delivery).summary.value.Refreshed?
    requires Remote(inp).Some? && Remote(inp).value != []
    requires RefreshOf(inp, creature, delivery).meta.Some?
    requires next.server == inp.server && next.worldData == inp.worldData && next.meta == RefreshOf(inp, creature, delivery).meta.value
    ensures UpToDate(next)
    ensures RefreshOf(next, creature, delivery).summary == Some(Skipped)
  {
    var m := WithAliases(IdSource(inp).value);
    var t := Fetched(inp, creature, delivery, m).value;
    var r := RefreshOf(inp, creature, delivery);
    assert r == Settle(inp, AssignIds(creature, m), AssignIds(delivery, m), m, t).(idsCache := r.idsCache);
  }

  /** No summary (a batch fetch raised) and an id failure write no metadata and no catalog. */
  lemma RefreshFailuresWriteNothing(inp: Inputs, creature: seq<CatalogItem>, delivery: seq<CatalogItem>)
    ensures var r := RefreshOf(inp, creature, delivery);
      (r.summary.None? || r.summary == Some(ItemIdsFailed)) ==> r.meta.None? && !r.savedCatalogs
    ensures var r := RefreshOf(inp, creature, delivery);
      r.summary == Some(ItemIdsFailed) <==> !UpToDate(inp) && IdSource(inp).Failure?
  {
    if !UpToDate(inp) && IdSource(inp).Success? {
      var m := WithAliases(IdSource(inp).value);
      match Fetched(inp, creature, delivery, m)
      case None =>
      case Some(t) =>
        var r := RefreshOf(inp, creature, delivery);
        assert r == Settle(inp, AssignIds(creature, m), AssignIds(delivery, m), m, t).(idsCache := r.idsCache);
    }
  }
}

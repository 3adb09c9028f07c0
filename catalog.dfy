/**
 * The two in-place catalog mutators of the market refresh: `apply_item_ids`, which
 * fills in missing item ids from the name-to-id mapping, and `update_items_with_prices`,
 * which writes the market price into each item's `gold` and counts what it did.
 */
module Catalog {
  import opened Wrappers
  import opened PyJson
  import opened Names

  /**
   * One item record of a catalog file. `name` is the text `str(item.get("name", ""))`
   * yields; `id` and `gold` are the stored JSON values, `JNull` when absent.
   */
  datatype CatalogItem = CatalogItem(name: string, id: Json, gold: Json)

  /** The id the item holds, when `isinstance(item["id"], int)`. */
  function HeldId(it: CatalogItem): Option<int> {
    if IsInt(it.id) then Some(IntValue(it.id)) else None
  }

  /** The id lookup both mutators start with: only a non-int id is replaced, and only from the mapping. */
  function WithId(it: CatalogItem, nameToId: map<string, int>): CatalogItem {
    if IsInt(it.id) then it
    else
      var key := NormalizeName(it.name);
      if key in nameToId then it.(id := JInt(nameToId[key])) else it
  }

  function AssignIds(items: seq<CatalogItem>, nameToId: map<string, int>): (r: seq<CatalogItem>)
    ensures |r| == |items|
    ensures forall i :: 0 <= i < |items| ==> r[i] == WithId(items[i], nameToId)
  {
    seq(|items|, i requires 0 <= i < |items| => WithId(items[i], nameToId))
  }

  /** The int ids the items hold, in item order. */
  function HeldIds(items: seq<CatalogItem>): seq<int>
    decreases |items|
  {
    if items == [] then []
    else
      var rest := HeldIds(items[..|items| - 1]);
      match HeldId(items[|items| - 1])
      case Some(v) => rest + [v]
      case None => rest
  }

  lemma HeldIdsSnoc(items: seq<CatalogItem>, i: nat)
    requires i < |items|
    ensures HeldIds(items[..i + 1]) == HeldIds(items[..i]) + (match HeldId(items[i]) case Some(v) => [v] case None => [])
  {
    assert items[..i + 1][..i] == items[..i];
  }

  /** The loop body of `apply_item_ids` for one item: the item afterwards and the id it then holds. */
  method FillItemId(item: CatalogItem, nameToId: map<string, int>) returns (result: CatalogItem, held: Option<int>)
    ensures result == WithId(item, nameToId)
    ensures held == HeldId(result)
  {
    result := item;
    held := HeldId(item);
    if !IsInt(item.id) {
      var key := NormalizeName(item.name);
      if key in nameToId {
        held := Some(nameToId[key]);
        result := item.(id := JInt(nameToId[key]));
      }
    }
  }

  /** `apply_item_ids`: fills ids in place and returns the int ids held afterwards. */
  method ApplyItemIds(items: array<CatalogItem>, nameToId: map<string, int>) returns (ids: seq<int>)
    modifies items
    ensures items[..] == AssignIds(old(items[..]), nameToId)
    ensures ids == HeldIds(items[..])
  {
    ghost var before := items[..];
    ghost var after := AssignIds(before, nameToId);
    ids := [];
    for i := 0 to items.Length
      invariant items[..i] == after[..i]
      invariant items[i..] == before[i..]
      invariant ids == HeldIds(after[..i])
    {
      ghost var done := items[..i];
      assert items[i] == before[i] by { assert items[i..][0] == before[i..][0]; }
      var item, held := FillItemId(items[i], nameToId);
      items[i] := item;
      assert items[..i + 1] == done + [item];
      assert items[i + 1..] == before[i + 1..] by { assert before[i + 1..] == before[i..][1..]; }
      assert after[..i + 1] == after[..i] + [after[i]];
      HeldIdsSnoc(after, i);
      if held.Some? {
        ids := ids + [held.value];
      }
    }
    assert items[..items.Length] == items[..];
    assert after[..items.Length] == after;
  }

  /** An item that already holds an int id is left exactly as it was. */
  lemma WithIdKeepsIntId(it: CatalogItem, nameToId: map<string, int>)
    requires IsInt(it.id)
    ensures WithId(it, nameToId) == it
  {
  }

  /** A newly held id comes from the mapping entry of the item's name key; nothing but `id` changes. */
  lemma WithIdFromMapping(it: CatalogItem, nameToId: map<string, int>)
    ensures WithId(it, nameToId).name == it.name && WithId(it, nameToId).gold == it.gold
    ensures !IsInt(it.id) ==>
      (HeldId(WithId(it, nameToId)).Some? <==> NormalizeName(it.name) in nameToId)
    ensures !IsInt(it.id) && NormalizeName(it.name) in nameToId ==>
      HeldId(WithId(it, nameToId)) == Some(nameToId[NormalizeName(it.name)])
  {
  }

  /** The returned ids are exactly those held after assignment: `v` is listed iff some item holds it. */
  lemma {:induction false} HeldIdsExact(items: seq<CatalogItem>, v: int)
    ensures v in HeldIds(items) <==> exists i :: 0 <= i < |items| && HeldId(items[i]) == Some(v)
    decreases |items|
  {
    if items != [] {
      var init := items[..|items| - 1];
      HeldIdsExact(init, v);
      if v in HeldIds(init) {
        var i :| 0 <= i < |init| && HeldId(init[i]) == Some(v);
        assert items[i] == init[i];
      }
      if exists i :: 0 <= i < |items| && HeldId(items[i]) == Some(v) {
        var i :| 0 <= i < |items| && HeldId(items[i]) == Some(v);
        if i < |init| {
          assert init[i] == items[i];
        }
      }
    }
  }

  /** Assigning twice is assigning once. */
  lemma AssignIdsIdempotent(items: seq<CatalogItem>, nameToId: map<string, int>)
    ensures AssignIds(AssignIds(items, nameToId), nameToId) == AssignIds(items, nameToId)
  {
  }

  // ---- update_items_with_prices ----

  /** What `update_items_with_prices` does with one item. */
  datatype PriceEffect =
    | MissingId   // no int id even after the lookup
    | Untouched   // id not among the processed ids, or no market values given
    | Priced      // a market value other than -1 was found
    | NoPrice     // no market value, or -1

  function Effect(it: CatalogItem, nameToId: map<string, int>, marketValues: Option<map<int, int>>,
                  processedIds: Option<set<int>>): PriceEffect
  {
    var held := HeldId(WithId(it, nameToId));
    if held.None? then MissingId
    else if processedIds.Some? && held.value !in processedIds.value then Untouched
    else if marketValues.None? then Untouched
    else if held.value !in marketValues.value || marketValues.value[held.value] == -1 then NoPrice
    else Priced
  }

  function PricedItem(it: CatalogItem, nameToId: map<string, int>, marketValues: Option<map<int, int>>,
                      processedIds: Option<set<int>>): CatalogItem
  {
    var it1 := WithId(it, nameToId);
    match Effect(it, nameToId, marketValues, processedIds)
    case MissingId => if marketValues.None? then it1 else it1.(gold := JInt(0))
    case Untouched => it1
    case NoPrice => it1.(gold := JInt(0))
    case Priced => it1.(gold := JInt(marketValues.value[HeldId(it1).value]))
  }

  function PriceAll(items: seq<CatalogItem>, nameToId: map<string, int>, marketValues: Option<map<int, int>>,
                    processedIds: Option<set<int>>): (r: seq<CatalogItem>)
    ensures |r| == |items|
    ensures forall i :: 0 <= i < |items| ==> r[i] == PricedItem(items[i], nameToId, marketValues, processedIds)
  {
    seq(|items|, i requires 0 <= i < |items| => PricedItem(items[i], nameToId, marketValues, processedIds))
  }

  /** The three counters, `(updated, without_price, missing_ids)`. */
  datatype Tally = Tally(updated: nat, withoutPrice: nat, missingIds: nat)

  function Count(t: Tally, e: PriceEffect, valuesGiven: bool): Tally {
    match e
    case MissingId => Tally(t.updated, if valuesGiven then t.withoutPrice + 1 else t.withoutPrice, t.missingIds + 1)
    case Untouched => t
    case Priced => t.(updated := t.updated + 1)
    case NoPrice => Tally(t.updated + 1, t.withoutPrice + 1, t.missingIds)
  }

  function TallyOf(items: seq<CatalogItem>, nameToId: map<string, int>, marketValues: Option<map<int, int>>,
                   processedIds: Option<set<int>>): Tally
    decreases |items|
  {
    if items == [] then Tally(0, 0, 0)
    else
      Count(TallyOf(items[..|items| - 1], nameToId, marketValues, processedIds),
            Effect(items[|items| - 1], nameToId, marketValues, processedIds), marketValues.Some?)
  }

  /** The loop body of `update_items_with_prices` for one item. */
  method PriceItem(item: CatalogItem, nameToId: map<string, int>, marketValues: Option<map<int, int>>,
                   processedIds: Option<set<int>>) returns (result: CatalogItem, effect: PriceEffect)
    ensures result == PricedItem(item, nameToId, marketValues, processedIds)
    ensures effect == Effect(item, nameToId, marketValues, processedIds)
  {
    result := item;
    var itemId := HeldId(item);
    if !IsInt(item.id) {
      var key := NormalizeName(item.name);
      if key in nameToId {
        itemId := Some(nameToId[key]);
        result := item.(id := JInt(nameToId[key]));
      }
    }
    if itemId.None? {
      effect := MissingId;
      if marketValues.Some? {
        result := result.(gold := JInt(0));
      }
    } else if processedIds.Some? && itemId.value !in processedIds.value {
      effect := Untouched;
    } else if marketValues.None? {
      effect := Untouched;
    } else {
      var v := itemId.value;
      if v !in marketValues.value || marketValues.value[v] == -1 {
        result := result.(gold := JInt(0));
        effect := NoPrice;
      } else {
        result := result.(gold := JInt(marketValues.value[v]));
        effect := Priced;
      }
    }
  }

  /** `update_items_with_prices`: rewrites the items in place and returns the three counters. */
  method UpdateItemsWithPrices(items: array<CatalogItem>, nameToId: map<string, int>,
                               marketValues: Option<map<int, int>>, processedIds: Option<set<int>>)
    returns (updated: nat, withoutPrice: nat, missingIds: nat)
    modifies items
    ensures items[..] == PriceAll(old(items[..]), nameToId, marketValues, processedIds)
    ensures Tally(updated, withoutPrice, missingIds) == TallyOf(old(items[..]), nameToId, marketValues, processedIds)
  {
    ghost var before := items[..];
    updated, withoutPrice, missingIds := 0, 0, 0;
    for i := 0 to items.Length
      invariant forall j :: 0 <= j < i ==> items[j] == PricedItem(before[j], nameToId, marketValues, processedIds)
      invariant forall j :: i <= j < items.Length ==> items[j] == before[j]
      invariant Tally(updated, withoutPrice, missingIds) == TallyOf(before[..i], nameToId, marketValues, processedIds)
    {
      assert items[i] == before[i];
      var item, effect := PriceItem(items[i], nameToId, marketValues, processedIds);
      items[i] := item;
      TallyOfSnoc(before, i, nameToId, marketValues, processedIds);
      updated, withoutPrice, missingIds := CountEffect(updated, withoutPrice, missingIds, effect, marketValues.Some?);
    }
    assert before[..items.Length] == before;
  }

  lemma TallyOfSnoc(items: seq<CatalogItem>, i: nat, nameToId: map<string, int>, marketValues: Option<map<int, int>>,
                    processedIds: Option<set<int>>)
    requires i < |items|
    ensures TallyOf(items[..i + 1], nameToId, marketValues, processedIds)
         == Count(TallyOf(items[..i], nameToId, marketValues, processedIds),
                  Effect(items[i], nameToId, marketValues, processedIds), marketValues.Some?)
  {
    assert items[..i + 1][..i] == items[..i];
  }

  /** The counter updates of one pass of `update_items_with_prices`. */
  method CountEffect(updated: nat, withoutPrice: nat, missingIds: nat, effect: PriceEffect, valuesGiven: bool)
    returns (updated': nat, withoutPrice': nat, missingIds': nat)
    ensures Tally(updated', withoutPrice', missingIds') == Count(Tally(updated, withoutPrice, missingIds), effect, valuesGiven)
  {
    updated', withoutPrice', missingIds' := updated, withoutPrice, missingIds;
    match effect
    case MissingId =>
      missingIds' := missingIds + 1;
      if valuesGiven {
        withoutPrice' := withoutPrice + 1;
      }
    case Untouched =>
    case NoPrice =>
      withoutPrice' := withoutPrice + 1;
      updated' := updated + 1;
    case Priced =>
      updated' := updated + 1;
  }

  /** Items whose id is not among the processed ids keep their `gold`. */
  lemma UnprocessedKeepsGold(it: CatalogItem, nameToId: map<string, int>, marketValues: Option<map<int, int>>,
                             processed: set<int>)
    requires HeldId(WithId(it, nameToId)).Some? && HeldId(WithId(it, nameToId)).value !in processed
    ensures PricedItem(it, nameToId, marketValues, Some(processed)).gold == it.gold
  {
  }

  /** A processed item gets its market value, or 0 when there is none or it is -1. */
  lemma ProcessedGetsPrice(it: CatalogItem, nameToId: map<string, int>, values: map<int, int>,
                           processedIds: Option<set<int>>, v: int)
    requires HeldId(WithId(it, nameToId)) == Some(v)
    requires processedIds.None? || v in processedIds.value
    ensures v in values && values[v] != -1 ==> PricedItem(it, nameToId, Some(values), processedIds).gold == JInt(values[v])
    ensures v !in values || values[v] == -1 ==> PricedItem(it, nameToId, Some(values), processedIds).gold == JInt(0)
  {
  }

  /** An item left without an id gets `gold` 0 when market values are given, and is left alone otherwise. */
  lemma MissingIdGold(it: CatalogItem, nameToId: map<string, int>, marketValues: Option<map<int, int>>,
                      processedIds: Option<set<int>>)
    requires HeldId(WithId(it, nameToId)).None?
    ensures marketValues.Some? ==> PricedItem(it, nameToId, marketValues, processedIds).gold == JInt(0)
    ensures marketValues.None? ==> PricedItem(it, nameToId, marketValues, processedIds) == it
  {
  }

  /** Items the call sets to a price: those it counts as updated. */
  predicate IsUpdated(e: PriceEffect) {
    e == Priced || e == NoPrice
  }

  function CountWhere(items: seq<CatalogItem>, nameToId: map<string, int>, marketValues: Option<map<int, int>>,
                      processedIds: Option<set<int>>, which: PriceEffect -> bool): nat
    decreases |items|
  {
    if items == [] then 0
    else
      CountWhere(items[..|items| - 1], nameToId, marketValues, processedIds, which)
      + (if which(Effect(items[|items| - 1], nameToId, marketValues, processedIds)) then 1 else 0)
  }

  /**
   * `updated` counts every processed item, priced or not; `missing_ids` every item without an
   * id; `without_price` the unpriced processed items plus, when values are given, the missing ones.
   */
  lemma {:induction false} TallyCounts(items: seq<CatalogItem>, nameToId: map<string, int>,
                                       marketValues: Option<map<int, int>>, processedIds: Option<set<int>>)
    ensures TallyOf(items, nameToId, marketValues, processedIds).updated
      == CountWhere(items, nameToId, marketValues, processedIds, IsUpdated)
    ensures TallyOf(items, nameToId, marketValues, processedIds).missingIds
      == CountWhere(items, nameToId, marketValues, processedIds, e => e == MissingId)
    ensures TallyOf(items, nameToId, marketValues, processedIds).withoutPrice
      == CountWhere(items, nameToId, marketValues, processedIds, e => e == NoPrice || (marketValues.Some? && e == MissingId))
    decreases |items|
  {
    if items != [] {
      TallyCounts(items[..|items| - 1], nameToId, marketValues, processedIds);
    }
  }

  /** Without market values nothing is counted as updated or unpriced, and no item changes but its id. */
  lemma {:induction false} NoValuesOnlyIds(items: seq<CatalogItem>, nameToId: map<string, int>,
                                           processedIds: Option<set<int>>)
    ensures TallyOf(items, nameToId, None, processedIds).updated == 0
    ensures TallyOf(items, nameToId, None, processedIds).withoutPrice == 0
    ensures PriceAll(items, nameToId, None, processedIds) == AssignIds(items, nameToId)
    decreases |items|
  {
    if items != [] {
      NoValuesOnlyIds(items[..|items| - 1], nameToId, processedIds);
    }
  }

  /** Each item adds to at most one of `updated` and `missing_ids`, and at most once to `without_price`. */
  lemma {:induction false} TallyBound(items: seq<CatalogItem>, nameToId: map<string, int>,
                                      marketValues: Option<map<int, int>>, processedIds: Option<set<int>>)
    ensures TallyOf(items, nameToId, marketValues, processedIds).updated
          + TallyOf(items, nameToId, marketValues, processedIds).missingIds <= |items|
    ensures TallyOf(items, nameToId, marketValues, processedIds).withoutPrice <= |items|
    decreases |items|
  {
    if items != [] {
      TallyBound(items[..|items| - 1], nameToId, marketValues, processedIds);
    }
  }
}

/**
 * Decoding the two responses of the market API: `_parse_market_values` (item id to
 * sell offer) and `_extract_last_update` (the server's scan timestamp).
 */
module MarketValues {
  import opened Wrappers
  import opened PyJson

  /** `int(entry.get("id"))`, or `None` when that raises. */
  function EntryId(entry: Json): Option<int> {
    if entry.JObj? then PyIntOf(Get(entry.fields, "id")) else None
  }

  /** The price recorded for one entry: its `sell_offer` read as an integer, with -1 and negatives as 0. */
  function OfferValue(fields: map<string, Json>): (v: int)
    ensures v >= 0
    ensures Get(fields, "sell_offer") == JNull ==> v == 0
    ensures PyIntOf(Get(fields, "sell_offer")).None? ==> v == 0
    ensures forall n :: PyIntOf(Get(fields, "sell_offer")) == Some(n) && n < 0 ==> v == 0
    ensures forall n :: PyIntOf(Get(fields, "sell_offer")) == Some(n) && n >= 0 ==> v == n
  {
    var offer := Get(fields, "sell_offer");
    if offer == JNull then 0
    else match PyIntOf(offer)
      case None => 0
      case Some(n) => if n == -1 then 0 else if n < 0 then 0 else n
  }

  /** The dictionary the entry loop fills: later entries with the same id overwrite earlier ones. */
  function ValuesOf(entries: seq<Json>): (m: map<int, int>)
    ensures forall k :: k in m ==> m[k] >= 0
    decreases |entries|
  {
    if entries == [] then map[]
    else
      var m := ValuesOf(entries[..|entries| - 1]);
      var e := entries[|entries| - 1];
      match EntryId(e)
      case Some(k) => m[k := OfferValue(e.fields)]
      case None => m
  }

  /** The list `_parse_market_values` iterates: `payload["items"]` of an object, or a bare list. */
  function PayloadItems(payload: Json): Json {
    if payload.JObj? then Get(payload.fields, "items")
    else if payload.JList? then payload
    else JNull
  }

  /**
   * `_parse_market_values`. Iterating a truthy number raises `TypeError`, which nothing in
   * the module catches; iterating a string or an object yields strings, which are skipped.
   */
  function MarketValuesOf(payload: Json): Result<map<int, int>, string> {
    var items := PayloadItems(payload);
    if !Truthy(items) then Success(map[])
    else match items
      case JList(es) => Success(ValuesOf(es))
      case JStr(_) => Success(map[])
      case JObj(_) => Success(map[])
      case _ => Failure("TypeError")
  }

  /** The entry loop of `_parse_market_values`, filling the dictionary in place. */
  method ParseMarketValues(payload: Json) returns (r: Result<map<int, int>, string>)
    ensures r == MarketValuesOf(payload)
  {
    var items := PayloadItems(payload);
    if !Truthy(items) {
      return Success(map[]);
    }
    if items.JInt? || items.JBool? {
      return Failure("TypeError");
    }
    if !items.JList? {
      return Success(map[]);
    }
    var es := items.elems;
    var values: map<int, int> := map[];
    for i := 0 to |es|
      invariant values == ValuesOf(es[..i])
    {
      assert es[..i + 1][..i] == es[..i];
      var entry := es[i];
      if !entry.JObj? {
        continue;
      }
      var id := PyIntOf(Get(entry.fields, "id"));
      if id.None? {
        continue;
      }
      var offer := Get(entry.fields, "sell_offer");
      if offer == JNull {
        values := values[id.value := 0];
        continue;
      }
      var sell := PyIntOf(offer);
      if sell.None? {
        values := values[id.value := 0];
        continue;
      }
      values := values[id.value := if sell.value == -1 then 0 else if sell.value < 0 then 0 else sell.value];
    }
    assert es[..|es|] == es;
    return Success(values);
  }

  /** Every decoded price is at least 0. */
  lemma MarketValuesNonNegative(payload: Json)
    ensures MarketValuesOf(payload).Success? ==>
      forall k :: k in MarketValuesOf(payload).value ==> MarketValuesOf(payload).value[k] >= 0
  {
  }

  /** Decoding fails only when the items value is a truthy number. */
  lemma MarketValuesFailure(payload: Json)
    ensures MarketValuesOf(payload).Failure? <==> (PayloadItems(payload).JInt? || PayloadItems(payload).JBool?) && Truthy(PayloadItems(payload))
  {
  }

  /** The `{"items": [...]}` shape and the bare list decode alike. */
  lemma BothShapesAgree(es: seq<Json>)
    ensures MarketValuesOf(JObj(map["items" := JList(es)])) == MarketValuesOf(JList(es))
  {
  }

  /** An id is a key exactly when some dictionary entry carries it as its `int(id)`. */
  lemma {:induction false} ValuesOfKeys(entries: seq<Json>, k: int)
    ensures k in ValuesOf(entries) <==> exists i :: 0 <= i < |entries| && EntryId(entries[i]) == Some(k)
    decreases |entries|
  {
    if entries != [] {
      var init := entries[..|entries| - 1];
      var last := entries[|entries| - 1];
      assert k in ValuesOf(entries) <==> k in ValuesOf(init) || EntryId(last) == Some(k);
      assert k in ValuesOf(init) <==> exists i :: 0 <= i < |init| && EntryId(init[i]) == Some(k) by {
        ValuesOfKeys(init, k);
      }
      assert (exists i :: 0 <= i < |entries| && EntryId(entries[i]) == Some(k))
         <==> (exists i :: 0 <= i < |init| && EntryId(init[i]) == Some(k)) || EntryId(last) == Some(k) by {
        CarriedSnoc(entries, k);
      }
    }
  }

  /** An id is carried by a non-empty list when the front carries it or the last entry has it. */
  lemma CarriedSnoc(entries: seq<Json>, k: int)
    requires entries != []
    ensures var init := entries[..|entries| - 1];
      (exists i :: 0 <= i < |entries| && EntryId(entries[i]) == Some(k))
      <==> (exists i :: 0 <= i < |init| && EntryId(init[i]) == Some(k)) || EntryId(entries[|entries| - 1]) == Some(k)
  {
    var init := entries[..|entries| - 1];
    if exists i :: 0 <= i < |init| && EntryId(init[i]) == Some(k) {
      var i :| 0 <= i < |init| && EntryId(init[i]) == Some(k);
      assert entries[i] == init[i];
    }
    if exists i :: 0 <= i < |entries| && EntryId(entries[i]) == Some(k) {
      var i :| 0 <= i < |entries| && EntryId(entries[i]) == Some(k);
      if i < |init| {
        assert init[i] == entries[i];
      }
    }
  }

  /** The price of an id is that of the last entry carrying it. */
  lemma {:induction false} ValuesOfLastWins(entries: seq<Json>, i: nat)
    requires i < |entries| && EntryId(entries[i]).Some?
    requires forall j :: i < j < |entries| ==> EntryId(entries[j]) != EntryId(entries[i])
    ensures EntryId(entries[i]).value in ValuesOf(entries)
    ensures ValuesOf(entries)[EntryId(entries[i]).value] == OfferValue(entries[i].fields)
    decreases |entries|
  {
    if i < |entries| - 1 {
      var init := entries[..|entries| - 1];
      assert init[i] == entries[i];
      ValuesOfLastWins(init, i);
    }
  }

  /** The bare-list market response of the retry scenario: item 1 offered at 10, item 2 at -1. */
  function TestMarketPayload(): Json {
    JList([
      JObj(map["id" := JInt(1), "sell_offer" := JInt(10)]),
      JObj(map["id" := JInt(2), "sell_offer" := JInt(-1)])])
  }

  /** A bare list where item 1 offers 10 and item 2 offers -1 decodes to `{1: 10, 2: 0}`. */
  lemma DecodeTestResponse()
    ensures MarketValuesOf(TestMarketPayload()) == Success(map[1 := 10, 2 := 0])
  {
    var es := TestMarketPayload().elems;
    assert es[..1][..0] == [];
    assert es[..|es| - 1] == es[..1];
    assert EntryId(es[0]) == Some(1) && OfferValue(es[0].fields) == 10;
    assert EntryId(es[1]) == Some(2) && OfferValue(es[1].fields) == 0;
    assert ValuesOf(es[..1]) == map[1 := 10];
    assert ValuesOf(es) == map[1 := 10, 2 := 0];
  }

  /** `_extract_last_update`: `world_data["servers"][server]["last_update"]` when every step has the right type. */
  function ExtractLastUpdate(worldData: Json, server: string): (r: Option<string>)
    ensures r.Some? <==>
      worldData.JObj? && Get(worldData.fields, "servers").JObj?
      && Get(Get(worldData.fields, "servers").fields, server).JObj?
      && Get(Get(Get(worldData.fields, "servers").fields, server).fields, "last_update").JStr?
  {
    if !worldData.JObj? then None
    else
      var servers := Get(worldData.fields, "servers");
      if !servers.JObj? then None
      else
        var entry := Get(servers.fields, server);
        if !entry.JObj? then None
        else
          var lastUpdate := Get(entry.fields, "last_update");
          if lastUpdate.JStr? then Some(lastUpdate.s) else None
  }

  /** The timestamp placed in a world-data response is the one extracted. */
  lemma ExtractLastUpdateRoundTrip(server: string, stamp: string, other: map<string, Json>)
    ensures ExtractLastUpdate(JObj(other["servers" := JObj(map[server := JObj(map["last_update" := JStr(stamp)])])]), server)
      == Some(stamp)
  {
  }
}

/**
 * The app's two catalogs, built from the bundled resource documents: one imbuement per
 * tier with its materials (`build_imbuements`), and the imbuable equipment items with the
 * slot their category fits, ordered by slot and name (`build_items`). A resource document
 * is the decoded JSON object; `render` stands for Python's `str()` of a list or object.
 */
module AppCatalog {
  import opened Wrappers
  import opened PyText
  import opened PyJson
  import opened Ordering

  /** `d.get(key, default)`. */
  function GetDefault(fields: map<string, Json>, key: string, default: Json): (r: Json)
    ensures key in fields ==> r == fields[key]
    ensures key !in fields ==> r == default
  {
    if key in fields then fields[key] else default
  }

  /**
   * What a `for` loop over a decoded JSON value sees: a list's elements; a string's
   * characters or an object's keys, strings all, of which only the number matters here;
   * or the `TypeError` that numbers, booleans and `None` raise.
   */
  datatype Iterated = Elements(elems: seq<Json>) | Strings(count: nat) | NotIterable

  function IterOf(j: Json): Iterated {
    match j
    case JList(es) => Elements(es)
    case JStr(s) => Strings(|s|)
    case JObj(m) => Strings(|m|)
    case _ => NotIterable
  }

  const TypeError := "TypeError"
  const AttributeError := "AttributeError"
  const KeyError := "KeyError"
  const ValueError := "ValueError"

  // ---- build_imbuements ----

  datatype Material = Material(qty: int, name: string)

  datatype Imbuement = Imbuement(category: string, name: string, materials: seq<Material>)

  /** `Imbuement.key`. */
  function Key(imb: Imbuement): string {
    imb.category + "|" + imb.name
  }

  /** `Material(int(source["qty"]), str(source["name"]))`, or the exception it raises. */
  function MaterialOf(source: Json, render: Json -> string): Result<Material, string> {
    if !source.JObj? then Failure(TypeError)
    else if "qty" !in source.fields then Failure(KeyError)
    else match PyIntOf(source.fields["qty"])
      case None => Failure(if source.fields["qty"].JStr? then ValueError else TypeError)
      case Some(q) =>
        if "name" !in source.fields then Failure(KeyError)
        else Success(Material(q, PyStr(source.fields["name"], render)))
  }

  /**
   * Runs `f` over `xs` in order and concatenates what it returns; the first failure is
   * what is raised, and nothing after it runs.
   */
  function ConcatAll<A, B>(xs: seq<A>, f: A -> Result<seq<B>, string>): Result<seq<B>, string>
    decreases |xs|
  {
    if xs == [] then Success([])
    else match ConcatAll(xs[..|xs| - 1], f)
      case Failure(e) => Failure(e)
      case Success(ys) =>
        match f(xs[|xs| - 1])
        case Failure(e) => Failure(e)
        case Success(zs) => Success(ys + zs)
  }

  /** A failure in a prefix is the failure of the whole. */
  lemma {:induction false} ConcatAllFailed<A, B>(xs: seq<A>, k: nat, f: A -> Result<seq<B>, string>)
    requires k <= |xs| && ConcatAll(xs[..k], f).Failure?
    ensures ConcatAll(xs, f) == ConcatAll(xs[..k], f)
    decreases |xs|
  {
    if k == |xs| {
      assert xs[..k] == xs;
    } else {
      var init := xs[..|xs| - 1];
      assert init[..k] == xs[..k];
      ConcatAllFailed(init, k, f);
    }
  }

  /** One more element: its result is appended, or its failure raised. */
  lemma ConcatAllStep<A, B>(xs: seq<A>, k: nat, f: A -> Result<seq<B>, string>)
    requires k < |xs|
    ensures xs[..k + 1][..k] == xs[..k] && xs[..k + 1][k] == xs[k]
  {
  }

  /** A result as a list of at most one element. */
  function One<B>(r: Result<B, string>): Result<seq<B>, string> {
    match r
    case Success(x) => Success([x])
    case Failure(e) => Failure(e)
  }

  function MaterialReader(render: Json -> string): Json -> Result<seq<Material>, string> {
    s => One(MaterialOf(s, render))
  }

  /** The materials of a tier's sources, in order. */
  function MaterialsOf(sources: seq<Json>, render: Json -> string): Result<seq<Material>, string> {
    ConcatAll(sources, MaterialReader(render))
  }

  /** One tier of an imbuement group; `tier.get` on a non-object raises `AttributeError`. */
  function TierOf(category: string, tier: Json, render: Json -> string): Result<Imbuement, string> {
    if !tier.JObj? then Failure(AttributeError)
    else
      var sources := match IterOf(GetDefault(tier.fields, "sources", JList([])))
        case Elements(es) => MaterialsOf(es, render)
        case Strings(n) => if n == 0 then Success([]) else Failure(TypeError)
        case NotIterable => Failure(TypeError);
      match sources
      case Failure(e) => Failure(e)
      case Success(ms) => Success(Imbuement(category, PyStr(GetDefault(tier.fields, "name", JStr("")), render), ms))
  }

  function TierReader(category: string, render: Json -> string): Json -> Result<seq<Imbuement>, string> {
    t => One(TierOf(category, t, render))
  }

  function TiersOf(category: string, tiers: seq<Json>, render: Json -> string): Result<seq<Imbuement>, string> {
    ConcatAll(tiers, TierReader(category, render))
  }

  /** `str(item.get("category", ""))`. */
  function GroupCategory(fields: map<string, Json>, render: Json -> string): string {
    PyStr(GetDefault(fields, "category", JStr("")), render)
  }

  /** The imbuements of one group, one per tier. */
  function GroupOf(item: Json, render: Json -> string): Result<seq<Imbuement>, string> {
    if !item.JObj? then Failure(AttributeError)
    else match IterOf(GetDefault(item.fields, "tiers", JList([])))
      case Elements(ts) => TiersOf(GroupCategory(item.fields, render), ts, render)
      case Strings(n) => if n == 0 then Success([]) else Failure(AttributeError)
      case NotIterable => Failure(TypeError)
  }

  function GroupReader(render: Json -> string): Json -> Result<seq<Imbuement>, string> {
    g => GroupOf(g, render)
  }

  function GroupsOf(items: seq<Json>, render: Json -> string): Result<seq<Imbuement>, string> {
    ConcatAll(items, GroupReader(render))
  }

  /** `build_imbuements(resource)`: every tier in document order, not sorted. */
  function ImbuementsOf(resource: map<string, Json>, render: Json -> string): Result<seq<Imbuement>, string> {
    match IterOf(GetDefault(resource, "imbuements", JList([])))
    case Elements(items) => GroupsOf(items, render)
    case Strings(n) => if n == 0 then Success([]) else Failure(AttributeError)
    case NotIterable => Failure(TypeError)
  }

  /** The body of the outer loop of `build_imbuements`: one group's tiers, appended in turn. */
  method ReadGroup(item: Json, render: Json -> string) returns (r: Result<seq<Imbuement>, string>)
    ensures r == GroupOf(item, render)
  {
    if !item.JObj? {
      return Failure(AttributeError);
    }
    var category := GroupCategory(item.fields, render);
    var tiers;
    match IterOf(GetDefault(item.fields, "tiers", JList([]))) {
      case Elements(ts) => tiers := ts;
      case Strings(n) => return if n == 0 then Success([]) else Failure(AttributeError);
      case NotIterable => return Failure(TypeError);
    }
    var imbuements: seq<Imbuement> := [];
    for j := 0 to |tiers|
      invariant TiersOf(category, tiers[..j], render) == Success(imbuements)
    {
      ConcatAllStep(tiers, j, TierReader(category, render));
      var imbuement := TierOf(category, tiers[j], render);
      if imbuement.Failure? {
        ConcatAllFailed(tiers, j + 1, TierReader(category, render));
        return Failure(imbuement.error);
      }
      imbuements := imbuements + [imbuement.value];
    }
    assert tiers[..|tiers|] == tiers;
    return Success(imbuements);
  }

  method BuildImbuements(resource: map<string, Json>, render: Json -> string)
    returns (r: Result<seq<Imbuement>, string>)
    ensures r == ImbuementsOf(resource, render)
  {
    var imbuements: seq<Imbuement> := [];
    var items;
    match IterOf(GetDefault(resource, "imbuements", JList([]))) {
      case Elements(es) => items := es;
      case Strings(n) => return if n == 0 then Success([]) else Failure(AttributeError);
      case NotIterable => return Failure(TypeError);
    }
    for i := 0 to |items|
      invariant GroupsOf(items[..i], render) == Success(imbuements)
    {
      ConcatAllStep(items, i, GroupReader(render));
      var group := ReadGroup(items[i], render);
      if group.Failure? {
        ConcatAllFailed(items, i + 1, GroupReader(render));
        return Failure(group.error);
      }
      imbuements := imbuements + group.value;
    }
    assert items[..|items|] == items;
    return Success(imbuements);
  }

  // ---- The same data written out and read back ----

  /** One tier as the imbuement data writes it. */
  datatype Tier = Tier(name: string, materials: seq<Material>)

  /** One imbuement group: a category and its tiers. */
  datatype Group = Group(category: string, tiers: seq<Tier>)

  function MaterialJson(m: Material): Json {
    JObj(map["qty" := JInt(m.qty), "name" := JStr(m.name)])
  }

  function SourcesJson(ms: seq<Material>): seq<Json> {
    seq(|ms|, i requires 0 <= i < |ms| => MaterialJson(ms[i]))
  }

  function TierJson(t: Tier): Json {
    JObj(map["name" := JStr(t.name), "sources" := JList(SourcesJson(t.materials))])
  }

  function TiersJson(ts: seq<Tier>): seq<Json> {
    seq(|ts|, i requires 0 <= i < |ts| => TierJson(ts[i]))
  }

  function GroupJson(g: Group): Json {
    JObj(map["category" := JStr(g.category), "tiers" := JList(TiersJson(g.tiers))])
  }

  function GroupsJson(gs: seq<Group>): seq<Json> {
    seq(|gs|, i requires 0 <= i < |gs| => GroupJson(gs[i]))
  }

  /** The imbuements a group stands for, one per tier, in order. */
  function GroupImbuements(g: Group): seq<Imbuement> {
    seq(|g.tiers|, i requires 0 <= i < |g.tiers| => Imbuement(g.category, g.tiers[i].name, g.tiers[i].materials))
  }

  function Flatten(gs: seq<Group>): seq<Imbuement>
    decreases |gs|
  {
    if gs == [] then [] else Flatten(gs[..|gs| - 1]) + GroupImbuements(gs[|gs| - 1])
  }

  lemma {:induction false} MaterialsRoundTrip(ms: seq<Material>, render: Json -> string)
    ensures MaterialsOf(SourcesJson(ms), render) == Success(ms)
    decreases |ms|
  {
    if ms != [] {
      var init := ms[..|ms| - 1];
      var js := SourcesJson(ms);
      assert js[..|ms| - 1] == SourcesJson(init);
      assert js[|ms| - 1] == MaterialJson(ms[|ms| - 1]);
      MaterialsRoundTrip(init, render);
      assert MaterialReader(render)(js[|js| - 1]) == Success([ms[|ms| - 1]]);
      assert init + [ms[|ms| - 1]] == ms;
    }
  }

  lemma TierRoundTrip(category: string, t: Tier, render: Json -> string)
    ensures TierOf(category, TierJson(t), render) == Success(Imbuement(category, t.name, t.materials))
  {
    MaterialsRoundTrip(t.materials, render);
  }

  lemma {:induction false} TiersRoundTrip(category: string, ts: seq<Tier>, render: Json -> string)
    ensures TiersOf(category, TiersJson(ts), render) == Success(GroupImbuements(Group(category, ts)))
    decreases |ts|
  {
    if ts != [] {
      var init := ts[..|ts| - 1];
      var last := ts[|ts| - 1];
      var js := TiersJson(ts);
      assert js[..|ts| - 1] == TiersJson(init);
      assert js[|ts| - 1] == TierJson(last);
      TiersRoundTrip(category, init, render);
      TierRoundTrip(category, last, render);
      var x := Imbuement(category, last.name, last.materials);
      assert TierReader(category, render)(js[|js| - 1]) == Success([x]);
      assert ConcatAll(js, TierReader(category, render))
          == Success(GroupImbuements(Group(category, init)) + [x]);
      assert GroupImbuements(Group(category, init)) + [x] == GroupImbuements(Group(category, ts));
    } else {
      assert TiersJson(ts) == [];
      assert GroupImbuements(Group(category, ts)) == [];
    }
  }

  lemma GroupRoundTrip(g: Group, render: Json -> string)
    ensures GroupOf(GroupJson(g), render) == Success(GroupImbuements(g))
  {
    assert GroupCategory(GroupJson(g).fields, render) == g.category;
    TiersRoundTrip(g.category, g.tiers, render);
  }

  lemma {:induction false} GroupsRoundTrip(gs: seq<Group>, render: Json -> string)
    ensures GroupsOf(GroupsJson(gs), render) == Success(Flatten(gs))
    decreases |gs|
  {
    if gs != [] {
      var init := gs[..|gs| - 1];
      var js := GroupsJson(gs);
      assert js[..|gs| - 1] == GroupsJson(init);
      assert js[|gs| - 1] == GroupJson(gs[|gs| - 1]);
      GroupsRoundTrip(init, render);
      GroupRoundTrip(gs[|gs| - 1], render);
    }
  }

  /**
   * Imbuement data written the way the bundled resource is builds back to one imbuement
   * per tier, in the data's order, with the group's category and the tier's materials.
   */
  lemma BuildImbuementsRoundTrip(gs: seq<Group>, render: Json -> string)
    ensures ImbuementsOf(map["imbuements" := JList(GroupsJson(gs))], render) == Success(Flatten(gs))
  {
    GroupsRoundTrip(gs, render);
  }

  /** A document without "imbuements" has none; one whose list holds a non-object raises. */
  lemma BuildImbuementsEdges(resource: map<string, Json>, render: Json -> string, k: nat)
    ensures "imbuements" !in resource ==> ImbuementsOf(resource, render) == Success([])
    ensures ("imbuements" in resource && resource["imbuements"].JList? && k < |resource["imbuements"].elems|
             && !resource["imbuements"].elems[k].JObj?) ==> ImbuementsOf(resource, render).Failure?
  {
    if "imbuements" in resource && resource["imbuements"].JList? && k < |resource["imbuements"].elems|
       && !resource["imbuements"].elems[k].JObj? {
      ConcatAllFailsAt(resource["imbuements"].elems, k, GroupReader(render));
    }
  }

  /** One failing element makes the whole fail. */
  lemma {:induction false} ConcatAllFailsAt<A, B>(xs: seq<A>, k: nat, f: A -> Result<seq<B>, string>)
    requires k < |xs| && f(xs[k]).Failure?
    ensures ConcatAll(xs, f).Failure?
    decreases |xs|
  {
    if k < |xs| - 1 {
      ConcatAllFailsAt(xs[..|xs| - 1], k, f);
    }
  }

  // ---- build_items ----

  datatype EquipmentItem = EquipmentItem(name: string, slot: string, imbueSlots: int, category: string)

  /** `SLOT_ALLOWED_CATEGORIES`: the item categories each equipment slot takes. */
  const SlotAllowedCategories: map<string, set<string>> := map[
    "head" := {"HELMET"},
    "armor" := {"ARMOR"},
    "legs" := {"LEGS"},
    "shield" := {"SHIELD"},
    "weapon" := {"WEAPON_1H", "WEAPON_2H"}
  ]

  /** `_build_category_slot_map().get(category)`. */
  function CategorySlot(category: string): Option<string> {
    if category == "HELMET" then Some("head")
    else if category == "ARMOR" then Some("armor")
    else if category == "LEGS" then Some("legs")
    else if category == "SHIELD" then Some("shield")
    else if category == "WEAPON_1H" || category == "WEAPON_2H" then Some("weapon")
    else None
  }

  /** The category-to-slot map inverts the allowed categories of every slot. */
  lemma CategorySlotInverts(category: string, slot: string)
    ensures CategorySlot(category) == Some(slot)
            <==> slot in SlotAllowedCategories && category in SlotAllowedCategories[slot]
  {
  }

  /** One entry of a category's "items": an object with a non-empty name and a slotted category. */
  function EntryItem(entry: Json, render: Json -> string): Option<EquipmentItem> {
    if !entry.JObj? then None
    else
      var name := Strip(PyStr(GetDefault(entry.fields, "name", JStr("")), render));
      if name == [] then None
      else
        var imbueSlots := PyIntOf(GetDefault(entry.fields, "slots", JInt(0))).GetOr(0);
        var category := Strip(PyStr(GetDefault(entry.fields, "category", JStr("")), render));
        match CategorySlot(category)
        case None => None
        case Some(slot) => Some(EquipmentItem(name, slot, imbueSlots, category))
  }

  function EntryReader(render: Json -> string): Json -> Option<EquipmentItem> {
    e => EntryItem(e, render)
  }

  /** The entries a category holds; a category that is not an object is skipped. */
  function CategoryEntries(category: Json): Result<seq<Json>, string> {
    if !category.JObj? then Success([])
    else match IterOf(GetDefault(category.fields, "items", JList([])))
      case Elements(es) => Success(es)
      case Strings(_) => Success([])
      case NotIterable => Failure(TypeError)
  }

  function CategoryReader(): Json -> Result<seq<Json>, string> {
    c => CategoryEntries(c)
  }

  function EntriesOf(categories: seq<Json>): Result<seq<Json>, string> {
    ConcatAll(categories, CategoryReader())
  }

  /** `key=lambda item: (item.slot, item.name)`. */
  predicate SlotNameLe(a: EquipmentItem, b: EquipmentItem) {
    PairLe((a.slot, a.name), (b.slot, b.name))
  }

  /** The items in document order, before sorting. */
  function UnsortedItems(resource: map<string, Json>, render: Json -> string): Result<seq<EquipmentItem>, string> {
    match IterOf(GetDefault(resource, "categories", JList([])))
    case Elements(cs) =>
      (match EntriesOf(cs)
       case Failure(e) => Failure(e)
       case Success(es) => Success(Collect(es, EntryReader(render))))
    case Strings(_) => Success([])
    case NotIterable => Failure(TypeError)
  }

  /** `build_items(resource)`. */
  function EquipmentItemsOf(resource: map<string, Json>, render: Json -> string): Result<seq<EquipmentItem>, string> {
    match UnsortedItems(resource, render)
    case Failure(e) => Failure(e)
    case Success(xs) => Success(SortBy(xs, SlotNameLe))
  }

  /** The body of the outer loop of `build_items`: a category's entries, each kept one appended. */
  method AppendEntries(items: seq<EquipmentItem>, es: seq<Json>, render: Json -> string)
    returns (out: seq<EquipmentItem>)
    ensures out == items + Collect(es, EntryReader(render))
  {
    out := items;
    for j := 0 to |es|
      invariant out == items + Collect(es[..j], EntryReader(render))
    {
      CollectSnoc(es, j, EntryReader(render));
      var item := EntryItem(es[j], render);
      if item.Some? {
        SnocAssoc(items, Collect(es[..j], EntryReader(render)), item.value);
        out := out + [item.value];
      }
    }
    assert es[..|es|] == es;
  }

  lemma SnocAssoc<T>(a: seq<T>, b: seq<T>, x: T)
    ensures a + b + [x] == a + (b + [x])
  {
  }

  method BuildItems(resource: map<string, Json>, render: Json -> string)
    returns (r: Result<seq<EquipmentItem>, string>)
    ensures r == EquipmentItemsOf(resource, render)
  {
    var items: seq<EquipmentItem> := [];
    var categories;
    match IterOf(GetDefault(resource, "categories", JList([]))) {
      case Elements(cs) => categories := cs;
      case Strings(_) => return Success([]);
      case NotIterable => return Failure(TypeError);
    }
    ghost var seen: seq<Json> := [];
    for i := 0 to |categories|
      invariant EntriesOf(categories[..i]) == Success(seen)
      invariant items == Collect(seen, EntryReader(render))
    {
      ConcatAllStep(categories, i, CategoryReader());
      var entries := CategoryEntries(categories[i]);
      if entries.Failure? {
        ConcatAllFailed(categories, i + 1, CategoryReader());
        assert categories[..|categories|] == categories;
        return Failure(entries.error);
      }
      items := AppendEntries(items, entries.value, render);
      CollectAppend(seen, entries.value, EntryReader(render));
      seen := seen + entries.value;
    }
    assert categories[..|categories|] == categories;
    items := SortBy(items, SlotNameLe);
    return Success(items);
  }

  lemma SlotNameLeTotal()
    ensures TotalPreorder(SlotNameLe)
  {
    PairLeTotalPreorder();
    forall a: EquipmentItem, b: EquipmentItem
      ensures SlotNameLe(a, b) || SlotNameLe(b, a)
    {
      assert PairLe((a.slot, a.name), (b.slot, b.name)) || PairLe((b.slot, b.name), (a.slot, a.name));
    }
    forall a: EquipmentItem, b: EquipmentItem, c: EquipmentItem | SlotNameLe(a, b) && SlotNameLe(b, c)
      ensures SlotNameLe(a, c)
    {
      assert PairLe((a.slot, a.name), (b.slot, b.name)) && PairLe((b.slot, b.name), (c.slot, c.name));
    }
  }

  /** A kept entry has a stripped, non-empty name and a category its slot allows. */
  lemma EntryItemOk(entry: Json, render: Json -> string)
    requires EntryItem(entry, render).Some?
    ensures var x := EntryItem(entry, render).value;
      && x.name != [] && NoEdgeSpace(x.name) && NoEdgeSpace(x.category)
      && x.slot in SlotAllowedCategories && x.category in SlotAllowedCategories[x.slot]
  {
    var x := EntryItem(entry, render).value;
    CategorySlotInverts(x.category, x.slot);
  }

  /**
   * The catalog is ordered by slot, then name; it holds exactly the entries that name an
   * item of an allowed category, each a stripped name in a slot that takes its category.
   */
  lemma BuildItemsMeaning(resource: map<string, Json>, render: Json -> string)
    requires EquipmentItemsOf(resource, render).Success?
    ensures SortedBy(EquipmentItemsOf(resource, render).value, SlotNameLe)
    ensures multiset(EquipmentItemsOf(resource, render).value) == multiset(UnsortedItems(resource, render).value)
    ensures forall x :: x in EquipmentItemsOf(resource, render).value ==>
      && x.name != [] && NoEdgeSpace(x.name)
      && x.slot in SlotAllowedCategories && x.category in SlotAllowedCategories[x.slot]
  {
    var xs := UnsortedItems(resource, render).value;
    SlotNameLeTotal();
    SortBySorted(xs, SlotNameLe);
    var ys := EquipmentItemsOf(resource, render).value;
    forall x | x in ys
      ensures x.name != [] && NoEdgeSpace(x.name)
      ensures x.slot in SlotAllowedCategories && x.category in SlotAllowedCategories[x.slot]
    {
      assert x in multiset(ys);
      assert x in xs;
      match IterOf(GetDefault(resource, "categories", JList([]))) {
        case Elements(cs) =>
          var es := EntriesOf(cs).value;
          CollectMembers(es, EntryReader(render));
          var j :| 0 <= j < |es| && EntryReader(render)(es[j]) == Some(x);
          EntryItemOk(es[j], render);
        case Strings(_) =>
        case NotIterable =>
      }
    }
  }

  /** Every entry that names an item of an allowed category is in the catalog. */
  lemma BuildItemsKeeps(resource: map<string, Json>, render: Json -> string, cs: seq<Json>, j: nat)
    requires GetDefault(resource, "categories", JList([])) == JList(cs)
    requires EntriesOf(cs).Success? && j < |EntriesOf(cs).value|
    requires EntryItem(EntriesOf(cs).value[j], render).Some?
    ensures EquipmentItemsOf(resource, render).Success?
    ensures EntryItem(EntriesOf(cs).value[j], render).value in EquipmentItemsOf(resource, render).value
  {
    var es := EntriesOf(cs).value;
    CollectMembers(es, EntryReader(render));
    var x := EntryItem(es[j], render).value;
    assert EntryReader(render)(es[j]) == Some(x);
    var xs := Collect(es, EntryReader(render));
    assert x in multiset(xs);
  }

  /** An entry of a category no slot takes is left out, whatever its name. */
  lemma EntryOutsideSlots(name: string, slots: int, category: string, render: Json -> string)
    requires Strip(category) !in {"HELMET", "ARMOR", "LEGS", "SHIELD", "WEAPON_1H", "WEAPON_2H"}
    ensures EntryItem(JObj(map["name" := JStr(name), "slots" := JInt(slots), "category" := JStr(category)]), render)
            == None
  {
  }

  /** A well-formed entry of an allowed category gives its stripped name, slot count and category. */
  lemma EntryInSlot(name: string, slots: int, category: string, render: Json -> string)
    requires Strip(name) != [] && CategorySlot(Strip(category)).Some?
    ensures EntryItem(JObj(map["name" := JStr(name), "slots" := JInt(slots), "category" := JStr(category)]), render)
            == Some(EquipmentItem(Strip(name), CategorySlot(Strip(category)).value, slots, Strip(category)))
  {
  }
}

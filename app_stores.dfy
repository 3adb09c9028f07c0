/**
 * The two stores the application keeps in memory: the list of characters with the
 * name of the active one, and the material prices with the favourite imbuements. Both
 * save themselves to a JSON file after each change; the files are not modelled here.
 * Beside them sit the two slot rules of the character window (adding an imbuement to
 * the active slot while the item has room, and removing one by position) and the
 * price total of an imbuement.
 */
module AppStores {
  import opened Wrappers
  import opened PyText
  import opened AppCatalog

  /** The equipment slots every character carries. */
  const EquipmentSlots: seq<string> := ["head", "armor", "weapon", "shield", "legs"]

  /** The stat names of a fresh character, all 0. */
  const StatNames: seq<string> := [
    "magic_level", "ml_percent", "mana_level", "hp", "mana", "capacity", "speed",
    "soul_points", "stamina", "shielding", "sword", "axe", "club", "distance"
  ]

  /** One equipment slot: the item worn there, if any, and the imbuement keys applied. */
  datatype Slot = Slot(item: Option<string>, imbues: seq<string>)

  datatype Character = Character(
    name: string,
    vocation: string,
    level: int,
    stats: map<string, int>,
    equipment: map<string, Slot>)

  /** `_default_character()`: a level 1 druid named "Default", all stats 0, every slot empty. */
  function DefaultCharacter(): (c: Character)
    ensures c.name == "Default" && c.vocation == "Druid" && c.level == 1
    ensures forall k :: k in c.stats <==> k in StatNames
    ensures forall k :: k in c.stats ==> c.stats[k] == 0
    ensures forall s :: s in c.equipment <==> s in EquipmentSlots
    ensures forall s :: s in c.equipment ==> c.equipment[s] == Slot(None, [])
  {
    Character("Default", "Druid", 1,
      map k | k in StatNames :: 0,
      map s | s in EquipmentSlots :: Slot(None, []))
  }

  // ---- The character list ----

  /** `names()`: the characters' names in list order. */
  function Names(cs: seq<Character>): (ns: seq<string>)
    ensures |ns| == |cs|
    ensures forall i :: 0 <= i < |cs| ==> ns[i] == cs[i].name
  {
    seq(|cs|, i requires 0 <= i < |cs| => cs[i].name)
  }

  /** Where the first character with this name sits, if any. */
  function FirstNamed(cs: seq<Character>, name: string): (r: Option<nat>)
    ensures r.Some? ==> r.value < |cs| && cs[r.value].name == name
    ensures r.Some? ==> forall k :: 0 <= k < r.value ==> cs[k].name != name
    ensures r.None? <==> forall k :: 0 <= k < |cs| ==> cs[k].name != name
    decreases |cs|
  {
    if cs == [] then None
    else if cs[0].name == name then Some(0)
    else
      match FirstNamed(cs[1..], name)
      case None => None
      case Some(i) => Some(i + 1)
  }

  /** The entry `get_active` returns: the first one carrying the active name, else the first. */
  function ActiveIndex(cs: seq<Character>, activeName: string): (i: nat)
    requires cs != []
    ensures i < |cs|
  {
    FirstNamed(cs, activeName).GetOr(0)
  }

  /** The list comprehension of `delete_character`: every entry not carrying the name, in order. */
  function Without(cs: seq<Character>, name: string): (r: seq<Character>)
    ensures |r| <= |cs|
    ensures forall c :: c in r <==> c in cs && c.name != name
    decreases |cs|
  {
    if cs == [] then []
    else (if cs[0].name != name then [cs[0]] else []) + Without(cs[1..], name)
  }

  /** The list `delete_character` leaves: the others, or the default character alone. */
  function Deleted(cs: seq<Character>, name: string): seq<Character> {
    var kept := Without(cs, name);
    if kept == [] then [DefaultCharacter()] else kept
  }

  /** The active name `delete_character` leaves. */
  function DeletedActive(cs: seq<Character>, activeName: string, name: string): string {
    if activeName == name then Deleted(cs, name)[0].name else activeName
  }

  /** The list `update_character` leaves: the first entry with the old name replaced. */
  function Replaced(cs: seq<Character>, oldName: string, updated: Character): seq<Character> {
    match FirstNamed(cs, oldName)
    case None => cs
    case Some(i) => cs[i := updated]
  }

  /** The active name `update_character` leaves. */
  function ReplacedActive(activeName: string, oldName: string, updated: Character): string {
    if activeName == oldName then updated.name else activeName
  }

  /** `if ignore and entry["name"] == ignore: continue`: a non-empty ignore name is passed over. */
  predicate Ignored(ignore: Option<string>, name: string) {
    ignore.Some? && ignore.value != [] && name == ignore.value
  }

  /** Some entry not passed over carries the name up to case. */
  predicate NameTaken(cs: seq<Character>, name: string, ignore: Option<string>) {
    exists i :: 0 <= i < |cs| && !Ignored(ignore, cs[i].name) && Lower(cs[i].name) == Lower(name)
  }

  /** The active name is one of the listed names. */
  predicate ActiveListed(cs: seq<Character>, activeName: string) {
    activeName in Names(cs)
  }

  class CharacterStore {
    var characters: seq<Character>
    var activeName: string

    /** The list is never empty. */
    ghost predicate Valid()
      reads this
    {
      characters != []
    }

    /**
     * `CharacterStore(path)` given the characters read from the file and its
     * `active_character`; a missing file is `loaded == []` with no stored name.
     */
    constructor (loaded: seq<Character>, storedActive: Option<string>)
      ensures characters == if loaded == [] then [DefaultCharacter()] else loaded
      ensures activeName == if storedActive.Some? && storedActive.value in Names(characters)
                            then storedActive.value else characters[0].name
      ensures Valid() && ActiveListed(characters, activeName)
    {
      var cs := if loaded == [] then [DefaultCharacter()] else loaded;
      characters := cs;
      if storedActive.Some? && storedActive.value in Names(cs) {
        activeName := storedActive.value;
      } else {
        activeName := cs[0].name;
      }
    }

    /** `get_active`: the first entry with the active name; without one, the first entry, which becomes active. */
    method GetActive() returns (c: Character)
      requires Valid()
      modifies this
      ensures characters == old(characters)
      ensures c == characters[ActiveIndex(characters, old(activeName))]
      ensures activeName == c.name
      ensures ActiveListed(characters, activeName)
    {
      for i := 0 to |characters|
        invariant forall k :: 0 <= k < i ==> characters[k].name != activeName
      {
        if characters[i].name == activeName {
          c := characters[i];
          assert Names(characters)[i] == activeName;
          return;
        }
      }
      activeName := characters[0].name;
      c := characters[0];
      assert Names(characters)[0] == activeName;
    }

    /** `set_active`: takes the name as given. */
    method SetActive(name: string)
      modifies this
      ensures characters == old(characters) && activeName == name
    {
      activeName := name;
    }

    /** `add_character`: appends and makes the new character active. */
    method AddCharacter(c: Character)
      modifies this
      ensures characters == old(characters) + [c] && activeName == c.name
      ensures Valid() && ActiveListed(characters, activeName)
    {
      characters := characters + [c];
      activeName := c.name;
      assert Names(characters)[|characters| - 1] == c.name;
    }

    /** `delete_character`. */
    method DeleteCharacter(name: string)
      requires Valid()
      modifies this
      ensures characters == Deleted(old(characters), name)
      ensures activeName == DeletedActive(old(characters), old(activeName), name)
      ensures Valid()
      ensures old(ActiveListed(characters, activeName)) ==> ActiveListed(characters, activeName)
    {
      DeletedKeepsActive(characters, activeName, name);
      characters := Without(characters, name);
      if characters == [] {
        characters := [DefaultCharacter()];
      }
      if activeName == name {
        activeName := characters[0].name;
      }
    }

    /** `is_name_unique`: no entry other than the ignored one has the name up to case. */
    method IsNameUnique(name: string, ignore: Option<string>) returns (b: bool)
      ensures b <==> !NameTaken(characters, name, ignore)
    {
      var lowered := Lower(name);
      for i := 0 to |characters|
        invariant forall k :: 0 <= k < i && !Ignored(ignore, characters[k].name) ==> Lower(characters[k].name) != lowered
      {
        if ignore.Some? && ignore.value != [] && characters[i].name == ignore.value {
          continue;
        }
        if Lower(characters[i].name) == lowered {
          return false;
        }
      }
      return true;
    }

    /** `update_character`: replaces the first entry with the old name and follows a rename of the active one. */
    method UpdateCharacter(oldName: string, updated: Character)
      requires Valid()
      modifies this
      ensures characters == Replaced(old(characters), oldName, updated)
      ensures activeName == ReplacedActive(old(activeName), oldName, updated)
      ensures Valid()
      ensures old(ActiveListed(characters, activeName)) ==> ActiveListed(characters, activeName)
    {
      ReplacedKeepsActive(characters, activeName, oldName, updated);
      var i := 0;
      while i < |characters|
        invariant 0 <= i <= |characters|
        invariant forall k :: 0 <= k < i ==> characters[k].name != oldName
        invariant characters == old(characters)
      {
        if characters[i].name == oldName {
          characters := characters[i := updated];
          break;
        }
        i := i + 1;
      }
      if activeName == oldName {
        activeName := updated.name;
      }
    }

    /** `_apply_selected_imbue` of the character window whose character is named `current`. */
    method ApplyImbue(current: string, slot: string, key: string, itemMap: map<string, EquipmentItem>)
      requires Valid()
      modifies this
      ensures characters == AppliedImbue(old(characters), old(activeName), current, slot, key, itemMap)
      ensures activeName == old(characters)[ActiveIndex(old(characters), old(activeName))].name
      ensures Valid()
    {
      var c := GetActive();
      var s := SlotOf(c, slot);
      var added := WithImbue(s, key, itemMap);
      if added.None? {
        return;
      }
      var updated := Equip(c, slot, added.value);
      UpdateCharacter(current, updated);
    }

    /** `_remove_imbue` of the character window whose character is named `current`; `raised` is the `IndexError` of `pop`. */
    method RemoveImbue(current: string, slot: string, index: int) returns (raised: bool)
      requires Valid()
      modifies this
      ensures characters == RemovedImbue(old(characters), old(activeName), current, slot, index)
      ensures activeName == old(characters)[ActiveIndex(old(characters), old(activeName))].name
      ensures raised <==> WithoutImbue(SlotOf(old(characters)[ActiveIndex(old(characters), old(activeName))], slot), index).Raises?
      ensures Valid()
    {
      var c := GetActive();
      var s := SlotOf(c, slot);
      var removal := WithoutImbue(s, index);
      match removal {
        case Unchanged =>
          return false;
        case Raises =>
          return true;
        case Removed(t) =>
          var updated := Equip(c, slot, t);
          UpdateCharacter(current, updated);
          return false;
      }
    }
  }

  // ---- What the list operations promise ----

  /** Deleting never leaves the list empty, and keeps only the others or the default alone. */
  lemma DeletedMeaning(cs: seq<Character>, name: string)
    ensures Deleted(cs, name) != []
    ensures forall c :: c in Deleted(cs, name) ==> (c in cs && c.name != name) || c == DefaultCharacter()
    ensures (exists c :: c in cs && c.name != name) ==>
              forall c :: c in Deleted(cs, name) ==> c in cs && c.name != name
    ensures (forall c :: c in cs ==> c.name == name) ==> Deleted(cs, name) == [DefaultCharacter()]
  {
    var kept := Without(cs, name);
    if kept == [] {
      assert forall c :: c in cs ==> c.name == name;
    } else {
      assert kept[0] in kept;
    }
  }

  /** A deleted name is gone from the list unless it is the default character's own. */
  lemma DeletedNameGone(cs: seq<Character>, name: string)
    requires name != "Default"
    ensures name !in Names(Deleted(cs, name))
  {
    var r := Deleted(cs, name);
    forall i | 0 <= i < |r|
      ensures r[i].name != name
    {
      assert r[i] in r;
    }
  }

  /** An active name that was listed stays listed after a delete. */
  lemma DeletedKeepsActive(cs: seq<Character>, activeName: string, name: string)
    ensures ActiveListed(cs, activeName) ==>
              ActiveListed(Deleted(cs, name), DeletedActive(cs, activeName, name))
  {
    var r := Deleted(cs, name);
    assert r != [] by { DeletedMeaning(cs, name); }
    if activeName == name {
      assert Names(r)[0] == r[0].name;
    } else if ActiveListed(cs, activeName) {
      var i :| 0 <= i < |cs| && Names(cs)[i] == activeName;
      assert cs[i] in Without(cs, name);
      var kept := Without(cs, name);
      var j :| 0 <= j < |kept| && kept[j] == cs[i];
      assert Names(r)[j] == activeName;
    }
  }

  /** Updating keeps the length and changes at most the first entry with the old name. */
  lemma ReplacedMeaning(cs: seq<Character>, oldName: string, updated: Character)
    ensures |Replaced(cs, oldName, updated)| == |cs|
    ensures oldName !in Names(cs) ==> Replaced(cs, oldName, updated) == cs
    ensures oldName in Names(cs) ==> updated in Replaced(cs, oldName, updated)
    ensures forall k :: 0 <= k < |cs| && cs[k].name != oldName ==> Replaced(cs, oldName, updated)[k] == cs[k]
  {
    if oldName in Names(cs) {
      var j :| 0 <= j < |cs| && Names(cs)[j] == oldName;
      assert cs[j].name == oldName;
      var i := FirstNamed(cs, oldName).value;
      assert Replaced(cs, oldName, updated)[i] == updated;
    }
  }

  /** An active name that was listed stays listed after an update. */
  lemma ReplacedKeepsActive(cs: seq<Character>, activeName: string, oldName: string, updated: Character)
    ensures ActiveListed(cs, activeName) ==>
              ActiveListed(Replaced(cs, oldName, updated), ReplacedActive(activeName, oldName, updated))
  {
    if ActiveListed(cs, activeName) {
      var r := Replaced(cs, oldName, updated);
      var i :| 0 <= i < |cs| && Names(cs)[i] == activeName;
      match FirstNamed(cs, oldName)
      case None =>
        assert Names(r)[i] == activeName;
      case Some(j) =>
        if activeName == oldName {
          assert Names(r)[j] == updated.name;
        } else {
          assert j != i;
          assert Names(r)[i] == activeName;
        }
    }
  }

  /** A name differing only in case from a listed one is refused; with nothing listed any name is free. */
  lemma NameTakenCaseless(cs: seq<Character>, i: nat, name: string)
    requires i < |cs| && Lower(cs[i].name) == Lower(name)
    ensures NameTaken(cs, name, None)
    ensures NameTaken(cs, name, Some([]))
    ensures !NameTaken([], name, None)
  {
    assert !Ignored(None, cs[i].name);
    assert !Ignored(Some([]), cs[i].name);
  }

  /** A character renamed to its own name passes when it ignores itself and is the only one with that name. */
  lemma NameTakenIgnoresSelf(cs: seq<Character>, name: string)
    requires name != []
    requires forall k :: 0 <= k < |cs| && Lower(cs[k].name) == Lower(name) ==> cs[k].name == name
    ensures !NameTaken(cs, name, Some(name))
  {
  }

  // ---- The slot rules ----

  /** `equipment.get(slot, {})` with its `item` and `imbues` read. */
  function SlotOf(c: Character, slot: string): Slot {
    if slot in c.equipment then c.equipment[slot] else Slot(None, [])
  }

  /** The character with the slot written back. */
  function Equip(c: Character, slot: string, s: Slot): Character {
    c.(equipment := c.equipment[slot := s])
  }

  /** The slot holds an item the catalog knows, with fewer imbuements than its capacity. */
  predicate HasRoom(s: Slot, itemMap: map<string, EquipmentItem>) {
    s.item.Some? && s.item.value != [] && s.item.value in itemMap
    && |s.imbues| < itemMap[s.item.value].imbueSlots
  }

  /** The slot rule of `_apply_selected_imbue`: `None` when a message box refuses the key. */
  function WithImbue(s: Slot, key: string, itemMap: map<string, EquipmentItem>): Option<Slot> {
    if s.item.None? || s.item.value == [] then None
    else if s.item.value !in itemMap || itemMap[s.item.value].imbueSlots <= 0 then None
    else if |s.imbues| >= itemMap[s.item.value].imbueSlots then None
    else Some(s.(imbues := s.imbues + [key]))
  }

  /** A slot holding an item the catalog knows holds no more imbuements than the item allows. */
  predicate WithinCapacity(s: Slot, itemMap: map<string, EquipmentItem>) {
    s.item.Some? && s.item.value in itemMap ==> |s.imbues| <= Max0(itemMap[s.item.value].imbueSlots)
  }

  function Max0(n: int): nat {
    if n >= 0 then n else 0
  }

  /** The key is added exactly when there is room, and nothing else in the slot changes. */
  lemma WithImbueMeaning(s: Slot, key: string, itemMap: map<string, EquipmentItem>)
    ensures WithImbue(s, key, itemMap).Some? <==> HasRoom(s, itemMap)
    ensures HasRoom(s, itemMap) ==>
              WithImbue(s, key, itemMap) == Some(Slot(s.item, s.imbues + [key]))
  {
  }

  /** Adding an imbuement never takes a slot past its item's capacity. */
  lemma WithImbueWithinCapacity(s: Slot, key: string, itemMap: map<string, EquipmentItem>)
    requires WithinCapacity(s, itemMap)
    ensures WithImbue(s, key, itemMap).Some? ==> WithinCapacity(WithImbue(s, key, itemMap).value, itemMap)
  {
  }

  /** How `pop(index)` ends: no call (index past the end), an `IndexError`, or the list without that entry. */
  datatype Removal = Unchanged | Raises | Removed(slot: Slot)

  /** The slot rule of `_remove_imbue`: Python's `pop`, where a negative index counts from the end. */
  function WithoutImbue(s: Slot, index: int): Removal {
    var n := |s.imbues|;
    if index >= n then Unchanged
    else if index < -n then Raises
    else
      var k := if index >= 0 then index else n + index;
      Removed(s.(imbues := s.imbues[..k] + s.imbues[k + 1..]))
  }

  /** An index past the end changes nothing; a valid one drops exactly that entry. */
  lemma WithoutImbueMeaning(s: Slot, index: int)
    ensures index >= |s.imbues| ==> WithoutImbue(s, index) == Unchanged
    ensures 0 <= index < |s.imbues| ==>
              WithoutImbue(s, index) == Removed(Slot(s.item, s.imbues[..index] + s.imbues[index + 1..]))
    ensures -|s.imbues| <= index < 0 ==>
              WithoutImbue(s, index) == Removed(Slot(s.item, s.imbues[..|s.imbues| + index] + s.imbues[|s.imbues| + index + 1..]))
    ensures index < -|s.imbues| <==> WithoutImbue(s, index).Raises?
  {
  }

  /** Removing keeps the item, takes one entry off and keeps the rest in order. */
  lemma WithoutImbueShrinks(s: Slot, index: int, itemMap: map<string, EquipmentItem>)
    requires WithinCapacity(s, itemMap)
    ensures WithoutImbue(s, index).Removed? ==>
              var t := WithoutImbue(s, index).slot;
              t.item == s.item && |t.imbues| == |s.imbues| - 1
              && multiset(t.imbues) <= multiset(s.imbues) && WithinCapacity(t, itemMap)
  {
    if WithoutImbue(s, index).Removed? {
      var n := |s.imbues|;
      var k := if index >= 0 then index else n + index;
      assert s.imbues == s.imbues[..k] + [s.imbues[k]] + s.imbues[k + 1..];
    }
  }

  /** The list `_apply_selected_imbue` leaves. */
  function AppliedImbue(cs: seq<Character>, activeName: string, current: string, slot: string,
                        key: string, itemMap: map<string, EquipmentItem>): seq<Character>
    requires cs != []
  {
    var c := cs[ActiveIndex(cs, activeName)];
    match WithImbue(SlotOf(c, slot), key, itemMap)
    case None => cs
    case Some(s) => Replaced(cs, current, Equip(c, slot, s))
  }

  /** The list `_remove_imbue` leaves. */
  function RemovedImbue(cs: seq<Character>, activeName: string, current: string, slot: string,
                        index: int): seq<Character>
    requires cs != []
  {
    var c := cs[ActiveIndex(cs, activeName)];
    match WithoutImbue(SlotOf(c, slot), index)
    case Removed(s) => Replaced(cs, current, Equip(c, slot, s))
    case _ => cs
  }

  /** Every slot of every character holds no more imbuements than its item allows. */
  predicate AllWithinCapacity(cs: seq<Character>, itemMap: map<string, EquipmentItem>) {
    forall i, s :: 0 <= i < |cs| && s in cs[i].equipment ==> WithinCapacity(cs[i].equipment[s], itemMap)
  }

  /** Writing a slot within capacity back into a character and the list keeps every slot within capacity. */
  lemma EquipWithinCapacity(cs: seq<Character>, c: Character, current: string, slot: string,
                            s: Slot, itemMap: map<string, EquipmentItem>)
    requires AllWithinCapacity(cs, itemMap) && c in cs && WithinCapacity(s, itemMap)
    ensures AllWithinCapacity(Replaced(cs, current, Equip(c, slot, s)), itemMap)
  {
    var e := Equip(c, slot, s);
    var j :| 0 <= j < |cs| && cs[j] == c;
    assert forall t :: t in e.equipment ==> WithinCapacity(e.equipment[t], itemMap) by {
      forall t | t in e.equipment
        ensures WithinCapacity(e.equipment[t], itemMap)
      {
        if t != slot {
          assert t in cs[j].equipment;
        }
      }
    }
  }

  /** Adding an imbuement keeps every slot of every character within its item's capacity. */
  lemma AppliedImbueWithinCapacity(cs: seq<Character>, activeName: string, current: string,
                                   slot: string, key: string, itemMap: map<string, EquipmentItem>)
    requires cs != [] && AllWithinCapacity(cs, itemMap)
    ensures AllWithinCapacity(AppliedImbue(cs, activeName, current, slot, key, itemMap), itemMap)
  {
    var i := ActiveIndex(cs, activeName);
    var c := cs[i];
    var s := SlotOf(c, slot);
    match WithImbue(s, key, itemMap)
    case None =>
    case Some(t) =>
      assert WithinCapacity(s, itemMap) by {
        if slot in c.equipment {
          assert WithinCapacity(cs[i].equipment[slot], itemMap);
        }
      }
      WithImbueWithinCapacity(s, key, itemMap);
      EquipWithinCapacity(cs, c, current, slot, t, itemMap);
  }

  /** In a window showing the active character, adding an imbuement changes only that character's slot. */
  lemma AppliedImbueActive(cs: seq<Character>, activeName: string, slot: string, key: string,
                           itemMap: map<string, EquipmentItem>)
    requires cs != []
    ensures var i := ActiveIndex(cs, activeName);
            var c := cs[i];
            var r := AppliedImbue(cs, activeName, c.name, slot, key, itemMap);
            |r| == |cs| && (forall k :: 0 <= k < |cs| && k != i ==> r[k] == cs[k])
            && (WithImbue(SlotOf(c, slot), key, itemMap).Some? ==> r[i] == Equip(c, slot, WithImbue(SlotOf(c, slot), key, itemMap).value))
  {
    var i := ActiveIndex(cs, activeName);
    var c := cs[i];
    FirstNamedOfEntry(cs, activeName);
  }

  /** The entry `get_active` picks is the first one carrying its own name. */
  lemma FirstNamedOfEntry(cs: seq<Character>, activeName: string)
    requires cs != []
    ensures FirstNamed(cs, cs[ActiveIndex(cs, activeName)].name) == Some(ActiveIndex(cs, activeName))
  {
    var i := ActiveIndex(cs, activeName);
    var f := FirstNamed(cs, cs[i].name);
    assert f.Some?;
  }

  /** Removing an imbuement keeps every slot of every character within its item's capacity. */
  lemma RemovedImbueWithinCapacity(cs: seq<Character>, activeName: string, current: string,
                                   slot: string, index: int, itemMap: map<string, EquipmentItem>)
    requires cs != [] && AllWithinCapacity(cs, itemMap)
    ensures AllWithinCapacity(RemovedImbue(cs, activeName, current, slot, index), itemMap)
  {
    var i := ActiveIndex(cs, activeName);
    var c := cs[i];
    var s := SlotOf(c, slot);
    match WithoutImbue(s, index)
    case Removed(t) =>
      assert WithinCapacity(s, itemMap) by {
        if slot in c.equipment {
          assert WithinCapacity(cs[i].equipment[slot], itemMap);
        }
      }
      WithoutImbueShrinks(s, index, itemMap);
      EquipWithinCapacity(cs, c, current, slot, t, itemMap);
    case _ =>
  }

  // ---- Prices ----

  /** Every stored price is at least 0. */
  predicate NonNegative(prices: map<string, int>) {
    forall m :: m in prices ==> prices[m] >= 0
  }

  /** `prices.get(name, 0)`. */
  function PriceOf(prices: map<string, int>, material: string): (p: int)
    ensures NonNegative(prices) ==> p >= 0
    ensures material !in prices ==> p == 0
  {
    if material in prices then prices[material] else 0
  }

  class ImbuementStore {
    var prices: map<string, int>
    var favorites: map<string, bool>

    /** `ImbuementStore(path)` given the maps read from the file; a missing file is two empty maps. */
    constructor (prices: map<string, int>, favorites: map<string, bool>)
      ensures this.prices == prices && this.favorites == favorites
    {
      this.prices := prices;
      this.favorites := favorites;
    }

    /** `get_price`: a material without a price costs 0. */
    function GetPrice(material: string): (p: int)
      reads this
      ensures NonNegative(prices) ==> p >= 0
      ensures material !in prices ==> p == 0
    {
      PriceOf(prices, material)
    }

    /** `set_price`: stores the price clamped at 0. */
    method SetPrice(material: string, price: int)
      modifies this
      ensures prices == old(prices)[material := MaxInt(0, price)]
      ensures favorites == old(favorites)
      ensures GetPrice(material) >= 0
      ensures old(NonNegative(prices)) ==> NonNegative(prices)
    {
      prices := prices[material := MaxInt(0, price)];
    }

    /** `is_favorite`: a key never marked is not a favourite. */
    function IsFavorite(key: string): (b: bool)
      reads this
      ensures b <==> key in favorites && favorites[key]
    {
      if key in favorites then favorites[key] else false
    }

    /** `set_favorite`. */
    method SetFavorite(key: string, value: bool)
      modifies this
      ensures favorites == old(favorites)[key := value]
      ensures prices == old(prices)
      ensures IsFavorite(key) == value
    {
      favorites := favorites[key := value];
    }
  }

  /** `_calculate_total`: the sum of quantity times price over the materials. */
  function Total(materials: seq<Material>, prices: map<string, int>): int
    decreases |materials|
  {
    if materials == [] then 0
    else
      var last := materials[|materials| - 1];
      Total(materials[..|materials| - 1], prices) + last.qty * PriceOf(prices, last.name)
  }

  /** `_calculate_total` as the window calls it, reading the store. */
  function CalculateTotal(imbuement: Imbuement, store: ImbuementStore): int
    reads store
  {
    Total(imbuement.materials, store.prices)
  }

  /** The total of two lists of materials one after the other is the sum of their totals. */
  lemma {:induction false} TotalAppend(ms: seq<Material>, ns: seq<Material>, prices: map<string, int>)
    ensures Total(ms + ns, prices) == Total(ms, prices) + Total(ns, prices)
    decreases |ns|
  {
    if ns == [] {
      assert ms + ns == ms;
    } else {
      var init := ns[..|ns| - 1];
      assert (ms + ns)[..|ms + ns| - 1] == ms + init;
      TotalAppend(ms, init, prices);
    }
  }

  /** With non-negative quantities and prices the total is never negative. */
  lemma {:induction false} TotalNonNegative(ms: seq<Material>, prices: map<string, int>)
    requires forall i :: 0 <= i < |ms| ==> ms[i].qty >= 0
    requires NonNegative(prices)
    ensures Total(ms, prices) >= 0
    decreases |ms|
  {
    if ms != [] {
      var last := ms[|ms| - 1];
      TotalNonNegative(ms[..|ms| - 1], prices);
      ProductNonNegative(last.qty, PriceOf(prices, last.name));
    }
  }

  lemma ProductNonNegative(a: int, b: int)
    requires a >= 0 && b >= 0
    ensures a * b >= 0
  {
  }

  /** Every price the store hands out keeps the totals of its imbuements non-negative. */
  lemma CalculateTotalNonNegative(imbuement: Imbuement, store: ImbuementStore)
    requires forall i :: 0 <= i < |imbuement.materials| ==> imbuement.materials[i].qty >= 0
    requires NonNegative(store.prices)
    ensures CalculateTotal(imbuement, store) >= 0
  {
    TotalNonNegative(imbuement.materials, store.prices);
  }

  /** Changing the price of a material the list does not use leaves the total alone. */
  lemma {:induction false} TotalIgnoresOthers(ms: seq<Material>, prices: map<string, int>, m: string, p: int)
    requires forall i :: 0 <= i < |ms| ==> ms[i].name != m
    ensures Total(ms, prices[m := p]) == Total(ms, prices)
    decreases |ms|
  {
    if ms != [] {
      TotalIgnoresOthers(ms[..|ms| - 1], prices, m, p);
    }
  }

  /** A material used once changes the total by its quantity times the price difference. */
  lemma TotalOneMaterial(qty: int, name: string, prices: map<string, int>, p: int)
    ensures Total([Material(qty, name)], prices[name := p]) == qty * p
    ensures Total([Material(qty, name)], prices) == qty * PriceOf(prices, name)
  {
    assert [Material(qty, name)][..0] == [];
  }
}

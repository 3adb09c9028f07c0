/**
 * The search history: a most-recent-first list of search terms, de-duplicated on
 * insertion, cut to a limit, loaded from and saved to a JSON file. The file itself is
 * a parameter on loading and a returned value on saving.
 */
module History {
  import opened Wrappers
  import opened PyText
  import opened PyJson

  const DefaultLimit: int := 20


  /** Python's `s[:k]`, where a negative `k` counts from the end. */
  function Head<T>(s: seq<T>, k: int): (r: seq<T>)
    ensures r <= s
    ensures 0 <= k ==> |r| == MinInt(k, |s|)
    ensures k < 0 ==> |r| == MaxInt(0, |s| + k)
  {
    if k >= 0 then s[..MinInt(k, |s|)] else s[..MaxInt(0, |s| + k)]
  }

  /** `list.index(x)`: where the first copy of `x` sits. */
  function FirstIndex(s: seq<string>, x: string): (i: nat)
    requires x in s
    ensures i < |s| && s[i] == x && x !in s[..i]
    decreases |s|
  {
    if s[0] == x then 0
    else
      var i := FirstIndex(s[1..], x);
      assert s[..i + 1] == [s[0]] + s[1..][..i];
      i + 1
  }

  /** `list.remove(x)`: drops the first copy of `x`; the list is unchanged without one. */
  function Remove(s: seq<string>, x: string): seq<string> {
    if x in s then s[..FirstIndex(s, x)] + s[FirstIndex(s, x) + 1..] else s
  }

  /** What `add` leaves in the list. */
  function AddTo(items: seq<string>, term: string, limit: int): seq<string> {
    var t := Strip(term);
    if t == [] then items else Head([t] + Remove(items, t), limit)
  }

  /** No term appears twice. */
  predicate Unique(s: seq<string>) {
    forall i, j :: 0 <= i < j < |s| ==> s[i] != s[j]
  }

  /** The history file as `_load` finds it. */
  datatype StoredHistory = NoFile | Unreadable | Parsed(data: Json)

  /** `_load`: a JSON list becomes its elements' `str()`, cut to the limit; anything else an empty list. */
  function Loaded(stored: StoredHistory, limit: int, render: Json -> string): seq<string> {
    match stored
    case Parsed(JList(elems)) =>
      Head(seq(|elems|, i requires 0 <= i < |elems| => PyStr(elems[i], render)), limit)
    case _ => []
  }

  /** The document `_save` writes. */
  function Saved(items: seq<string>): (j: Json)
    ensures j.JList? && |j.elems| == |items|
    ensures forall i :: 0 <= i < |items| ==> j.elems[i] == JStr(items[i])
  {
    JList(seq(|items|, i requires 0 <= i < |items| => JStr(items[i])))
  }

  class HistoryManager {
    const limit: int
    var items: seq<string>

    /** A non-negative limit bounds the list. */
    ghost predicate Valid()
      reads this
    {
      0 <= limit ==> |items| <= limit
    }

    /** `HistoryManager(path, limit)`, reading the file as `_load` does. */
    constructor (limit: int, stored: StoredHistory, render: Json -> string)
      ensures this.limit == limit
      ensures items == Loaded(stored, limit, render)
      ensures Valid()
    {
      this.limit := limit;
      match stored {
        case Parsed(JList(elems)) =>
          var strs := seq(|elems|, i requires 0 <= i < |elems| => PyStr(elems[i], render));
          items := Head(strs, limit);
        case _ =>
          items := [];
      }
    }

    /** `add`: returns what `_save` writes, or `None` when nothing is saved. */
    method Add(term: string) returns (saved: Option<Json>)
      requires Valid()
      modifies this
      ensures Valid()
      ensures items == AddTo(old(items), term, limit)
      ensures saved == if Strip(term) == [] then None else Some(Saved(items))
    {
      var t := Strip(term);
      if t == [] {
        return None;
      }
      if t in items {
        items := Remove(items, t);
      }
      items := [t] + items;
      items := Head(items, limit);
      saved := Some(Saved(items));
    }
  }

  // ---- What `add` promises ----

  /** A term that is blank after stripping changes nothing. */
  lemma AddBlank(items: seq<string>, term: string, limit: int)
    requires AllSpace(term)
    ensures AddTo(items, term, limit) == items
  {
    TrimLeftAllSpace(term);
  }

  /**
   * With room for it, the stripped term comes first, followed by the other entries in
   * their old order (the first old copy of the term left out), cut to the limit.
   */
  lemma AddFront(items: seq<string>, term: string, limit: int)
    requires Strip(term) != [] && limit >= 1
    ensures AddTo(items, term, limit) != []
    ensures AddTo(items, term, limit)[0] == Strip(term)
    ensures AddTo(items, term, limit)[1..] <= Remove(items, Strip(term))
    ensures |AddTo(items, term, limit)| == MinInt(limit, 1 + |Remove(items, Strip(term))|)
    ensures |AddTo(items, term, limit)| <= limit
  {
    var t := Strip(term);
    var s := [t] + Remove(items, t);
    var r := Head(s, limit);
    assert r == s[..|r|];
    assert r[1..] == Remove(items, t)[..|r| - 1];
  }

  /** Within the limit, re-adding a term already present only moves it to the front. */
  lemma AddMovesToFront(items: seq<string>, term: string, limit: int)
    requires Strip(term) != [] && Strip(term) in items && |items| <= limit
    ensures multiset(AddTo(items, term, limit)) == multiset(items)
  {
    var t := Strip(term);
    var i := FirstIndex(items, t);
    var s := [t] + Remove(items, t);
    assert |s| == |items|;
    assert Head(s, limit) == s;
    assert items == items[..i] + [t] + items[i + 1..];
    assert s == [t] + items[..i] + items[i + 1..];
  }

  /** A list without duplicates stays without duplicates. */
  lemma AddUnique(items: seq<string>, term: string, limit: int)
    requires Unique(items)
    ensures Unique(AddTo(items, term, limit))
  {
    var t := Strip(term);
    if t != [] {
      var rest := Remove(items, t);
      RemoveUnique(items, t);
      var s := [t] + rest;
      assert Unique(s) by {
        forall i, j | 0 <= i < j < |s|
          ensures s[i] != s[j]
        {
          if i == 0 {
            assert s[j] == rest[j - 1];
          } else {
            assert s[i] == rest[i - 1] && s[j] == rest[j - 1];
          }
        }
      }
      var r := Head(s, limit);
      assert forall i :: 0 <= i < |r| ==> r[i] == s[i];
    }
  }

  /** Removing from a list without duplicates takes every copy of the term. */
  lemma RemoveUnique(items: seq<string>, t: string)
    requires Unique(items)
    ensures Unique(Remove(items, t)) && t !in Remove(items, t)
  {
    if t in items {
      var i := FirstIndex(items, t);
      var r := Remove(items, t);
      forall k | 0 <= k < |r|
        ensures r[k] == (if k < i then items[k] else items[k + 1])
      {
      }
      forall a, b | 0 <= a < b < |r|
        ensures r[a] != r[b]
      {
      }
      forall k | 0 <= k < |r|
        ensures r[k] != t
      {
      }
    }
  }

  /** Adding the same term twice is adding it once. */
  lemma AddTwice(items: seq<string>, term: string, limit: int)
    requires 0 <= limit
    ensures AddTo(AddTo(items, term, limit), term, limit) == AddTo(items, term, limit)
  {
    var t := Strip(term);
    if t != [] {
      var r := AddTo(items, term, limit);
      if limit == 0 {
        assert r == [];
      } else {
        AddFront(items, term, limit);
        assert r == [t] + r[1..];
        assert Remove(r, t) == r[1..];
        assert Head([t] + r[1..], limit) == r;
      }
    }
  }

  /** With a non-negative limit, `add` never grows the list past it. */
  lemma AddBounded(items: seq<string>, term: string, limit: int)
    requires 0 <= limit && |items| <= limit
    ensures |AddTo(items, term, limit)| <= limit
  {
  }

  // ---- Loading and saving ----

  /** Loading never yields more entries than a non-negative limit. */
  lemma LoadedBounded(stored: StoredHistory, limit: int, render: Json -> string)
    requires 0 <= limit
    ensures |Loaded(stored, limit, render)| <= limit
  {
  }

  /** Loading what was saved gives the same entries back when they fit the limit. */
  lemma SaveLoadRoundTrip(items: seq<string>, limit: int, render: Json -> string)
    requires |items| <= limit
    ensures Loaded(Parsed(Saved(items)), limit, render) == items
  {
    var elems := Saved(items).elems;
    var strs := seq(|elems|, i requires 0 <= i < |elems| => PyStr(elems[i], render));
    assert strs == items;
  }

  /** A file that is missing, unreadable, or not a JSON list gives an empty history. */
  lemma LoadedEmpty(stored: StoredHistory, limit: int, render: Json -> string)
    requires !(stored.Parsed? && stored.data.JList?)
    ensures Loaded(stored, limit, render) == []
  {
  }
}

/**
 * A Python `dict` from header names to rendered header values: insertion
 * ordered, one entry per key, updated in place by `d[key] = value`.
 */
module OrderedDict {
  import opened Wrappers

  /** One `(key, value)` pair as `dict.items()` yields it. */
  type Item = (string, string)

  /** The keys in insertion order, as `list(d)` gives them. */
  function Keys(items: seq<Item>): (ks: seq<string>)
    ensures |ks| == |items|
    ensures forall i :: 0 <= i < |items| ==> ks[i] == items[i].0
  {
    if items == [] then [] else [items[0].0] + Keys(items[1..])
  }

  /** No key occurs twice. */
  predicate UniqueKeys(items: seq<Item>) {
    var ks := Keys(items);
    forall i, j :: 0 <= i < j < |ks| ==> ks[i] != ks[j]
  }

  /** `d.get(key)`: the value of the first entry with that key. */
  function Lookup(items: seq<Item>, key: string): Option<string> {
    if items == [] then None
    else if items[0].0 == key then Some(items[0].1)
    else Lookup(items[1..], key)
  }

  /**
   * `d[key] = value`: an existing key keeps its position and takes the new
   * value; a new key is appended at the end.
   */
  function Assign(items: seq<Item>, key: string, value: string): seq<Item> {
    if items == [] then [(key, value)]
    else if items[0].0 == key then [(key, value)] + items[1..]
    else [items[0]] + Assign(items[1..], key, value)
  }

  /** After the assignment the key maps to the new value and every other key keeps its value. */
  lemma {:induction false} AssignLookup(items: seq<Item>, key: string, value: string, other: string)
    ensures Lookup(Assign(items, key, value), key) == Some(value)
    ensures other != key ==> Lookup(Assign(items, key, value), other) == Lookup(items, other)
  {
    if items != [] && items[0].0 != key {
      AssignLookup(items[1..], key, value, other);
      assert Assign(items, key, value)[1..] == Assign(items[1..], key, value);
    } else if items != [] {
      assert Assign(items, key, value)[1..] == items[1..];
    }
  }

  /** The assignment keeps the order of the keys and appends a key that was absent. */
  lemma {:induction false} AssignKeys(items: seq<Item>, key: string, value: string)
    ensures Keys(Assign(items, key, value)) == if key in Keys(items) then Keys(items) else Keys(items) + [key]
  {
    var ks := Keys(items);
    if items == [] {
    } else if items[0].0 == key {
      assert Keys(Assign(items, key, value))[1..] == Keys(items[1..]);
      assert ks == [ks[0]] + Keys(items[1..]);
    } else {
      AssignKeys(items[1..], key, value);
      var r := Assign(items, key, value);
      assert r[1..] == Assign(items[1..], key, value);
      assert Keys(r) == [items[0].0] + Keys(r[1..]);
      assert ks == [items[0].0] + Keys(items[1..]);
      assert key in ks <==> key in Keys(items[1..]);
    }
  }

  /** The assignment never creates a duplicate key. */
  lemma AssignUnique(items: seq<Item>, key: string, value: string)
    requires UniqueKeys(items)
    ensures UniqueKeys(Assign(items, key, value))
  {
    AssignKeys(items, key, value);
  }

  /** A dictionary object as the handler holds it. */
  class Dict {
    var items: seq<Item>

    /** A Python dict holds one entry per key; `Set` keeps this invariant. */
    ghost predicate Valid()
      reads this
    {
      UniqueKeys(items)
    }

    /** A dictionary display `{k1: v1, k2: v2, ...}`. */
    constructor (init: seq<Item>)
      requires UniqueKeys(init)
      ensures Valid() && items == init
    {
      items := init;
    }

    /** `d[key] = value`. */
    method Set(key: string, value: string)
      requires Valid()
      modifies this
      ensures Valid()
      ensures items == Assign(old(items), key, value)
    {
      AssignUnique(items, key, value);
      items := Assign(items, key, value);
    }
  }
}

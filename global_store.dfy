/** The legacy key/value storage of factoid texts (src/GlobalStorage.php).

    One storage is an insertion-ordered PHP array from key to text. The same
    class serves for the global storage and, as `ChannelStorage`, for each
    channel's storage. */
module GlobalStore {
  import opened PhpArrays

  /** What a storage holds: key => text, in insertion order. */
  type Store = seq<(string, string)>

  /** Whether `add(key, value, overwrite)` stores anything: both arguments
      must be strings, and an existing key is replaced only when asked to. */
  predicate Accepts(m: Store, key: PhpValue, value: PhpValue, overwrite: bool)
  {
    key.PString? && value.PString? && (overwrite || !HasKey(m, key.s))
  }

  /** The storage after `add(key, value, overwrite)`. */
  function Added(m: Store, key: PhpValue, value: PhpValue, overwrite: bool): Store
  {
    if Accepts(m, key, value, overwrite) then Put(m, key.s, value.s) else m
  }

  /** What `add` does: a rejected call changes nothing; an accepted one maps
      the key to the value, leaves every other key as it was, appends a new
      key at the end and keeps an overwritten key in its place. */
  lemma AddedEffect(m: Store, key: PhpValue, value: PhpValue, overwrite: bool, other: string)
    requires DistinctKeys(m)
    ensures var r := Added(m, key, value, overwrite);
      && DistinctKeys(r)
      && (!Accepts(m, key, value, overwrite) ==> r == m)
      && (!key.PString? || !value.PString? ==> r == m)
      && (key.PString? && HasKey(m, key.s) && !overwrite ==> r == m)
      && (Accepts(m, key, value, overwrite) ==>
            && PhpArrays.Get(r, key.s) == Some(value.s)
            && (other != key.s ==> PhpArrays.Get(r, other) == PhpArrays.Get(m, other))
            && Keys(r) == if HasKey(m, key.s) then Keys(m) else Keys(m) + [key.s])
  {
    if Accepts(m, key, value, overwrite) {
      PutDistinct(m, key.s, value.s);
      PutGet(m, key.s, value.s, key.s);
      PutGet(m, key.s, value.s, other);
    }
  }

  /** The storage after `setAll(items)`: `add(key, value)` without overwrite
      for each item in turn. */
  function SetAllSpec(m: Store, items: PhpArray): Store
  {
    if items == [] then m
    else
      var last := items[|items| - 1];
      Added(SetAllSpec(m, items[..|items| - 1]), last.0, last.1, false)
  }

  /** `setAll` only appends: the old entries stay where they were, unchanged,
      and the keys stay distinct. */
  lemma {:induction false} SetAllAppends(m: Store, items: PhpArray)
    requires DistinctKeys(m)
    ensures var r := SetAllSpec(m, items);
      |m| <= |r| && r[..|m|] == m && DistinctKeys(r)
  {
    if items != [] {
      var front := items[..|items| - 1];
      var last := items[|items| - 1];
      SetAllAppends(m, front);
      var p := SetAllSpec(m, front);
      if Accepts(p, last.0, last.1, false) {
        PutDistinct(p, last.0.s, last.1.s);
        assert SetAllSpec(m, items) == p + [(last.0.s, last.1.s)];
      }
    }
  }

  /** `setAll` never overwrites: a key that was present keeps its value. */
  lemma SetAllNeverOverwrites(m: Store, items: PhpArray, k: string)
    requires DistinctKeys(m) && HasKey(m, k)
    ensures PhpArrays.Get(SetAllSpec(m, items), k) == PhpArrays.Get(m, k)
  {
    SetAllAppends(m, items);
    var r := SetAllSpec(m, items);
    var i :| 0 <= i < |m| && m[i].0 == k;
    assert r[i] == m[i];
    GetAt(m, i);
    GetAt(r, i);
  }

  /** Every item whose key and value are both strings has its key stored
      afterwards, and every entry `setAll` added comes from such an item. */
  lemma {:induction false} SetAllCovers(m: Store, items: PhpArray)
    requires DistinctKeys(m)
    ensures var r := SetAllSpec(m, items);
      && (forall j :: 0 <= j < |items| && items[j].0.PString? && items[j].1.PString? ==> HasKey(r, items[j].0.s))
      && (forall j :: |m| <= j < |r| ==> (PString(r[j].0), PString(r[j].1)) in items)
  {
    if items != [] {
      var front := items[..|items| - 1];
      var last := items[|items| - 1];
      SetAllCovers(m, front);
      SetAllAppends(m, front);
      var p := SetAllSpec(m, front);
      var r := SetAllSpec(m, items);
      assert r == Added(p, last.0, last.1, false);
      if Accepts(p, last.0, last.1, false) {
        assert r == p + [(last.0.s, last.1.s)];
        assert forall j :: 0 <= j < |p| ==> r[j] == p[j];
      }
      forall j | 0 <= j < |items| && items[j].0.PString? && items[j].1.PString?
        ensures HasKey(r, items[j].0.s)
      {
        if j < |items| - 1 {
          assert items[j] == front[j];
          var q :| 0 <= q < |p| && p[q].0 == items[j].0.s;
          assert r[q] == p[q];
        } else if !Accepts(p, last.0, last.1, false) {
          assert HasKey(p, last.0.s);
        } else {
          assert r[|p|].0 == last.0.s;
        }
      }
      forall j | |m| <= j < |r| ensures (PString(r[j].0), PString(r[j].1)) in items {
        if j < |p| {
          assert r[j] == p[j];
          assert (PString(p[j].0), PString(p[j].1)) in front;
        } else {
          assert r[j] == (last.0.s, last.1.s);
        }
      }
    }
  }

  /** The items `setAll` stores: in the items' order, each item whose key
      and value are strings and whose key the storage does not hold yet. */
  function NewItems(m: Store, items: PhpArray): (r: Store)
    ensures forall e :: e in r ==> (PString(e.0), PString(e.1)) in items && !HasKey(m, e.0)
  {
    if items == [] then []
    else
      var last := items[|items| - 1];
      var front := NewItems(m, items[..|items| - 1]);
      if last.0.PString? && last.1.PString? && !HasKey(m, last.0.s) then front + [(last.0.s, last.1.s)]
      else front
  }

  /** `setAll` of a PHP array (whose keys are distinct) is the old storage
      followed by the new string items, in the items' order. */
  lemma {:induction false} SetAllOrder(m: Store, items: PhpArray)
    requires DistinctKeys(m) && DistinctKeys(items)
    ensures SetAllSpec(m, items) == m + NewItems(m, items)
  {
    if items != [] {
      var front := items[..|items| - 1];
      var last := items[|items| - 1];
      assert DistinctKeys(front);
      SetAllOrder(m, front);
      var p := SetAllSpec(m, front);
      var added := NewItems(m, front);
      if last.0.PString? && last.1.PString? && !HasKey(m, last.0.s) {
        assert !HasKey(added, last.0.s);
        assert !HasKey(p, last.0.s);
      } else if last.0.PString? && last.1.PString? {
        var q :| 0 <= q < |m| && m[q].0 == last.0.s;
        assert p[q] == m[q];
      }
    }
  }

  /** A storage's contents as the PHP array `getAll` hands out: string keys
      to string values. */
  function AsPhpArray(m: Store): (a: PhpArray)
    ensures |a| == |m|
    ensures forall i :: 0 <= i < |m| ==> a[i].0.PString? && a[i].0.s == m[i].0
    ensures forall i :: 0 <= i < |m| ==> a[i].1.PString? && a[i].1.s == m[i].1
  {
    seq(|m|, i requires 0 <= i < |m| => (PString(m[i].0), PString(m[i].1)))
  }

  /** The PHP array `getAll` hands out answers every lookup as the storage
      does, and has distinct keys when the storage has. */
  lemma {:induction false} AsPhpArrayGet(m: Store, k: string)
    ensures DistinctKeys(m) ==> DistinctKeys(AsPhpArray(m))
    ensures PhpArrays.Get(AsPhpArray(m), PString(k)) ==
      match PhpArrays.Get(m, k)
      case None => None
      case Some(v) => Some(PString(v))
  {
    if m != [] {
      var a := AsPhpArray(m);
      assert a[1..] == AsPhpArray(m[1..]);
      AsPhpArrayGet(m[1..], k);
      assert a[0] == (PString(m[0].0), PString(m[0].1));
    }
  }

  /** `setAll` of what `getAll` returned rebuilds the storage in an empty one. */
  lemma {:induction false} SetAllRestores(m: Store)
    requires DistinctKeys(m)
    ensures SetAllSpec([], AsPhpArray(m)) == m
  {
    if m != [] {
      var front := m[..|m| - 1];
      assert AsPhpArray(m)[..|m| - 1] == AsPhpArray(front);
      SetAllRestores(front);
      assert !HasKey(front, m[|m| - 1].0);
    }
  }

  /** A key/value storage (`GlobalStorage`); `storage` is the PHP array `$storage`. */
  class GlobalStorage {
    var storage: Store

    ghost predicate Valid()
      reads this
    {
      DistinctKeys(storage)
    }

    /** A new storage is empty. */
    constructor ()
      ensures Valid() && storage == []
    {
      storage := [];
    }

    /** `add`: stores `value` under `key`; see Accepts and AddedEffect. */
    method Add(key: PhpValue, value: PhpValue, overwrite: bool) returns (ok: bool)
      requires Valid()
      modifies this
      ensures Valid()
      ensures ok == Accepts(old(storage), key, value, overwrite)
      ensures storage == Added(old(storage), key, value, overwrite)
    {
      if !key.PString? || !value.PString? {
        return false;
      }
      if Exists(key.s) && !overwrite {
        return false;
      }
      PutDistinct(storage, key.s, value.s);
      storage := Put(storage, key.s, value.s);
      return true;
    }

    /** `exists`: holds exactly for the keys `getAll` lists. */
    function Exists(key: string): (b: bool)
      reads this
      ensures b <==> key in Keys(GetAll())
    {
      KeysHasKey(storage, key);
      IndexOf(storage, key).Some?
    }

    /** `remove`: deletes the key if it is present and reports whether it was. */
    method Remove(key: string) returns (ok: bool)
      requires Valid()
      modifies this
      ensures Valid()
      ensures ok == old(Exists(key))
      ensures storage == PhpArrays.Remove(old(storage), key)
      ensures !Exists(key)
    {
      if !Exists(key) {
        return false;
      }
      RemoveGet(storage, key, key);
      storage := PhpArrays.Remove(storage, key);
      return true;
    }

    /** `get`: nothing for a missing key, otherwise the value stored with it. */
    function Get(key: string): (r: Option<string>)
      reads this
      ensures r.None? <==> !Exists(key)
      ensures r.Some? ==> (key, r.value) in storage
      ensures Valid() ==> forall i :: 0 <= i < |storage| && storage[i].0 == key ==> r == Some(storage[i].1)
    {
      if !Exists(key) then None
      else
        var i := IndexOf(storage, key).value;
        assert Valid() ==> forall j :: 0 <= j < |storage| && storage[j].0 == key ==> j == i;
        Some(storage[i].1)
    }

    /** `getAll`: the whole array, in insertion order. */
    function GetAll(): Store
      reads this
    {
      storage
    }

    /** `setAll`: `add` without overwrite for every item, in order. */
    method SetAll(items: PhpArray)
      requires Valid()
      modifies this
      ensures Valid()
      ensures storage == SetAllSpec(old(storage), items)
    {
      var i := 0;
      while i < |items|
        invariant 0 <= i <= |items|
        invariant Valid()
        invariant storage == SetAllSpec(old(storage), items[..i])
      {
        assert items[..i + 1][..i] == items[..i];
        var _ := Add(items[i].0, items[i].1, false);
        i := i + 1;
      }
      assert items[..|items|] == items;
    }
  }

  /** The storage of one channel. Its class is not part of this model; it is
      taken to behave exactly like GlobalStorage. */
  type ChannelStorage = GlobalStorage
}

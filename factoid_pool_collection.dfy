/** The channels' factoid pools (src/FactoidPoolCollection.php) and how they
    are written to and read back from the `factoidStorage` data storage.

    The storage backend behind `DataStorageFactory` is not part of this
    model: it is an insertion-ordered map from integer key to record with
    `flush`, `set` and `getAll`. The collection's base class is taken to be
    an insertion-ordered map from channel name to pool whose `offsetSet`
    replaces the pool of a known channel in place and appends a new one. */
module PoolCollection {
  import opened PhpArrays
  import opened FactoidRecord
  import opened Pool

  /** One saved record, `['channel' => ..., 'pool' => ...]`. */
  datatype StoredPool = StoredPool(channel: string, pool: seq<PhpArray>)

  /** The `factoidStorage` data storage: integer key => record. */
  class DataStorage {
    var data: seq<(int, StoredPool)>

    /** A new storage is empty. */
    constructor ()
      ensures data == []
    {
      data := [];
    }

    /** `flush`: drops every record. */
    method Flush()
      modifies this
      ensures data == []
    {
      data := [];
    }

    /** `set`: stores the record under the key, replacing one already there. */
    method Set(key: int, value: StoredPool)
      modifies this
      ensures data == Put(old(data), key, value)
    {
      data := Put(data, key, value);
    }

    /** `getAll`: every record, in insertion order. */
    function GetAll(): seq<(int, StoredPool)>
      reads this
    {
      data
    }
  }

  /** The factoids of every channel's pool, as values, in collection order. */
  type Contents = seq<(string, seq<FactoidValue>)>

  /** The records `saveFactoidData` writes: the n-th pool (counting from 1)
      under key n, with its channel name and its saveable array. */
  function SavedRecords(c: Contents): seq<(int, StoredPool)>
  {
    seq(|c|, i requires 0 <= i < |c| => (i + 1, StoredPool(c[i].0, EncodeAll(c[i].1))))
  }

  /** Saved records are keyed 1..n, so writing them one by one appends each. */
  lemma SavedRecordsKeys(c: Contents)
    ensures DistinctKeys(SavedRecords(c))
    ensures forall i :: 0 <= i < |c| ==> SavedRecords(c)[i].0 == i + 1
    ensures forall i :: 0 <= i <= |c| ==> !HasKey(SavedRecords(c)[..i], i + 1)
  {
    var r := SavedRecords(c);
    forall i | 0 <= i <= |c| ensures !HasKey(r[..i], i + 1) {
      assert forall j :: 0 <= j < i ==> r[..i][j].0 == j + 1;
    }
  }

  /** Every saved pool is typed as the setters demand. */
  predicate DataTyped(data: seq<(int, StoredPool)>)
  {
    forall i :: 0 <= i < |data| ==> RecordsTyped(data[i].1.pool)
  }

  /** The contents after `loadStoredFactoids` over `data`: for each record in
      turn, the channel's pool becomes the pool read back from the record. */
  function Loaded(c: Contents, data: seq<(int, StoredPool)>): Contents
  {
    if data == [] then c
    else
      var last := data[|data| - 1].1;
      Put(Loaded(c, data[..|data| - 1]), last.channel, Decoded(last.pool))
  }

  /** Loading one more record stores its pool under its channel. */
  lemma LoadedStep(c: Contents, data: seq<(int, StoredPool)>, i: nat)
    requires i < |data|
    ensures Loaded(c, data[..i + 1]) == Put(Loaded(c, data[..i]), data[i].1.channel, Decoded(data[i].1.pool))
  {
    assert data[..i + 1][..i] == data[..i];
  }

  /** The position of the last record for the channel, if there is one. */
  function LastFor(data: seq<(int, StoredPool)>, channel: string): (r: Option<nat>)
    ensures r.None? <==> forall i :: 0 <= i < |data| ==> data[i].1.channel != channel
    ensures r.Some? ==> r.value < |data| && data[r.value].1.channel == channel
    ensures r.Some? ==> forall j :: r.value < j < |data| ==> data[j].1.channel != channel
  {
    if data == [] then None
    else if data[|data| - 1].1.channel == channel then Some(|data| - 1)
    else LastFor(data[..|data| - 1], channel)
  }

  /** Loading gives each channel the pool of its last record, so a later
      record replaces an earlier one; a channel without a record keeps the
      pool it had. */
  lemma {:induction false} LoadedGet(c: Contents, data: seq<(int, StoredPool)>, channel: string)
    ensures PhpArrays.Get(Loaded(c, data), channel) ==
      match LastFor(data, channel)
      case None => PhpArrays.Get(c, channel)
      case Some(i) => Some(Decoded(data[i].1.pool))
  {
    if data != [] {
      var last := data[|data| - 1].1;
      LoadedGet(c, data[..|data| - 1], channel);
      PutGet(Loaded(c, data[..|data| - 1]), last.channel, Decoded(last.pool), channel);
    }
  }

  /** Loading keeps the channel names distinct. */
  lemma {:induction false} LoadedDistinct(c: Contents, data: seq<(int, StoredPool)>)
    requires DistinctKeys(c)
    ensures DistinctKeys(Loaded(c, data))
  {
    if data != [] {
      var last := data[|data| - 1].1;
      LoadedDistinct(c, data[..|data| - 1]);
      PutDistinct(Loaded(c, data[..|data| - 1]), last.channel, Decoded(last.pool));
    }
  }

  /** Saving, then loading into an empty collection, gives back every
      channel with the same factoids, field for field, in the same order. */
  lemma {:induction false} SaveLoadRoundTrip(c: Contents)
    requires DistinctKeys(c)
    ensures DataTyped(SavedRecords(c))
    ensures Loaded([], SavedRecords(c)) == c
  {
    forall i | 0 <= i < |c| ensures RecordsTyped(SavedRecords(c)[i].1.pool) {
      EncodeAllTyped(c[i].1);
    }
    if c != [] {
      var front := c[..|c| - 1];
      assert SavedRecords(c)[..|c| - 1] == SavedRecords(front);
      SaveLoadRoundTrip(front);
      DecodedEncodeAll(c[|c| - 1].1);
      assert !HasKey(front, c[|c| - 1].0);
    }
  }

  /** Every pool, and every factoid of every pool, is in `repr`. */
  ghost predicate Within(ps: seq<(string, FactoidPool)>, repr: set<object>)
    reads repr
  {
    forall i :: 0 <= i < |ps| ==>
      && ps[i].1 in repr
      && forall j :: 0 <= j < |ps[i].1.factoids| ==> ps[i].1.factoids[j] in repr
  }

  /** The pools' factoids as values, under their channel names. */
  ghost function ContentsOf(ps: seq<(string, FactoidPool)>, repr: set<object>): (c: Contents)
    requires Within(ps, repr)
    reads repr
    ensures |c| == |ps|
  {
    if ps == [] then []
    else ContentsOf(ps[..|ps| - 1], repr) + [(ps[|ps| - 1].0, ps[|ps| - 1].1.Values())]
  }

  /** Each channel's entry holds that channel's pool's factoids. */
  lemma {:induction false} ContentsOfAt(ps: seq<(string, FactoidPool)>, repr: set<object>, i: nat)
    requires Within(ps, repr) && i < |ps|
    ensures ContentsOf(ps, repr)[i] == (ps[i].0, ps[i].1.Values())
  {
    if i < |ps| - 1 {
      assert Within(ps[..|ps| - 1], repr);
      ContentsOfAt(ps[..|ps| - 1], repr, i);
    }
  }

  /** The contents do not depend on which enclosing set frames them. */
  lemma ContentsOfAnyRepr(ps: seq<(string, FactoidPool)>, r1: set<object>, r2: set<object>)
    requires Within(ps, r1) && Within(ps, r2)
    ensures ContentsOf(ps, r1) == ContentsOf(ps, r2)
  {
    forall i | 0 <= i < |ps| ensures ContentsOf(ps, r1)[i] == ContentsOf(ps, r2)[i] {
      ContentsOfAt(ps, r1, i);
      ContentsOfAt(ps, r2, i);
    }
  }

  /** A larger set still holds every pool and factoid. */
  lemma WithinGrow(ps: seq<(string, FactoidPool)>, repr: set<object>, more: set<object>)
    requires Within(ps, repr) && repr <= more
    ensures Within(ps, more)
  {
  }

  /** Storing a pool that is in `repr` with its factoids keeps everything in `repr`. */
  lemma WithinPut(ps: seq<(string, FactoidPool)>, repr: set<object>, channel: string, p: FactoidPool)
    requires Within(ps, repr)
    requires p in repr && forall j :: 0 <= j < |p.factoids| ==> p.factoids[j] in repr
    ensures Within(Put(ps, channel, p), repr)
  {
    var r := Put(ps, channel, p);
    forall i | 0 <= i < |r| ensures r[i] == (channel, p) || r[i] == ps[i] {
    }
  }

  /** Two arrays whose keys agree position by position find a key at the same position. */
  lemma {:induction false} IndexOfSameKeys<V, W>(m: seq<(string, V)>, n: seq<(string, W)>, k: string)
    requires |m| == |n|
    requires forall i :: 0 <= i < |m| ==> m[i].0 == n[i].0
    ensures IndexOf(m, k) == IndexOf(n, k)
  {
    if m != [] && m[0].0 != k {
      IndexOfSameKeys(m[1..], n[1..], k);
    }
  }

  /** Storing a pool under a channel stores its factoids under that channel. */
  lemma ContentsOfPut(ps: seq<(string, FactoidPool)>, repr: set<object>, channel: string, p: FactoidPool)
    requires Within(ps, repr) && Within(Put(ps, channel, p), repr)
    ensures ContentsOf(Put(ps, channel, p), repr) == Put(ContentsOf(ps, repr), channel, p.Values())
  {
    var c := ContentsOf(ps, repr);
    forall i | 0 <= i < |ps| ensures c[i].0 == ps[i].0 {
      ContentsOfAt(ps, repr, i);
    }
    IndexOfSameKeys(ps, c, channel);
    var l := ContentsOf(Put(ps, channel, p), repr);
    var r := Put(c, channel, p.Values());
    forall i | 0 <= i < |l| ensures l[i] == r[i] {
      ContentsOfAt(Put(ps, channel, p), repr, i);
      if i < |ps| {
        ContentsOfAt(ps, repr, i);
      }
    }
  }

  /** The collection of pools (`FactoidPoolCollection`); `pools` is its
      channel => pool array, and `Repr` holds the pools and their factoids. */
  class FactoidPoolCollection {
    var pools: seq<(string, FactoidPool)>
    ghost var Repr: set<object>

    /** Channel names are distinct, and every pool and factoid is in `Repr`
        (which does not hold the collection itself). */
    ghost predicate Valid()
      reads this, Repr
    {
      this !in Repr && DistinctKeys(pools) && Within(pools, Repr)
    }

    /** The factoids of every channel, as values. */
    ghost function View(): Contents
      requires Valid()
      reads this, Repr
    {
      ContentsOf(pools, Repr)
    }

    /** A new collection holds no pools. */
    constructor ()
      ensures Valid() && View() == [] && Repr == {}
    {
      pools := [];
      Repr := {};
    }

    /** `saveFactoidData`: flushes the storage, then writes one record per
        pool, numbered from 1 in collection order; see SavedRecords and
        SaveLoadRoundTrip. The pools are left unchanged. */
    method SaveFactoidData(store: DataStorage)
      requires Valid() && store !in Repr
      modifies store
      ensures store.data == SavedRecords(View())
      ensures Valid() && View() == old(View())
    {
      ghost var c := View();
      store.Flush();
      var i := 0;
      while i < |pools|
        invariant 0 <= i <= |pools|
        invariant Valid() && View() == c
        invariant store.data == SavedRecords(c)[..i]
      {
        SavePool(store, i, c);
        i := i + 1;
      }
      assert SavedRecords(c)[..i] == SavedRecords(c);
    }

    /** One pass of `saveFactoidData`'s loop: pool `i` is written under key
        `i + 1` as `{channel, pool->toSaveableArray()}`. */
    method SavePool(store: DataStorage, i: nat, ghost c: Contents)
      requires Valid() && store !in Repr && View() == c
      requires i < |pools| && store.data == SavedRecords(c)[..i]
      modifies store
      ensures store.data == SavedRecords(c)[..i + 1]
    {
      var channel, pool := pools[i].0, pools[i].1;
      var records := pool.ToSaveableArray();
      ContentsOfAt(pools, Repr, i);
      assert SavedRecords(c)[i] == (i + 1, StoredPool(channel, records));
      SavedRecordsKeys(c);
      PrefixStep(SavedRecords(c), i);
      store.Set(i + 1, StoredPool(channel, records));
    }

    /** `offsetSet`: stores the pool under the channel, replacing the pool
        of a known channel in place and appending a new channel at the end. */
    method OffsetSet(channel: string, pool: FactoidPool)
      requires Valid()
      modifies this
      ensures Valid()
      ensures View() == Put(old(View()), channel, pool.Values())
      ensures pools == Put(old(pools), channel, pool)
      ensures Repr == old(Repr) + {pool} + set j | 0 <= j < |pool.factoids| :: pool.factoids[j]
    {
      ghost var before := pools;
      var repr := Repr + {pool} + set j | 0 <= j < |pool.factoids| :: pool.factoids[j];
      assert this !in repr;
      WithinGrow(before, Repr, repr);
      ContentsOfAnyRepr(before, Repr, repr);
      ghost var c0 := ContentsOf(before, repr);
      pools, Repr := Put(pools, channel, pool), repr;
      assert Within(before, repr) && ContentsOf(before, repr) == c0;
      PutDistinct(before, channel, pool);
      WithinPut(before, repr, channel, pool);
      ContentsOfPut(before, repr, channel, pool);
    }

    /** The body of `loadStoredFactoids`' loop for one record: a new pool,
        populated from the record's factoids, stored under its channel. */
    method LoadRecord(record: StoredPool)
      requires Valid() && RecordsTyped(record.pool)
      modifies this
      ensures Valid()
      ensures View() == Put(old(View()), record.channel, Decoded(record.pool))
      ensures fresh(Repr - old(Repr))
    {
      var pool := NewPool(record.pool);
      ghost var values := pool.Values();
      OffsetSet(record.channel, pool);
      assert pool.Values() == values;
    }

    /** `new FactoidPool()` followed by `populateFromSavedArray`: a fresh
        pool of fresh factoids read back from the records. */
    static method NewPool(records: seq<PhpArray>) returns (pool: FactoidPool)
      requires RecordsTyped(records)
      ensures fresh(pool) && pool.Values() == Decoded(records)
      ensures forall j :: 0 <= j < |pool.factoids| ==> fresh(pool.factoids[j])
    {
      pool := new FactoidPool();
      pool.PopulateFromSavedArray(records);
    }

    /** `loadStoredFactoids`: for every stored record, in order, a new pool
        populated from the record's factoids is stored under its channel;
        see Loaded, LoadedGet and SaveLoadRoundTrip. */
    method LoadStoredFactoids(store: DataStorage)
      requires Valid()
      requires DataTyped(store.data)
      modifies this
      ensures Valid()
      ensures View() == Loaded(old(View()), store.data)
      ensures fresh(Repr - old(Repr))
    {
      var data := store.GetAll();
      var i := 0;
      while i < |data|
        invariant 0 <= i <= |data|
        invariant Valid()
        invariant View() == Loaded(old(View()), data[..i])
        invariant fresh(Repr - old(Repr))
      {
        LoadedStep(old(View()), data, i);
        LoadRecord(data[i].1);
        i := i + 1;
      }
      assert data[..i] == data;
    }
  }
}

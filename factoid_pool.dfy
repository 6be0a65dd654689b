/** A channel's pool of factoids (src/FactoidPool.php): an ordered sequence
    of Factoid objects, searched by name and converted to and from the list
    of saved records.

    The pool's `Collection` base class is not part of this model; it is
    taken to be a sequence that `add` appends to and `find` searches from
    the front. The name comparison in `findByKey` is PHP's loose `==`; here
    it is exact string equality. */
module Pool {
  import opened PhpArrays
  import opened FactoidRecord

  /** The field values of a sequence of factoid objects. */
  function ViewsOf(fs: seq<Factoid>): (r: seq<FactoidValue>)
    reads fs
    ensures |r| == |fs|
  {
    if fs == [] then [] else ViewsOf(fs[..|fs| - 1]) + [fs[|fs| - 1].View()]
  }

  /** Each entry holds the fields of the object at the same position. */
  lemma {:induction false} ViewsOfAt(fs: seq<Factoid>, i: nat)
    requires i < |fs|
    ensures ViewsOf(fs)[i] == fs[i].View()
  {
    if i < |fs| - 1 {
      ViewsOfAt(fs[..|fs| - 1], i);
    }
  }

  /** `toArray` of each factoid, in order. */
  function EncodeAll(vs: seq<FactoidValue>): (r: seq<PhpArray>)
    ensures |r| == |vs|
    ensures forall i :: 0 <= i < |vs| ==> r[i] == Encode(vs[i])
  {
    seq(|vs|, i requires 0 <= i < |vs| => Encode(vs[i]))
  }

  /** The saveable array of a pool's factoids holds one record per factoid,
      in pool order, each that factoid's `toArray()`. */
  lemma EncodeAllViewsAt(fs: seq<Factoid>, i: nat)
    requires i < |fs|
    ensures |EncodeAll(ViewsOf(fs))| == |fs|
    ensures EncodeAll(ViewsOf(fs))[i] == fs[i].ToArray()
  {
    ViewsOfAt(fs, i);
  }

  /** The factoids read back from saved records: every record that decodes,
      in order; the others are skipped. */
  function Decoded(records: seq<PhpArray>): seq<FactoidValue>
  {
    if records == [] then []
    else
      var front := Decoded(records[..|records| - 1]);
      match Decode(records[|records| - 1])
      case None => front
      case Some(v) => front + [v]
  }

  /** Reading one more record appends its factoid, if it decodes. */
  lemma DecodedPrefix(records: seq<PhpArray>, i: nat)
    requires i < |records|
    ensures Decoded(records[..i + 1]) ==
      match Decode(records[i])
      case None => Decoded(records[..i])
      case Some(v) => Decoded(records[..i]) + [v]
  {
    assert records[..i + 1][..i] == records[..i];
  }

  /** Appending an object appends its field values. */
  lemma ViewsOfAppend(fs: seq<Factoid>, f: Factoid)
    ensures ViewsOf(fs + [f]) == ViewsOf(fs) + [f.View()]
  {
    assert (fs + [f])[..|fs|] == fs;
  }

  /** What the typing of the setters demands of the records
      `populateFromSavedArray` accepts. */
  predicate RecordsTyped(records: seq<PhpArray>)
  {
    forall i :: 0 <= i < |records| && SchemaMatches(records[i]) ==> WellTyped(records[i])
  }

  /** The number of records whose keys are the seven field names in order. */
  function CountMatching(records: seq<PhpArray>): nat
  {
    if records == [] then 0
    else CountMatching(records[..|records| - 1]) + if SchemaMatches(records[|records| - 1]) then 1 else 0
  }

  /** Skipping is exactly the schema check: among well-typed records, one
      factoid is read back per record with the canonical keys, and each
      factoid read back is the decoding of one of the records. */
  lemma {:induction false} DecodedCounts(records: seq<PhpArray>)
    requires RecordsTyped(records)
    ensures |Decoded(records)| == CountMatching(records)
    ensures forall v :: v in Decoded(records) ==> exists i :: 0 <= i < |records| && Decode(records[i]) == Some(v)
  {
    if records != [] {
      var front := records[..|records| - 1];
      assert RecordsTyped(front) by {
        forall i | 0 <= i < |front| && SchemaMatches(front[i]) ensures WellTyped(front[i]) {
          assert front[i] == records[i];
        }
      }
      DecodedCounts(front);
      forall v | v in Decoded(records)
        ensures exists i :: 0 <= i < |records| && Decode(records[i]) == Some(v)
      {
        if v in Decoded(front) {
          var i :| 0 <= i < |front| && Decode(front[i]) == Some(v);
          assert records[i] == front[i];
        } else {
          assert Decode(records[|records| - 1]) == Some(v);
        }
      }
    }
  }

  /** Reading back what was saved gives the same factoids, field for field,
      in the same order. */
  lemma {:induction false} DecodedEncodeAll(vs: seq<FactoidValue>)
    ensures Decoded(EncodeAll(vs)) == vs
  {
    if vs != [] {
      var n := |vs| - 1;
      EncodeAllPrefix(vs, n);
      DecodedEncodeAll(vs[..n]);
      assert Decode(EncodeAll(vs)[n]) == Some(vs[n]);
      SplitLast(vs);
    }
  }

  /** Encoding a prefix gives the prefix of the encodings. */
  lemma EncodeAllPrefix(vs: seq<FactoidValue>, n: nat)
    requires n <= |vs|
    ensures EncodeAll(vs)[..n] == EncodeAll(vs[..n])
  {
  }

  /** Saved records are always typed as the setters demand. */
  lemma EncodeAllTyped(vs: seq<FactoidValue>)
    ensures RecordsTyped(EncodeAll(vs))
  {
    forall i | 0 <= i < |vs| && SchemaMatches(EncodeAll(vs)[i]) ensures WellTyped(EncodeAll(vs)[i]) {
      assert Decode(EncodeAll(vs)[i]).Some?;
    }
  }

  /** The position of the first factoid with the given name. */
  function FirstNamed(vs: seq<FactoidValue>, key: string): (r: Option<nat>)
    ensures r.Some? ==> r.value < |vs| && vs[r.value].name == key
    ensures r.Some? ==> forall j :: 0 <= j < r.value ==> vs[j].name != key
    ensures r.None? <==> forall j :: 0 <= j < |vs| ==> vs[j].name != key
  {
    if vs == [] then None
    else if vs[0].name == key then Some(0)
    else match FirstNamed(vs[1..], key)
      case None => None
      case Some(i) => Some(i + 1)
  }

  /** Loading does not reject duplicate names: two saved factoids with the
      same name both come back, and the search finds the earlier one. */
  lemma DuplicateNamesKept(first: FactoidValue, second: FactoidValue)
    requires first.name == second.name
    ensures var back := Decoded([Encode(first), Encode(second)]);
      && back == [first, second]
      && FirstNamed(back, first.name) == Some(0)
  {
    DecodedEncodeAll([first, second]);
    assert EncodeAll([first, second]) == [Encode(first), Encode(second)];
  }

  /** A factoid object built from a record with the canonical keys, through
      the setters in the order `populateFromSavedArray` calls them. */
  method FromRecord(rec: PhpArray) returns (f: Factoid)
    requires SchemaMatches(rec) && WellTyped(rec)
    ensures fresh(f)
    ensures Some(f.View()) == Decode(rec)
  {
    f := new Factoid();
    f.SetName(rec[0].1.s);
    f.SetCreatedTime(rec[1].1.i);
    f.SetCreatedByAccount(rec[2].1.s);
    f.SetEditedTime(rec[3].1.i);
    f.SetEditedByAccount(rec[4].1.s);
    f.SetLocked(rec[5].1.b);
    f.SetContents(rec[6].1.s);
  }

  /** A pool of factoids (`FactoidPool`); `factoids` is the collection's contents. */
  class FactoidPool {
    var factoids: seq<Factoid>

    /** The field values of the pool's factoids, in pool order. */
    function Values(): seq<FactoidValue>
      reads this, factoids
    {
      ViewsOf(factoids)
    }

    /** A new pool is empty. */
    constructor ()
      ensures factoids == []
    {
      factoids := [];
    }

    /** `toSaveableArray`: one record per factoid, in pool order, each that
        factoid's `toArray()`; see DecodedEncodeAll for reading them back. */
    method ToSaveableArray() returns (records: seq<PhpArray>)
      ensures records == EncodeAll(Values())
    {
      records := [];
      var i := 0;
      while i < |factoids|
        invariant 0 <= i <= |factoids|
        invariant records == EncodeAll(Values()[..i])
      {
        ViewsOfAt(factoids, i);
        PrefixStep(Values(), i);
        records := records + [factoids[i].ToArray()];
        i := i + 1;
      }
      assert Values()[..|factoids|] == Values();
    }

    /** `findByKey`: the first factoid in pool order with that name, or
        nothing when no factoid has it. */
    function FindByKey(key: string): (r: Option<Factoid>)
      reads this, factoids
      ensures r.None? <==> forall j :: 0 <= j < |factoids| ==> factoids[j].name != key
      ensures r.Some? ==> exists i :: 0 <= i < |factoids| && factoids[i] == r.value
                                      && r.value.name == key
                                      && forall j :: 0 <= j < i ==> factoids[j].name != key
    {
      var vs := Values();
      forall j | 0 <= j < |factoids| ensures vs[j].name == factoids[j].name {
        ViewsOfAt(factoids, j);
      }
      match FirstNamed(vs, key)
      case None => None
      case Some(i) => Some(factoids[i])
    }

    /** One accepted record of `populateFromSavedArray`: a new factoid
        with the record's values, appended to the pool. */
    method Add(rec: PhpArray)
      requires SchemaMatches(rec) && WellTyped(rec)
      modifies this
      ensures Values() == old(Values()) + [Decode(rec).value]
      ensures |factoids| == |old(factoids)| + 1 && factoids == old(factoids) + [factoids[|old(factoids)|]]
      ensures fresh(factoids[|old(factoids)|])
    {
      var obj := FromRecord(rec);
      ViewsOfAppend(factoids, obj);
      factoids := factoids + [obj];
    }

    /** One step of `populateFromSavedArray`: record `i` is appended as a
        new factoid when its keys are the seven field names, and skipped
        otherwise. */
    method ReadRecord(records: seq<PhpArray>, i: nat, ghost before: seq<FactoidValue>)
      requires i < |records| && RecordsTyped(records)
      requires Values() == before + Decoded(records[..i])
      modifies this
      ensures Values() == before + Decoded(records[..i + 1])
      ensures |factoids| >= |old(factoids)| && factoids[..|old(factoids)|] == old(factoids)
      ensures forall j :: |old(factoids)| <= j < |factoids| ==> fresh(factoids[j])
    {
      DecodedPrefix(records, i);
      if SchemaMatches(records[i]) {
        assert Decode(records[i]) == Some(Decode(records[i]).value);
        Add(records[i]);
        assert factoids[..|old(factoids)|] == old(factoids);
      } else {
        assert Decode(records[i]) == None;
      }
    }

    /** `populateFromSavedArray`: every record with the canonical keys is
        appended as a new factoid with the record's values, in order; the
        others are skipped, and the factoids already there stay as they were. */
    method PopulateFromSavedArray(records: seq<PhpArray>)
      requires RecordsTyped(records)
      modifies this
      ensures Values() == old(Values()) + Decoded(records)
      ensures |factoids| >= |old(factoids)| && factoids[..|old(factoids)|] == old(factoids)
      ensures forall j :: |old(factoids)| <= j < |factoids| ==> fresh(factoids[j])
    {
      ghost var f0, v0 := factoids, Values();
      var i := 0;
      while i < |records|
        invariant 0 <= i <= |records|
        invariant Values() == v0 + Decoded(records[..i])
        invariant |factoids| >= |f0| && factoids[..|f0|] == f0
        invariant forall j :: |f0| <= j < |factoids| ==> fresh(factoids[j])
      {
        ghost var fs := factoids;
        ReadRecord(records, i, v0);
        assert factoids[..|fs|] == fs;
        assert factoids[..|f0|] == fs[..|f0|];
        i := i + 1;
      }
      assert records[..|records|] == records;
    }
  }
}

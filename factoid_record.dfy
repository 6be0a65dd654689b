/** One factoid of the record-based store (src/Factoid.php): a name, who
    created and last edited it and when, a lock flag and the text, plus the
    fixed-order array `toArray` produces and the record check that
    `FactoidPool::populateFromSavedArray` applies before reading one back. */
module FactoidRecord {
  import opened PhpArrays

  /** The seven fields of a factoid, as values. */
  datatype FactoidValue = FactoidValue(
    name: string,
    createdTime: int,
    createdByAccount: string,
    editedTime: int,
    editedByAccount: string,
    locked: bool,
    contents: string)

  /** A new factoid: empty strings, zero times, not locked. */
  const Default := FactoidValue("", 0, "", 0, "", false, "")

  /** The keys of a saved factoid, in the order `toArray` writes them. */
  const FieldNames: seq<PhpValue> := [
    PString("name"), PString("createdTime"), PString("createdByAccount"),
    PString("editedTime"), PString("editedByAccount"), PString("locked"),
    PString("contents")]

  /** The check `populateFromSavedArray` makes: the record's keys are
      exactly the seven field names, in canonical order. */
  predicate SchemaMatches(rec: PhpArray)
  {
    Keys(rec) == FieldNames
  }

  /** Each value of a schema-matching record has the type its setter takes. */
  predicate WellTyped(rec: PhpArray)
    requires SchemaMatches(rec)
  {
    assert |rec| == |Keys(rec)| == 7;
    && rec[0].1.PString? && rec[1].1.PInt? && rec[2].1.PString?
    && rec[3].1.PInt? && rec[4].1.PString? && rec[5].1.PBool?
    && rec[6].1.PString?
  }

  /** The factoid a saved record describes, if it is a well-typed record
      with the canonical keys. */
  function Decode(rec: PhpArray): (r: Option<FactoidValue>)
    ensures r.Some? <==> SchemaMatches(rec) && WellTyped(rec)
    ensures r.Some? ==> Get(rec, PString("name")) == Some(PString(r.value.name))
    ensures r.Some? ==> Get(rec, PString("contents")) == Some(PString(r.value.contents))
  {
    if !SchemaMatches(rec) || !WellTyped(rec) then None
    else
      assert Keys(rec)[0] == PString("name") && Keys(rec)[6] == PString("contents");
      assert forall j :: 0 <= j < 7 ==> rec[j].0 == FieldNames[j];
      IndexOfFirst(rec, PString("name"), 0);
      IndexOfFirst(rec, PString("contents"), 6);
      Some(FactoidValue(rec[0].1.s, rec[1].1.i, rec[2].1.s, rec[3].1.i,
                        rec[4].1.s, rec[5].1.b, rec[6].1.s))
  }

  /** `toArray` of a factoid with these fields: exactly the seven field
      names in canonical order, and a record that reads back as `v`. */
  function Encode(v: FactoidValue): (r: PhpArray)
    ensures Keys(r) == FieldNames
    ensures Decode(r) == Some(v)
  {
    var r := [
      (PString("name"), PString(v.name)),
      (PString("createdTime"), PInt(v.createdTime)),
      (PString("createdByAccount"), PString(v.createdByAccount)),
      (PString("editedTime"), PInt(v.editedTime)),
      (PString("editedByAccount"), PString(v.editedByAccount)),
      (PString("locked"), PBool(v.locked)),
      (PString("contents"), PString(v.contents))];
    assert Keys(r) == FieldNames;
    r
  }

  /** The records that decode are exactly the encodings: a record that reads
      back as `v` is `toArray` of `v`. */
  lemma DecodeOnlyEncodings(rec: PhpArray, v: FactoidValue)
    requires Decode(rec) == Some(v)
    ensures rec == Encode(v)
  {
    var e := Encode(v);
    assert |rec| == |Keys(rec)| == 7;
    forall j | 0 <= j < 7 ensures rec[j] == e[j] {
      assert rec[j].0 == Keys(rec)[j] == FieldNames[j] == Keys(e)[j] == e[j].0;
    }
  }

  /** A factoid (`Factoid`); its protected fields are updated in place by the setters. */
  class Factoid {
    var name: string
    var createdTime: int
    var editedTime: int
    var createdByAccount: string
    var editedByAccount: string
    var locked: bool
    var contents: string

    /** The factoid's fields as one value. */
    function View(): FactoidValue
      reads this
    {
      FactoidValue(name, createdTime, createdByAccount, editedTime, editedByAccount, locked, contents)
    }

    /** A new factoid has the default field values. */
    constructor ()
      ensures View() == Default
    {
      name := "";
      createdTime := 0;
      editedTime := 0;
      createdByAccount := "";
      editedByAccount := "";
      locked := false;
      contents := "";
    }

    function GetName(): string
      reads this
    {
      name
    }

    method SetName(x: string)
      modifies this
      ensures GetName() == x
      ensures View() == old(View()).(name := x)
    {
      name := x;
    }

    function GetCreatedTime(): int
      reads this
    {
      createdTime
    }

    method SetCreatedTime(x: int)
      modifies this
      ensures GetCreatedTime() == x
      ensures View() == old(View()).(createdTime := x)
    {
      createdTime := x;
    }

    function GetEditedTime(): int
      reads this
    {
      editedTime
    }

    method SetEditedTime(x: int)
      modifies this
      ensures GetEditedTime() == x
      ensures View() == old(View()).(editedTime := x)
    {
      editedTime := x;
    }

    function GetCreatedByAccount(): string
      reads this
    {
      createdByAccount
    }

    method SetCreatedByAccount(x: string)
      modifies this
      ensures GetCreatedByAccount() == x
      ensures View() == old(View()).(createdByAccount := x)
    {
      createdByAccount := x;
    }

    function GetEditedByAccount(): string
      reads this
    {
      editedByAccount
    }

    method SetEditedByAccount(x: string)
      modifies this
      ensures GetEditedByAccount() == x
      ensures View() == old(View()).(editedByAccount := x)
    {
      editedByAccount := x;
    }

    function IsLocked(): bool
      reads this
    {
      locked
    }

    method SetLocked(x: bool)
      modifies this
      ensures IsLocked() == x
      ensures View() == old(View()).(locked := x)
    {
      locked := x;
    }

    function GetContents(): string
      reads this
    {
      contents
    }

    method SetContents(x: string)
      modifies this
      ensures GetContents() == x
      ensures View() == old(View()).(contents := x)
    {
      contents := x;
    }

    /** `toArray`: the seven fields under their names in canonical order,
        each value the matching getter's result. */
    function ToArray(): (r: PhpArray)
      reads this
      ensures Keys(r) == FieldNames
      ensures r[0].1 == PString(GetName()) && r[1].1 == PInt(GetCreatedTime())
      ensures r[2].1 == PString(GetCreatedByAccount()) && r[3].1 == PInt(GetEditedTime())
      ensures r[4].1 == PString(GetEditedByAccount()) && r[5].1 == PBool(IsLocked())
      ensures r[6].1 == PString(GetContents())
      ensures Decode(r) == Some(View())
    {
      Encode(View())
    }
  }
}

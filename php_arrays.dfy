/** PHP values and PHP's insertion-ordered arrays, as the factoid store uses them.

    A PHP array is an ordered dictionary: assigning to a new key appends it at
    the end, assigning to an existing key replaces the value in place, `unset`
    removes the entry and closes the gap, and `foreach`/`array_keys` follow
    insertion order. Here such an array is a sequence of key/value pairs, and
    the operations below look keys up by their first occurrence, which is the
    only occurrence whenever the keys are distinct (as they are in PHP).

    Deviation from PHP: PHP turns a numeric-string key such as "12" into the
    integer key 12; keys here are kept exactly as given. */
module PhpArrays {

  /** PHP's "value, or false when there is none". */
  datatype Option<T> = None | Some(value: T)

  /** A scalar PHP value as produced by json_decode (floats are not modelled). */
  datatype PhpValue = PNull | PBool(b: bool) | PInt(i: int) | PString(s: string)

  /** An array whose keys and values are scalars; its keys are integers or strings. */
  type PhpArray = seq<(PhpValue, PhpValue)>

  /** `array_keys`: the keys in insertion order. */
  function Keys<K, V>(m: seq<(K, V)>): seq<K>
  {
    seq(|m|, i requires 0 <= i < |m| => m[i].0)
  }

  /** `array_key_exists`. */
  predicate HasKey<K(==), V>(m: seq<(K, V)>, k: K)
  {
    exists i :: 0 <= i < |m| && m[i].0 == k
  }

  /** The invariant of every PHP array: no key occurs twice. */
  predicate DistinctKeys<K(==), V>(m: seq<(K, V)>)
  {
    forall i, j :: 0 <= i < j < |m| ==> m[i].0 != m[j].0
  }

  /** The position of the first entry with key `k`. */
  function IndexOf<K(==), V>(m: seq<(K, V)>, k: K): (r: Option<nat>)
    ensures r.Some? ==> r.value < |m| && m[r.value].0 == k
    ensures r.Some? ==> forall j :: 0 <= j < r.value ==> m[j].0 != k
    ensures r.None? <==> !HasKey(m, k)
  {
    if m == [] then None
    else if m[0].0 == k then Some(0)
    else match IndexOf(m[1..], k)
      case None => None
      case Some(i) => Some(i + 1)
  }

  /** `$m[$k]` read after an `array_key_exists` check. */
  function Get<K(==), V>(m: seq<(K, V)>, k: K): (r: Option<V>)
    ensures r.None? <==> !HasKey(m, k)
    ensures r.Some? ==> (k, r.value) in m
  {
    match IndexOf(m, k)
    case None => None
    case Some(i) => Some(m[i].1)
  }

  /** `$m[$k] = $v`: replaces the value in place when `k` is present, appends otherwise. */
  function Put<K(==), V>(m: seq<(K, V)>, k: K, v: V): (r: seq<(K, V)>)
    ensures Keys(r) == if HasKey(m, k) then Keys(m) else Keys(m) + [k]
    ensures !HasKey(m, k) ==> r == m + [(k, v)]
  {
    match IndexOf(m, k)
    case None => m + [(k, v)]
    case Some(i) => m[i := (k, v)]
  }

  /** `unset($m[$k])`: drops the entry and keeps the order of the others. */
  function Remove<K(==), V>(m: seq<(K, V)>, k: K): (r: seq<(K, V)>)
    ensures !HasKey(m, k) ==> r == m
    ensures HasKey(m, k) ==> |r| == |m| - 1
    ensures forall e :: e in r ==> e in m
  {
    match IndexOf(m, k)
    case None => m
    case Some(i) => m[..i] + m[i + 1..]
  }

  /** A key is listed by `array_keys` exactly when `array_key_exists` holds for it. */
  lemma KeysHasKey<K, V>(m: seq<(K, V)>, k: K)
    ensures k in Keys(m) <==> HasKey(m, k)
  {
    if HasKey(m, k) {
      var i :| 0 <= i < |m| && m[i].0 == k;
      assert Keys(m)[i] == k;
    }
  }

  /** An entry with key `k` preceded by none is the one IndexOf finds. */
  lemma {:induction false} IndexOfFirst<K, V>(m: seq<(K, V)>, k: K, i: nat)
    requires i < |m| && m[i].0 == k
    requires forall j :: 0 <= j < i ==> m[j].0 != k
    ensures IndexOf(m, k) == Some(i)
  {
    if i > 0 {
      IndexOfFirst(m[1..], k, i - 1);
    }
  }

  /** In an array with distinct keys, reading a key gives the value stored with it. */
  lemma GetAt<K, V>(m: seq<(K, V)>, i: nat)
    requires DistinctKeys(m) && i < |m|
    ensures Get(m, m[i].0) == Some(m[i].1)
  {
    IndexOfFirst(m, m[i].0, i);
  }

  /** Two arrays whose entries carry key `k` at the same positions with the same values agree on `k`. */
  lemma {:induction false} GetSameShape<K, V>(m: seq<(K, V)>, n: seq<(K, V)>, k: K)
    requires |m| == |n|
    requires forall j :: 0 <= j < |m| ==> (m[j].0 == k <==> n[j].0 == k)
    requires forall j :: 0 <= j < |m| && m[j].0 == k ==> m[j].1 == n[j].1
    ensures Get(m, k) == Get(n, k)
  {
    match IndexOf(m, k)
    case None =>
      assert !HasKey(n, k);
    case Some(i) =>
      IndexOfFirst(n, k, i);
  }

  /** After an assignment, the assigned key reads back the new value and every other key reads as before. */
  lemma PutGet<K, V>(m: seq<(K, V)>, k: K, v: V, k': K)
    ensures Get(Put(m, k, v), k') == if k' == k then Some(v) else Get(m, k')
  {
    var r := Put(m, k, v);
    match IndexOf(m, k)
    case None =>
      if k' == k {
        IndexOfFirst(r, k, |m|);
      } else if HasKey(m, k') {
        var i :| IndexOf(m, k') == Some(i);
        IndexOfFirst(r, k', i);
      } else {
        assert !HasKey(r, k');
      }
    case Some(i) =>
      if k' == k {
        IndexOfFirst(r, k, i);
      } else {
        GetSameShape(m, r, k');
      }
  }

  /** One more element of a sequence extends its prefix by that element. */
  lemma PrefixStep<T>(s: seq<T>, i: nat)
    requires i < |s|
    ensures s[..i + 1] == s[..i] + [s[i]]
  {
  }

  /** A non-empty sequence is its front followed by its last element. */
  lemma SplitLast<T>(s: seq<T>)
    requires s != []
    ensures s == s[..|s| - 1] + [s[|s| - 1]]
  {
  }

  /** An entry appended under another key does not change what a key reads. */
  lemma GetAppendOther<K, V>(m: seq<(K, V)>, k': K, v: V, k: K)
    requires k != k'
    ensures Get(m + [(k', v)], k) == Get(m, k)
  {
    var r := m + [(k', v)];
    if HasKey(m, k) {
      var i := IndexOf(m, k).value;
      IndexOfFirst(r, k, i);
    } else {
      assert !HasKey(r, k);
    }
  }

  /** Assignment keeps the keys distinct. */
  lemma PutDistinct<K, V>(m: seq<(K, V)>, k: K, v: V)
    requires DistinctKeys(m)
    ensures DistinctKeys(Put(m, k, v))
  {
    var r := Put(m, k, v);
    if !HasKey(m, k) {
      forall i, j | 0 <= i < j < |r| ensures r[i].0 != r[j].0 {
        if j == |m| {
          assert r[i] == m[i];
        }
      }
    }
  }

  /** After `unset`, the removed key is absent and every other key reads as before. */
  lemma RemoveGet<K, V>(m: seq<(K, V)>, k: K, k': K)
    requires DistinctKeys(m)
    ensures DistinctKeys(Remove(m, k))
    ensures Get(Remove(m, k), k') == if k' == k then None else Get(m, k')
  {
    match IndexOf(m, k)
    case None =>
    case Some(i) =>
      var r := Remove(m, k);
      assert forall j :: 0 <= j < |r| ==> r[j] == if j < i then m[j] else m[j + 1];
      if k' == k {
        assert !HasKey(r, k);
      } else if HasKey(m, k') {
        var p :| IndexOf(m, k') == Some(p);
        assert p != i;
        IndexOfFirst(r, k', if p < i then p else p - 1);
      } else {
        assert !HasKey(r, k');
      }
  }
}

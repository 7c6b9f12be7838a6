/**
 * PHP arrays as ordered association lists: a sequence of key/value pairs in
 * insertion order. Writing an existing key replaces its value where it stands;
 * writing a new key appends it.
 */
module OrderedMaps {
  import opened Wrappers

  type Assoc<K, V> = seq<(K, V)>

  function Keys<K, V>(a: Assoc<K, V>): (ks: seq<K>)
    ensures |ks| == |a|
    ensures forall i :: 0 <= i < |a| ==> ks[i] == a[i].0
  {
    if a == [] then [] else [a[0].0] + Keys(a[1..])
  }

  function Values<K, V>(a: Assoc<K, V>): (vs: seq<V>)
    ensures |vs| == |a|
    ensures forall i :: 0 <= i < |a| ==> vs[i] == a[i].1
  {
    if a == [] then [] else [a[0].1] + Values(a[1..])
  }

  predicate HasKey<K(==), V>(a: Assoc<K, V>, k: K) {
    exists i :: 0 <= i < |a| && a[i].0 == k
  }

  /** No key occurs twice, as in every PHP array. */
  predicate DistinctKeys<K(==), V>(a: Assoc<K, V>) {
    forall i, j :: 0 <= i < j < |a| ==> a[i].0 != a[j].0
  }

  /** $a[$k]: the value stored under k, or None when k is absent. */
  function Get<K(==), V>(a: Assoc<K, V>, k: K): (r: Option<V>)
    ensures r.None? <==> !HasKey(a, k)
    ensures r.Some? ==> exists i :: 0 <= i < |a| && a[i] == (k, r.value)
  {
    if a == [] then None
    else if a[0].0 == k then Some(a[0].1)
    else
      var r := Get(a[1..], k);
      assert r.Some? ==> a[1..][IndexOf(a[1..], k)] == a[IndexOf(a[1..], k) + 1];
      assert HasKey(a, k) ==> HasKey(a[1..], k) by {
        if HasKey(a, k) {
          var i :| 0 <= i < |a| && a[i].0 == k;
          assert a[1..][i - 1].0 == k;
        }
      }
      r
  }

  /** The position of the first occurrence of k. */
  function IndexOf<K(==), V>(a: Assoc<K, V>, k: K): (i: nat)
    requires HasKey(a, k)
    ensures i < |a| && a[i].0 == k
    ensures forall j :: 0 <= j < i ==> a[j].0 != k
  {
    if a[0].0 == k then 0
    else
      assert HasKey(a[1..], k) by {
        var i :| 0 <= i < |a| && a[i].0 == k;
        assert a[1..][i - 1].0 == k;
      }
      IndexOf(a[1..], k) + 1
  }

  lemma GetAtIndex<K, V>(a: Assoc<K, V>, k: K)
    requires HasKey(a, k)
    ensures Get(a, k) == Some(a[IndexOf(a, k)].1)
  {
    if a[0].0 != k {
      GetAtIndex(a[1..], k);
    }
  }

  /** In a PHP array the stored value sits at the unique position of its key. */
  lemma GetDistinct<K, V>(a: Assoc<K, V>, i: nat)
    requires DistinctKeys(a) && i < |a|
    ensures Get(a, a[i].0) == Some(a[i].1)
  {
    GetAtIndex(a, a[i].0);
  }

  /** $a[$k] = $v. */
  function Put<K(==), V>(a: Assoc<K, V>, k: K, v: V): (r: Assoc<K, V>)
    ensures HasKey(a, k) ==> |r| == |a| && r == a[IndexOf(a, k) := (k, v)]
    ensures !HasKey(a, k) ==> r == a + [(k, v)]
  {
    if HasKey(a, k) then a[IndexOf(a, k) := (k, v)] else a + [(k, v)]
  }

  /** Writing a key makes it map to the written value and leaves every other key as it was. */
  lemma {:induction false} PutGet<K, V>(a: Assoc<K, V>, k: K, v: V, k': K)
    ensures Get(Put(a, k, v), k') == if k' == k then Some(v) else Get(a, k')
  {
    var r := Put(a, k, v);
    if HasKey(a, k) {
      var i := IndexOf(a, k);
      if k' == k {
        assert r[i].0 == k;
        GetAtIndex(r, k);
        assert forall j :: 0 <= j < i ==> r[j] == a[j];
      } else {
        GetOtherKey(a, i, (k, v), k');
      }
    } else {
      GetAppend(a, (k, v), k');
    }
  }

  lemma {:induction false} GetOtherKey<K, V>(a: Assoc<K, V>, i: nat, e: (K, V), k': K)
    requires i < |a| && a[i].0 == e.0 && k' != e.0
    ensures Get(a[i := e], k') == Get(a, k')
  {
    if i > 0 {
      assert a[i := e][1..] == a[1..][i - 1 := e];
      GetOtherKey(a[1..], i - 1, e, k');
    } else {
      assert a[i := e][1..] == a[1..];
    }
  }

  lemma {:induction false} GetAppend<K, V>(a: Assoc<K, V>, e: (K, V), k': K)
    ensures Get(a + [e], k') == if HasKey(a, k') then Get(a, k') else if k' == e.0 then Some(e.1) else None
  {
    if a == [] {
      assert [] + [e] == [e];
    } else {
      assert (a + [e])[1..] == a[1..] + [e];
      GetAppend(a[1..], e, k');
      if a[0].0 != k' && HasKey(a, k') {
        var i :| 0 <= i < |a| && a[i].0 == k';
        assert a[1..][i - 1].0 == k';
      }
    }
  }

  /** Writing never breaks key distinctness. */
  lemma PutDistinct<K, V>(a: Assoc<K, V>, k: K, v: V)
    requires DistinctKeys(a)
    ensures DistinctKeys(Put(a, k, v))
  {
  }

  /** Writing keeps every existing key in its place and appends only a new one. */
  lemma PutKeys<K, V>(a: Assoc<K, V>, k: K, v: V)
    ensures Keys(Put(a, k, v)) == if HasKey(a, k) then Keys(a) else Keys(a) + [k]
  {
    var r := Put(a, k, v);
    if HasKey(a, k) {
      assert forall i :: 0 <= i < |a| ==> Keys(r)[i] == Keys(a)[i];
    } else {
      assert forall i :: 0 <= i < |a| ==> Keys(r)[i] == Keys(a)[i];
    }
  }
}

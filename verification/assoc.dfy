/** Ordered association lists: the model of a Python `dict`, whose keys
    iterate in first-insertion order and whose assignment to an existing
    key replaces the value in place. */
module AssocList {
  import opened Wrappers

  function Keys<K, V>(al: seq<(K, V)>): (ks: seq<K>)
    ensures |ks| == |al|
    ensures forall i :: 0 <= i < |al| ==> ks[i] == al[i].0
  {
    seq(|al|, i requires 0 <= i < |al| => al[i].0)
  }

  predicate DistinctKeys<K(==, !new), V>(al: seq<(K, V)>) {
    forall i, j :: 0 <= i < j < |al| ==> al[i].0 != al[j].0
  }

  /** `d.get(k)`: the value stored under the first entry with key `k`. */
  function Lookup<K(==, !new), V>(al: seq<(K, V)>, k: K): (r: Option<V>)
    ensures r.None? <==> k !in Keys(al)
    ensures r.Some? ==> exists i :: FirstWith(al, k, i) && al[i].1 == r.value
  {
    if |al| == 0 then None
    else if al[0].0 == k then Some(al[0].1)
    else
      var r := Lookup(al[1..], k);
      assert Keys(al) == [al[0].0] + Keys(al[1..]);
      if r.Some? then
        FirstWithShift(al, k, r.value);
        r
      else r
  }

  /** Index `i` holds the first entry of `al` whose key is `k`. */
  predicate FirstWith<K(==), V>(al: seq<(K, V)>, k: K, i: int) {
    0 <= i < |al| && al[i].0 == k && forall j :: 0 <= j < i ==> al[j].0 != k
  }

  lemma FirstWithShift<K, V>(al: seq<(K, V)>, k: K, v: V)
    requires |al| > 0 && al[0].0 != k
    requires exists i :: FirstWith(al[1..], k, i) && al[1..][i].1 == v
    ensures exists i :: FirstWith(al, k, i) && al[i].1 == v
  {
    var i :| FirstWith(al[1..], k, i) && al[1..][i].1 == v;
    assert FirstWith(al, k, i + 1);
  }

  /** With distinct keys, every entry is what a lookup of its key returns. */
  lemma LookupDistinct<K(!new), V>(al: seq<(K, V)>, i: nat)
    requires DistinctKeys(al) && i < |al|
    ensures Lookup(al, al[i].0) == Some(al[i].1)
  {
    assert Keys(al)[i] == al[i].0;
  }

  /** `d[k] = v`: an existing key keeps its position and gets the new value;
      a new key is appended at the end. */
  function Put<K(==, !new), V>(al: seq<(K, V)>, k: K, v: V): (r: seq<(K, V)>)
    ensures k in Keys(al) ==> |r| == |al|
    ensures k !in Keys(al) ==> r == al + [(k, v)]
    ensures Keys(r) == if k in Keys(al) then Keys(al) else Keys(al) + [k]
    ensures Lookup(r, k) == Some(v)
    ensures forall k' :: k' != k ==> Lookup(r, k') == Lookup(al, k')
    ensures DistinctKeys(al) ==> DistinctKeys(r)
  {
    if k in Keys(al) then
      var r := seq(|al|, i requires 0 <= i < |al| => if al[i].0 == k then (k, v) else al[i]);
      assert Keys(r) == Keys(al);
      LookupPut(al, r, k, v);
      r
    else
      var r := al + [(k, v)];
      assert Keys(r) == Keys(al) + [k];
      LookupAppend(al, k, v);
      r
  }

  lemma {:induction false} LookupPut<K(!new), V>(al: seq<(K, V)>, r: seq<(K, V)>, k: K, v: V)
    requires |r| == |al| && k in Keys(al)
    requires forall i :: 0 <= i < |al| ==> r[i] == if al[i].0 == k then (k, v) else al[i]
    ensures Lookup(r, k) == Some(v)
    ensures forall k' :: k' != k ==> Lookup(r, k') == Lookup(al, k')
    decreases |al|
  {
    assert Keys(al) == [al[0].0] + Keys(al[1..]);
    if al[0].0 != k {
      LookupPut(al[1..], r[1..], k, v);
    } else if k in Keys(al[1..]) {
      LookupPut(al[1..], r[1..], k, v);
    } else {
      forall k' | k' != k
        ensures Lookup(r, k') == Lookup(al, k')
      {
        assert r[1..] == al[1..];
      }
    }
  }

  lemma {:induction false} LookupAppend<K(!new), V>(al: seq<(K, V)>, k: K, v: V)
    requires k !in Keys(al)
    ensures Lookup(al + [(k, v)], k) == Some(v)
    ensures forall k' :: k' != k ==> Lookup(al + [(k, v)], k') == Lookup(al, k')
    decreases |al|
  {
    if |al| > 0 {
      assert Keys(al) == [al[0].0] + Keys(al[1..]);
      assert (al + [(k, v)])[1..] == al[1..] + [(k, v)];
      LookupAppend(al[1..], k, v);
    }
  }

  /** Assigning the same value twice is assigning it once. */
  lemma PutTwice<K(!new), V>(al: seq<(K, V)>, k: K, v: V)
    ensures Put(Put(al, k, v), k, v) == Put(al, k, v)
  {
    var once := Put(al, k, v);
    var twice := Put(once, k, v);
    assert k in Keys(once);
    assert |twice| == |once|;
    forall i | 0 <= i < |once|
      ensures twice[i] == once[i]
    {
      if i < |al| && k in Keys(al) {
        assert once[i] == if al[i].0 == k then (k, v) else al[i];
      }
    }
  }
}

/** Python dictionaries keep insertion order; a dictionary is modelled as the
    list of its items. Assigning to an existing key keeps the key's place. */
module Dicts {
  import opened Wrappers

  type Dict<K, V> = seq<(K, V)>

  function Keys<K(==), V>(d: Dict<K, V>): (r: seq<K>)
    ensures |r| == |d| && forall i :: 0 <= i < |d| ==> r[i] == d[i].0
  {
    if |d| == 0 then [] else [d[0].0] + Keys(d[1..])
  }

  function Values<K(==), V>(d: Dict<K, V>): (r: seq<V>)
    ensures |r| == |d| && forall i :: 0 <= i < |d| ==> r[i] == d[i].1
  {
    if |d| == 0 then [] else [d[0].1] + Values(d[1..])
  }

  /** No key occurs twice, which every dictionary the program builds satisfies. */
  predicate NoDupKeys<K(==), V>(d: Dict<K, V>)
  {
    forall i, j :: 0 <= i < j < |d| ==> d[i].0 != d[j].0
  }

  /** No element occurs twice. */
  predicate Distinct<T(==)>(xs: seq<T>)
  {
    forall i, j :: 0 <= i < j < |xs| ==> xs[i] != xs[j]
  }

  predicate HasKey<K(==), V>(d: Dict<K, V>, k: K)
  {
    exists i :: 0 <= i < |d| && d[i].0 == k
  }

  /** The position of `k`, if present. */
  function IndexOf<K(==), V>(d: Dict<K, V>, k: K): (r: Option<nat>)
    ensures r.Some? ==> r.value < |d| && d[r.value].0 == k
    ensures r.None? <==> !HasKey(d, k)
  {
    if |d| == 0 then None
    else if d[0].0 == k then Some(0)
    else
      var t := IndexOf(d[1..], k);
      if t.None? then
        assert forall i :: 1 <= i < |d| ==> d[i] == d[1..][i - 1];
        None
      else Some(t.value + 1)
  }

  /** The position found is the first one holding `k`. */
  lemma {:induction false} IndexOfFirst<K, V>(d: Dict<K, V>, k: K)
    ensures IndexOf(d, k).Some? ==> forall i :: 0 <= i < IndexOf(d, k).value ==> d[i].0 != k
  {
    if |d| > 0 && d[0].0 != k {
      IndexOfFirst(d[1..], k);
      assert forall i :: 1 <= i < |d| ==> d[i] == d[1..][i - 1];
    }
  }

  /** The first position holding `k` is the one found. */
  lemma {:induction false} IndexOfExact<K, V>(d: Dict<K, V>, k: K, i: nat)
    requires i < |d| && d[i].0 == k
    requires forall j :: 0 <= j < i ==> d[j].0 != k
    ensures IndexOf(d, k) == Some(i)
  {
    if i > 0 {
      assert forall j :: 0 <= j < i - 1 ==> d[1..][j] == d[j + 1];
      IndexOfExact(d[1..], k, i - 1);
    }
  }

  /** `d.get(k)` */
  function Get<K(==), V>(d: Dict<K, V>, k: K): (r: Option<V>)
    ensures r.Some? <==> HasKey(d, k)
  {
    match IndexOf(d, k)
    case None => None
    case Some(i) => Some(d[i].1)
  }

  /** `d[k] = v`: replaces the value in place, or appends a new item. */
  function Put<K(==), V>(d: Dict<K, V>, k: K, v: V): (r: Dict<K, V>)
    ensures HasKey(d, k) ==> |r| == |d|
    ensures !HasKey(d, k) ==> r == d + [(k, v)]
    ensures Get(r, k) == Some(v)
  {
    match IndexOf(d, k)
    case None =>
      var r := d + [(k, v)];
      assert r[|d|].0 == k;
      r
    case Some(i) =>
      var r := d[i := (k, v)];
      IndexOfFirst(d, k);
      IndexOfExact(r, k, i);
      r
  }

  /** The items after `d[k] = v` are items of `d` and the new one. */
  lemma PutItems<K, V>(d: Dict<K, V>, k: K, v: V)
    ensures (k, v) in Put(d, k, v)
    ensures forall x :: x in Put(d, k, v) ==> x in d || x == (k, v)
  {
    match IndexOf(d, k)
    case None =>
    case Some(i) =>
      assert Put(d, k, v) == d[i := (k, v)];
      assert Put(d, k, v)[i] == (k, v);
      forall x | x in Put(d, k, v)
        ensures x in d || x == (k, v)
      {
        var j :| 0 <= j < |d| && Put(d, k, v)[j] == x;
        if j != i {
          assert x == d[j];
        }
      }
  }

  /** Assigning to a present key keeps the keys and their order. */
  lemma PutKeys<K, V>(d: Dict<K, V>, k: K, v: V)
    requires HasKey(d, k)
    ensures Keys(Put(d, k, v)) == Keys(d)
  {
    var i := IndexOf(d, k).value;
    assert Put(d, k, v) == d[i := (k, v)];
  }

  /** `d[k] = v` keeps the keys distinct. */
  lemma PutNoDup<K, V>(d: Dict<K, V>, k: K, v: V)
    ensures NoDupKeys(d) ==> NoDupKeys(Put(d, k, v))
  {
    var r := Put(d, k, v);
    if !NoDupKeys(d) {
    } else if !HasKey(d, k) {
      assert r[|d|].0 == k;
    } else {
      PutKeys(d, k, v);
      assert forall i :: 0 <= i < |d| ==> r[i].0 == Keys(r)[i] == Keys(d)[i] == d[i].0;
    }
  }

  /** `d[k] = v` leaves every other key's value as it was. */
  lemma GetPutOther<K, V>(d: Dict<K, V>, k: K, v: V, k': K)
    requires k' != k
    ensures Get(Put(d, k, v), k') == Get(d, k')
  {
    match IndexOf(d, k)
    case None => IndexOfAppend(d, k', (k, v));
    case Some(i) => IndexOfUpdate(d, i, k', v);
  }

  /** `d[k] = v` leaves the values of all other keys as they were. */
  lemma PutOthers<K, V>(d: Dict<K, V>, k: K, v: V)
    ensures forall k' :: k' != k ==> Get(Put(d, k, v), k') == Get(d, k')
  {
    forall k' | k' != k
      ensures Get(Put(d, k, v), k') == Get(d, k')
    {
      GetPutOther(d, k, v, k');
    }
  }

  /** `d[k] = v` keeps every key and adds `k`. */
  lemma PutHasKeys<K, V>(d: Dict<K, V>, k: K, v: V)
    ensures HasKey(Put(d, k, v), k)
    ensures forall k' :: HasKey(d, k') ==> HasKey(Put(d, k, v), k')
  {
    forall k' | HasKey(d, k')
      ensures HasKey(Put(d, k, v), k')
    {
      if k' != k {
        GetPutOther(d, k, v, k');
      }
    }
  }

  lemma IndexOfAppend<K, V>(d: Dict<K, V>, k: K, item: (K, V))
    requires item.0 != k
    ensures IndexOf(d + [item], k) == IndexOf(d, k)
  {
    var r := d + [item];
    match IndexOf(d, k)
    case None =>
      assert !HasKey(r, k) by {
        forall j | 0 <= j < |r| ensures r[j].0 != k {
          if j < |d| { assert r[j] == d[j]; }
        }
      }
    case Some(i) =>
      IndexOfFirst(d, k);
      assert forall j :: 0 <= j <= i ==> r[j] == d[j];
      IndexOfExact(r, k, i);
  }

  lemma IndexOfUpdate<K, V>(d: Dict<K, V>, i: nat, k: K, v: V)
    requires i < |d| && k != d[i].0
    ensures IndexOf(d[i := (d[i].0, v)], k) == IndexOf(d, k)
  {
    var r := d[i := (d[i].0, v)];
    assert forall j :: 0 <= j < |d| ==> r[j].0 == d[j].0;
    match IndexOf(d, k)
    case None =>
      assert !HasKey(r, k) by {
        forall j | 0 <= j < |r| ensures r[j].0 != k {
          assert r[j].0 == d[j].0;
        }
      }
    case Some(j) =>
      IndexOfFirst(d, k);
      IndexOfExact(r, k, j);
  }

  /** `d.pop(k)` for a present key: the item is removed, the order of the rest kept. */
  function Remove<K(==), V>(d: Dict<K, V>, k: K): (r: Dict<K, V>)
    ensures |r| <= |d|
    ensures NoDupKeys(d) ==> NoDupKeys(r) && !HasKey(r, k)
  {
    match IndexOf(d, k)
    case None => d
    case Some(i) => d[..i] + d[i + 1..]
  }

  /** `d.pop(k)` leaves every other key's value as it was. */
  lemma GetRemoveOther<K, V>(d: Dict<K, V>, k: K, k': K)
    requires k' != k
    ensures Get(Remove(d, k), k') == Get(d, k')
  {
    match IndexOf(d, k)
    case None =>
    case Some(i) => RemoveAtGet(d, i, k');
  }

  lemma RemoveAtGet<K, V>(d: Dict<K, V>, i: nat, k: K)
    requires i < |d| && d[i].0 != k
    ensures Get(d[..i] + d[i + 1..], k) == Get(d, k)
  {
    var r := d[..i] + d[i + 1..];
    assert forall j :: 0 <= j < i ==> r[j] == d[j];
    assert forall j :: i <= j < |r| ==> r[j] == d[j + 1];
    match IndexOf(d, k)
    case None =>
      assert !HasKey(r, k) by {
        forall j | 0 <= j < |r| ensures r[j].0 != k {
          if j < i { assert r[j] == d[j]; } else { assert r[j] == d[j + 1]; }
        }
      }
    case Some(j) =>
      IndexOfFirst(d, k);
      if j < i {
        assert r[j] == d[j];
        IndexOfExact(r, k, j);
      } else {
        assert r[j - 1] == d[j];
        forall j' | 0 <= j' < j - 1
          ensures r[j'].0 != k
        {
          if j' < i { assert r[j'] == d[j']; } else { assert r[j'] == d[j' + 1]; }
        }
        IndexOfExact(r, k, j - 1);
      }
  }

  /** A key of `a + b` is a key of `a` or of `b`. */
  lemma HasKeyConcat<K, V>(a: Dict<K, V>, b: Dict<K, V>, k: K)
    ensures HasKey(a + b, k) <==> HasKey(a, k) || HasKey(b, k)
  {
    if HasKey(a + b, k) {
      var i :| 0 <= i < |a + b| && (a + b)[i].0 == k;
      if i >= |a| {
        assert b[i - |a|].0 == k;
      }
    }
    if HasKey(b, k) {
      var i :| 0 <= i < |b| && b[i].0 == k;
      assert (a + b)[|a| + i].0 == k;
    }
    if HasKey(a, k) {
      var i :| 0 <= i < |a| && a[i].0 == k;
      assert (a + b)[i].0 == k;
    }
  }

  /** Looking a key up in `a + b` finds it in `a` first. */
  lemma {:induction false} GetConcat<K, V>(a: Dict<K, V>, b: Dict<K, V>, k: K)
    ensures Get(a + b, k) == if HasKey(a, k) then Get(a, k) else Get(b, k)
    decreases |a|
  {
    if |a| > 0 && a[0].0 != k {
      assert (a + b)[1..] == a[1..] + b;
      GetConcat(a[1..], b, k);
      assert HasKey(a, k) <==> HasKey(a[1..], k) by {
        assert forall i :: 1 <= i < |a| ==> a[i] == a[1..][i - 1];
      }
    } else if |a| == 0 {
      assert a + b == b;
    }
  }
}

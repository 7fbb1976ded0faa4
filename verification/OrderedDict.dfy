/** A dictionary that iterates in insertion order, as Python's `dict` does: updating a key keeps
    its place, removing and writing it again moves it to the end. */
module OrderedDict {
  import opened Wrappers
  import opened Seqs

  type Dict<K, V> = seq<(K, V)>

  ghost predicate Unique<K, V>(d: Dict<K, V>) {
    forall i, j :: 0 <= i < j < |d| ==> d[i].0 != d[j].0
  }

  function Lookup<K(==), V>(d: Dict<K, V>, k: K): Option<V> {
    if d == [] then None else if d[0].0 == k then Some(d[0].1) else Lookup(d[1..], k)
  }

  function Write<K(==), V>(d: Dict<K, V>, k: K, v: V): (r: Dict<K, V>)
    ensures r != []
  {
    if d == [] then [(k, v)] else if d[0].0 == k then [(k, v)] + d[1..] else [d[0]] + Write(d[1..], k, v)
  }

  function Remove<K(==), V>(d: Dict<K, V>, k: K): Dict<K, V> {
    if d == [] then [] else if d[0].0 == k then d[1..] else [d[0]] + Remove(d[1..], k)
  }

  lemma {:induction false} LookupFinds<K, V>(d: Dict<K, V>, k: K)
    ensures Lookup(d, k).Some? ==> (k, Lookup(d, k).value) in d
    ensures Lookup(d, k).None? <==> forall i :: 0 <= i < |d| ==> d[i].0 != k
  {
    if d != [] && d[0].0 != k {
      LookupFinds(d[1..], k);
      assert forall i :: 1 <= i < |d| ==> d[i] == d[1..][i - 1];
    }
  }

  lemma {:induction false} LookupOfMember<K, V>(d: Dict<K, V>, i: nat)
    requires Unique(d) && i < |d|
    ensures Lookup(d, d[i].0) == Some(d[i].1)
  {
    if i > 0 {
      LookupOfMember(d[1..], i - 1);
    }
  }

  lemma {:induction false} LookupAfterWrite<K, V>(d: Dict<K, V>, k: K, v: V, k': K)
    ensures Lookup(Write(d, k, v), k') == if k' == k then Some(v) else Lookup(d, k')
  {
    if d != [] && d[0].0 != k {
      LookupAfterWrite(d[1..], k, v, k');
    }
  }

  lemma {:induction false} WriteKeepsUnique<K, V>(d: Dict<K, V>, k: K, v: V)
    requires Unique(d)
    ensures Unique(Write(d, k, v))
    ensures forall i :: 0 <= i < |Write(d, k, v)| ==> Write(d, k, v)[i] == (k, v) || Write(d, k, v)[i] in d
  {
    if d != [] && d[0].0 != k {
      WriteKeepsUnique(d[1..], k, v);
      var tail := Write(d[1..], k, v);
      forall j | 0 <= j < |tail|
        ensures tail[j].0 != d[0].0 && (tail[j] == (k, v) || tail[j] in d)
      {
        assert tail[j] == (k, v) || tail[j] in d[1..];
      }
    }
  }

  lemma {:induction false} LookupAfterRemove<K, V>(d: Dict<K, V>, k: K, k': K)
    requires Unique(d)
    ensures Lookup(Remove(d, k), k') == if k' == k then None else Lookup(d, k')
  {
    if d != [] {
      if d[0].0 == k {
        LookupFinds(d[1..], k);
        assert forall i :: 0 <= i < |d[1..]| ==> d[1..][i].0 != k;
      } else {
        LookupAfterRemove(d[1..], k, k');
      }
    }
  }

  lemma {:induction false} RemoveKeepsUnique<K, V>(d: Dict<K, V>, k: K)
    requires Unique(d)
    ensures Unique(Remove(d, k))
    ensures forall i :: 0 <= i < |Remove(d, k)| ==> Remove(d, k)[i] in d
  {
    if d != [] && d[0].0 != k {
      RemoveKeepsUnique(d[1..], k);
      var tail := Remove(d[1..], k);
      forall j | 0 <= j < |tail|
        ensures tail[j].0 != d[0].0 && tail[j] in d
      {
        assert tail[j] in d[1..];
      }
    }
  }

  // ---- iteration order ---------------------------------------------------------------------------

  function KeyOf<K, V>(): ((K, V)) -> K {
    (entry: (K, V)) => entry.0
  }

  /** The keys, in iteration order. */
  function Keys<K, V>(d: Dict<K, V>): seq<K> {
    Map(d, KeyOf())
  }

  lemma {:induction false} KeysFirst<K, V>(d: Dict<K, V>)
    requires d != []
    ensures Keys(d) == [d[0].0] + Keys(d[1..])
  {
  }

  /** Writing keeps the order of the keys; a new one goes to the end. */
  lemma {:induction false} WriteKeepsOrder<K, V>(d: Dict<K, V>, k: K, v: V)
    ensures Keys(Write(d, k, v)) == if Lookup(d, k).Some? then Keys(d) else Keys(d) + [k]
  {
    if d != [] {
      KeysFirst(d);
      KeysFirst(Write(d, k, v));
      if d[0].0 != k {
        WriteKeepsOrder(d[1..], k, v);
      }
    }
  }

  function Other<K(==)>(k: K): K -> bool {
    (k': K) => k' != k
  }

  /** Removing takes the key out and leaves the order of the others. */
  lemma {:induction false} RemoveKeepsOrder<K, V>(d: Dict<K, V>, k: K)
    requires Unique(d)
    ensures Keys(Remove(d, k)) == Filter(Keys(d), Other(k))
  {
    if d != [] {
      KeysFirst(d);
      assert Keys(d)[1..] == Keys(d[1..]);
      if d[0].0 == k {
        FilterAll(Keys(d[1..]), Other(k));
      } else {
        KeysFirst(Remove(d, k));
        RemoveKeepsOrder(d[1..], k);
      }
    }
  }
}

/** JavaScript plain objects and `Map`s as ordered association lists.
    A key keeps the position of its first insertion; assigning to a key that
    is already present replaces its value in place (`obj[k] = v`,
    `map.set(k, v)`), a new key goes to the end, and `delete` removes the
    entry. Iteration (`Object.entries`, `Object.values`, `for … in`) follows
    this order. */
module OrderedMaps {
  import opened Wrappers

  /** The keys in iteration order. */
  function Keys<K, V>(m: seq<(K, V)>): seq<K> {
    seq(|m|, i requires 0 <= i < |m| => m[i].0)
  }

  /** The values in iteration order (`Object.values`, `Array.from(map.values())`). */
  function Values<K, V>(m: seq<(K, V)>): seq<V> {
    seq(|m|, i requires 0 <= i < |m| => m[i].1)
  }

  predicate HasKey<K(==), V>(m: seq<(K, V)>, k: K) {
    exists i :: 0 <= i < |m| && m[i].0 == k
  }

  /** No key occurs twice: the shape of every JavaScript object. */
  predicate DistinctKeys<K(==), V>(m: seq<(K, V)>) {
    forall i, j :: 0 <= i < j < |m| ==> m[i].0 != m[j].0
  }

  /** `obj[k]`: the value of the first entry with key `k`, `None` for `undefined`. */
  function Get<K(==), V>(m: seq<(K, V)>, k: K): Option<V> {
    if m == [] then None
    else if m[0].0 == k then Some(m[0].1)
    else Get(m[1..], k)
  }

  /** `obj[k] = v`: replace in place when present, append otherwise. */
  function Put<K(==), V>(m: seq<(K, V)>, k: K, v: V): seq<(K, V)> {
    if m == [] then [(k, v)]
    else if m[0].0 == k then [(k, v)] + m[1..]
    else [m[0]] + Put(m[1..], k, v)
  }

  /** `delete obj[k]`: drop the entry with key `k`, if any. */
  function Delete<K(==), V>(m: seq<(K, V)>, k: K): seq<(K, V)> {
    if m == [] then []
    else if m[0].0 == k then m[1..]
    else [m[0]] + Delete(m[1..], k)
  }

  lemma {:induction false} GetNoneIff<K, V>(m: seq<(K, V)>, k: K)
    ensures Get(m, k).None? <==> !HasKey(m, k)
  {
    if m != [] && m[0].0 != k {
      GetNoneIff(m[1..], k);
      if HasKey(m, k) {
        var i :| 0 <= i < |m| && m[i].0 == k;
        assert m[1..][i - 1].0 == k;
      }
      if HasKey(m[1..], k) {
        var i :| 0 <= i < |m[1..]| && m[1..][i].0 == k;
        assert m[i + 1].0 == k;
      }
    }
  }

  /** `Get` returns the value of the first entry carrying the key. */
  lemma {:induction false} GetFirst<K, V>(m: seq<(K, V)>, i: nat)
    requires i < |m|
    requires forall j :: 0 <= j < i ==> m[j].0 != m[i].0
    ensures Get(m, m[i].0) == Some(m[i].1)
  {
    if i > 0 {
      GetFirst(m[1..], i - 1);
    }
  }

  /** With distinct keys every entry is found by its key. */
  lemma GetDistinct<K, V>(m: seq<(K, V)>, i: nat)
    requires DistinctKeys(m) && i < |m|
    ensures Get(m, m[i].0) == Some(m[i].1)
  {
    GetFirst(m, i);
  }

  /** What `Get` returns is the value of an entry with that key. */
  lemma {:induction false} GetSomeEntry<K, V>(m: seq<(K, V)>, k: K)
    requires Get(m, k).Some?
    ensures exists i :: 0 <= i < |m| && m[i] == (k, Get(m, k).value)
  {
    if m[0].0 != k {
      GetSomeEntry(m[1..], k);
      var i :| 0 <= i < |m[1..]| && m[1..][i] == (k, Get(m, k).value);
      assert m[i + 1] == (k, Get(m, k).value);
    }
  }

  lemma {:induction false} PutGet<K, V>(m: seq<(K, V)>, k: K, v: V, k': K)
    ensures Get(Put(m, k, v), k') == if k' == k then Some(v) else Get(m, k')
  {
    if m != [] && m[0].0 != k {
      PutGet(m[1..], k, v, k');
    }
  }

  /** A second write to the same key replaces the first. */
  lemma {:induction false} PutPut<K, V>(m: seq<(K, V)>, k: K, v: V, w: V)
    ensures Put(Put(m, k, v), k, w) == Put(m, k, w)
  {
    if m != [] && m[0].0 != k {
      PutPut(m[1..], k, v, w);
    }
  }

  lemma PutHasKey<K, V>(m: seq<(K, V)>, k: K, v: V, k': K)
    ensures HasKey(Put(m, k, v), k') <==> k' == k || HasKey(m, k')
  {
    PutGet(m, k, v, k');
    GetNoneIff(Put(m, k, v), k');
    GetNoneIff(m, k');
  }

  lemma {:induction false} PutLength<K, V>(m: seq<(K, V)>, k: K, v: V)
    ensures |Put(m, k, v)| == if HasKey(m, k) then |m| else |m| + 1
  {
    GetNoneIff(m, k);
    if m != [] && m[0].0 != k {
      PutLength(m[1..], k, v);
      GetNoneIff(m[1..], k);
    }
  }

  /** A new key is appended at the end. */
  lemma {:induction false} PutAppends<K, V>(m: seq<(K, V)>, k: K, v: V)
    requires !HasKey(m, k)
    ensures Put(m, k, v) == m + [(k, v)]
  {
    if m != [] {
      assert m[0].0 != k;
      assert forall i :: 0 <= i < |m[1..]| ==> m[1..][i] == m[i + 1];
      PutAppends(m[1..], k, v);
    }
  }

  /** A present key keeps its position: only its value changes. */
  lemma {:induction false} PutInPlace<K, V>(m: seq<(K, V)>, i: nat, v: V)
    requires i < |m|
    requires forall j :: 0 <= j < i ==> m[j].0 != m[i].0
    ensures Put(m, m[i].0, v) == m[i := (m[i].0, v)]
  {
    if i > 0 {
      PutInPlace(m[1..], i - 1, v);
      assert m[1..][i - 1 := (m[i].0, v)] == m[i := (m[i].0, v)][1..];
    }
  }

  lemma PutKeysPresent<K, V>(m: seq<(K, V)>, k: K, v: V)
    requires DistinctKeys(m) && HasKey(m, k)
    ensures Keys(Put(m, k, v)) == Keys(m)
  {
    var i :| 0 <= i < |m| && m[i].0 == k;
    PutInPlace(m, i, v);
  }

  lemma PutDistinct<K, V>(m: seq<(K, V)>, k: K, v: V)
    requires DistinctKeys(m)
    ensures DistinctKeys(Put(m, k, v))
  {
    if HasKey(m, k) {
      var i :| 0 <= i < |m| && m[i].0 == k;
      PutInPlace(m, i, v);
    } else {
      PutAppends(m, k, v);
    }
  }

  /** Every entry after `Put` is the new one or an old one. */
  lemma {:induction false} PutEntries<K, V>(m: seq<(K, V)>, k: K, v: V, e: (K, V))
    requires e in Put(m, k, v)
    ensures e == (k, v) || e in m
  {
    if m != [] && m[0].0 != k {
      if e != m[0] {
        PutEntries(m[1..], k, v, e);
      }
    }
  }

  lemma {:induction false} DeleteGet<K, V>(m: seq<(K, V)>, k: K, k': K)
    requires DistinctKeys(m)
    ensures Get(Delete(m, k), k') == if k' == k then None else Get(m, k')
  {
    if m != [] {
      if m[0].0 == k {
        if k' == k {
          GetNoneIff(m[1..], k);
        }
      } else {
        DeleteGet(m[1..], k, k');
      }
    }
  }

  lemma {:induction false} DeleteLength<K, V>(m: seq<(K, V)>, k: K)
    ensures |Delete(m, k)| == if HasKey(m, k) then |m| - 1 else |m|
  {
    GetNoneIff(m, k);
    if m != [] && m[0].0 != k {
      DeleteLength(m[1..], k);
      GetNoneIff(m[1..], k);
    }
  }

  lemma {:induction false} DeleteEntries<K, V>(m: seq<(K, V)>, k: K)
    ensures forall e :: e in Delete(m, k) ==> e in m
  {
    if m != [] && m[0].0 != k {
      DeleteEntries(m[1..], k);
    }
  }

  lemma DeleteDistinct<K, V>(m: seq<(K, V)>, k: K)
    requires DistinctKeys(m)
    ensures DistinctKeys(Delete(m, k))
  {
    var d := Delete(m, k);
    DeleteEntries(m, k);
    forall i, j | 0 <= i < j < |d| ensures d[i].0 != d[j].0 {
      DeleteGet(m, k, d[i].0);
      DeleteGet(m, k, d[j].0);
      if d[i].0 == d[j].0 {
        DeleteOrder(m, k, i, j);
      }
    }
  }

  /** Deleting keeps the relative order of the remaining entries. */
  lemma {:induction false} DeleteOrder<K, V>(m: seq<(K, V)>, k: K, i: nat, j: nat)
    requires DistinctKeys(m)
    requires i < j < |Delete(m, k)|
    ensures exists a, b :: 0 <= a < b < |m| && m[a] == Delete(m, k)[i] && m[b] == Delete(m, k)[j]
  {
    var d := Delete(m, k);
    if m[0].0 == k {
      assert d == m[1..];
      assert m[i + 1] == d[i] && m[j + 1] == d[j];
    } else if i == 0 {
      DeleteEntries(m[1..], k);
      assert d[j] == Delete(m[1..], k)[j - 1];
      assert d[j] in m[1..];
      var b :| 0 <= b < |m[1..]| && m[1..][b] == d[j];
      assert m[0] == d[0] && m[b + 1] == d[j];
    } else {
      DeleteOrder(m[1..], k, i - 1, j - 1);
      var a, b :| 0 <= a < b < |m[1..]| && m[1..][a] == Delete(m[1..], k)[i - 1] && m[1..][b] == Delete(m[1..], k)[j - 1];
      assert m[a + 1] == d[i] && m[b + 1] == d[j];
    }
  }

  /** The map built by assigning the entries of `es` in order. */
  function PutAll<K(==), V>(es: seq<(K, V)>): seq<(K, V)>
    decreases |es|
  {
    if es == [] then [] else Put(PutAll(es[..|es| - 1]), es[|es| - 1].0, es[|es| - 1].1)
  }

  lemma PutAllStep<K, V>(es: seq<(K, V)>, i: nat)
    requires i < |es|
    ensures PutAll(es[..i + 1]) == Put(PutAll(es[..i]), es[i].0, es[i].1)
  {
    assert es[..i + 1][..i] == es[..i];
  }

  lemma {:induction false} PutAllKeys<K, V>(es: seq<(K, V)>, k: K)
    ensures HasKey(PutAll(es), k) <==> HasKey(es, k)
    decreases |es|
  {
    if es != [] {
      var init := es[..|es| - 1];
      PutAllKeys(init, k);
      PutHasKey(PutAll(init), es[|es| - 1].0, es[|es| - 1].1, k);
      assert forall i :: 0 <= i < |init| ==> init[i] == es[i];
    }
  }

  lemma {:induction false} PutAllDistinct<K, V>(es: seq<(K, V)>)
    ensures DistinctKeys(PutAll(es))
    decreases |es|
  {
    if es != [] {
      PutAllDistinct(es[..|es| - 1]);
      PutDistinct(PutAll(es[..|es| - 1]), es[|es| - 1].0, es[|es| - 1].1);
    }
  }

  /** The set of keys. */
  function KeySet<K, V>(m: seq<(K, V)>): set<K>
    decreases |m|
  {
    if m == [] then {} else KeySet(m[..|m| - 1]) + {m[|m| - 1].0}
  }

  lemma {:induction false} KeySetMembers<K, V>(m: seq<(K, V)>, k: K)
    ensures k in KeySet(m) <==> HasKey(m, k)
    decreases |m|
  {
    if m != [] {
      KeySetMembers(m[..|m| - 1], k);
      assert forall i :: 0 <= i < |m| - 1 ==> m[..|m| - 1][i] == m[i];
    }
  }

  /** A map with distinct keys has as many entries as keys. */
  lemma {:induction false} KeySetSize<K, V>(m: seq<(K, V)>)
    requires DistinctKeys(m)
    ensures |KeySet(m)| == |m|
    decreases |m|
  {
    if m != [] {
      var init := m[..|m| - 1];
      assert DistinctKeys(init) by {
        assert forall i :: 0 <= i < |init| ==> init[i] == m[i];
      }
      KeySetSize(init);
      KeySetMembers(init, m[|m| - 1].0);
    }
  }

  /** After assigning all entries, a key holds the value of its last entry. */
  lemma {:induction false} PutAllLastWins<K, V>(es: seq<(K, V)>, i: nat)
    requires i < |es|
    requires forall j :: i < j < |es| ==> es[j].0 != es[i].0
    ensures Get(PutAll(es), es[i].0) == Some(es[i].1)
    decreases |es|
  {
    var init := es[..|es| - 1];
    PutGet(PutAll(init), es[|es| - 1].0, es[|es| - 1].1, es[i].0);
    if i < |es| - 1 {
      assert init[i] == es[i];
      PutAllLastWins(init, i);
    }
  }

  /** Every value passed through `f`, keys and order kept. */
  function MapValues<K, V, W>(m: seq<(K, V)>, f: V -> W): seq<(K, W)> {
    seq(|m|, i requires 0 <= i < |m| => (m[i].0, f(m[i].1)))
  }

  lemma {:induction false} GetMapValues<K, V, W>(m: seq<(K, V)>, f: V -> W, k: K)
    ensures Get(MapValues(m, f), k) == match Get(m, k) case None => None case Some(v) => Some(f(v))
    decreases |m|
  {
    if m != [] && m[0].0 != k {
      assert MapValues(m, f)[1..] == MapValues(m[1..], f);
      GetMapValues(m[1..], f, k);
    }
  }

  lemma {:induction false} PutMapValues<K, V, W>(m: seq<(K, V)>, f: V -> W, k: K, v: V)
    ensures MapValues(Put(m, k, v), f) == Put(MapValues(m, f), k, f(v))
    decreases |m|
  {
    if m != [] {
      assert MapValues(m, f)[1..] == MapValues(m[1..], f);
      if m[0].0 == k {
        assert MapValues([(k, v)] + m[1..], f) == [(k, f(v))] + MapValues(m[1..], f);
      } else {
        PutMapValues(m[1..], f, k, v);
        assert MapValues([m[0]] + Put(m[1..], k, v), f) == [(m[0].0, f(m[0].1))] + MapValues(Put(m[1..], k, v), f);
      }
    }
  }
}

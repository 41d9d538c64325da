/** Grouping rows into a JavaScript object keyed by a derived value, the
    pattern `if (!groups[k]) groups[k] = {posts: []}; groups[k].posts.push(x)`
    shared by the per-account and per-post-type views. Rows whose key is
    falsy are skipped (`key` returns `None`). Groups appear in the order
    their keys were first seen. */
module Grouping {
  import opened Wrappers
  import opened OrderedMaps
  import opened JsValues

  type Groups<T> = seq<(PropKey, seq<T>)>

  /** `groups[k].posts.push(x)`, creating the group on first use. */
  function AddToGroup<T>(g: Groups<T>, k: PropKey, x: T): Groups<T> {
    Put(g, k, Get(g, k).GetOr([]) + [x])
  }

  /** The groups after visiting `xs` from left to right. */
  function GroupBy<T>(xs: seq<T>, key: T -> Option<PropKey>): Groups<T>
    decreases |xs|
  {
    if xs == [] then []
    else
      var g := GroupBy(xs[..|xs| - 1], key);
      match key(xs[|xs| - 1])
      case None => g
      case Some(k) => AddToGroup(g, k, xs[|xs| - 1])
  }

  /** The rows with key `k`, in input order. */
  function Members<T>(xs: seq<T>, key: T -> Option<PropKey>, k: PropKey): seq<T>
    decreases |xs|
  {
    if xs == [] then []
    else Members(xs[..|xs| - 1], key, k) + (if key(xs[|xs| - 1]) == Some(k) then [xs[|xs| - 1]] else [])
  }

  /** The rows with some key, in input order. */
  function Keyed<T>(xs: seq<T>, key: T -> Option<PropKey>): seq<T>
    decreases |xs|
  {
    if xs == [] then []
    else Keyed(xs[..|xs| - 1], key) + (if key(xs[|xs| - 1]).Some? then [xs[|xs| - 1]] else [])
  }

  /** `rows.reduce((s, x) => s + f(x), 0)`. */
  function SumOf<T>(xs: seq<T>, f: T -> real): real
    decreases |xs|
  {
    if xs == [] then 0.0 else SumOf(xs[..|xs| - 1], f) + f(xs[|xs| - 1])
  }

  lemma AppendAssoc<T>(a: seq<T>, b: seq<T>, c: seq<T>)
    ensures a + b + c == a + (b + c)
  {
  }

  lemma SumOfUnfold<T>(xs: seq<T>, f: T -> real)
    requires xs != []
    ensures SumOf(xs, f) == SumOf(xs[..|xs| - 1], f) + f(xs[|xs| - 1])
  {
  }

  /** The sum of `f` over every row of every group. */
  function TotalOver<T>(g: Groups<T>, f: T -> real): real {
    if g == [] then 0.0 else SumOf(g[0].1, f) + TotalOver(g[1..], f)
  }

  function One<T>(x: T): real {
    1.0
  }

  lemma {:induction false} SumOfOnes<T>(xs: seq<T>)
    ensures SumOf(xs, One) == |xs| as real
    decreases |xs|
  {
    if xs != [] {
      SumOfOnes(xs[..|xs| - 1]);
    }
  }

  lemma {:induction false} SumOfAppend<T>(xs: seq<T>, ys: seq<T>, f: T -> real)
    ensures SumOf(xs + ys, f) == SumOf(xs, f) + SumOf(ys, f)
    decreases |ys|
  {
    if ys != [] {
      assert (xs + ys)[..|xs + ys| - 1] == xs + ys[..|ys| - 1];
      SumOfAppend(xs, ys[..|ys| - 1], f);
    } else {
      assert xs + ys == xs;
    }
  }

  /** A sum of terms between `lo` and `hi` lies between `n * lo` and `n * hi`. */
  lemma {:induction false} SumOfBounds<T>(xs: seq<T>, f: T -> real, lo: real, hi: real)
    requires forall x :: x in xs ==> lo <= f(x) <= hi
    ensures |xs| as real * lo <= SumOf(xs, f) <= |xs| as real * hi
    decreases |xs|
  {
    if xs != [] {
      var init := xs[..|xs| - 1];
      SumOfBounds(init, f, lo, hi);
      assert xs[|xs| - 1] in xs;
      var n := |init| as real;
      assert |xs| as real * lo == n * lo + lo && |xs| as real * hi == n * hi + hi;
    }
  }

  /** Summing a pointwise sum is adding the two sums. */
  lemma {:induction false} SumOfPlus<T>(xs: seq<T>, f: T -> real, g: T -> real, h: T -> real)
    requires forall x :: x in xs ==> h(x) == f(x) + g(x)
    ensures SumOf(xs, h) == SumOf(xs, f) + SumOf(xs, g)
    decreases |xs|
  {
    if xs != [] {
      SumOfPlus(xs[..|xs| - 1], f, g, h);
      assert xs[|xs| - 1] in xs;
    }
  }

  /** Terms that are all 0 sum to 0. */
  lemma {:induction false} SumOfZero<T>(xs: seq<T>, f: T -> real)
    requires forall x :: x in xs ==> f(x) == 0.0
    ensures SumOf(xs, f) == 0.0
    decreases |xs|
  {
    if xs != [] {
      SumOfZero(xs[..|xs| - 1], f);
      assert xs[|xs| - 1] in xs;
    }
  }

  /** Scaling every term scales the sum. */
  lemma {:induction false} SumOfScale<T>(xs: seq<T>, f: T -> real, g: T -> real, c: real)
    requires forall x :: x in xs ==> g(x) == c * f(x)
    ensures SumOf(xs, g) == c * SumOf(xs, f)
    decreases |xs|
  {
    if xs != [] {
      SumOfScale(xs[..|xs| - 1], f, g, c);
      assert xs[|xs| - 1] in xs;
    }
  }

  /** A termwise smaller sum is smaller. */
  lemma {:induction false} SumOfMonotone<T>(xs: seq<T>, f: T -> real, g: T -> real)
    requires forall x :: x in xs ==> f(x) <= g(x)
    ensures SumOf(xs, f) <= SumOf(xs, g)
    decreases |xs|
  {
    if xs != [] {
      SumOfMonotone(xs[..|xs| - 1], f, g);
      assert xs[|xs| - 1] in xs;
    }
  }

  /** Dividing `lo * c <= s <= hi * c` by a positive `c`: a mean lies
      between the bounds of its terms. */
  lemma QuotientBounds(s: real, c: real, lo: real, hi: real)
    requires c > 0.0 && lo * c <= s <= hi * c
    ensures lo <= s / c <= hi
  {
  }

  lemma {:induction false} TotalOverAppend<T>(g: Groups<T>, e: (PropKey, seq<T>), f: T -> real)
    ensures TotalOver(g + [e], f) == TotalOver(g, f) + SumOf(e.1, f)
  {
    if g != [] {
      assert (g + [e])[1..] == g[1..] + [e];
      TotalOverAppend(g[1..], e, f);
    }
  }

  /** The total is the total without the last group plus that group's sum. */
  lemma TotalOverLast<T>(g: Groups<T>, f: T -> real)
    requires g != []
    ensures TotalOver(g, f) == TotalOver(g[..|g| - 1], f) + SumOf(g[|g| - 1].1, f)
  {
    assert g == g[..|g| - 1] + [g[|g| - 1]];
    TotalOverAppend(g[..|g| - 1], g[|g| - 1], f);
  }

  /** Appending a row to a group adds its share to the total. */
  lemma {:induction false} TotalOverAdd<T>(g: Groups<T>, k: PropKey, x: T, f: T -> real)
    ensures TotalOver(AddToGroup(g, k, x), f) == TotalOver(g, f) + f(x)
  {
    var old_ := Get(g, k).GetOr([]);
    assert (old_ + [x])[..|old_|] == old_;
    if g == [] {
      assert AddToGroup(g, k, x) == [(k, [x])];
      assert [x][..0] == [];
      assert [(k, [x])][1..] == [];
      assert SumOf([x], f) == f(x);
      assert TotalOver([(k, [x])], f) == SumOf([x], f) + TotalOver([], f);
    } else if g[0].0 == k {
      assert AddToGroup(g, k, x) == [(k, g[0].1 + [x])] + g[1..];
    } else {
      TotalOverAdd(g[1..], k, x, f);
    }
  }

  lemma {:induction false} MembersEmptyIff<T>(xs: seq<T>, key: T -> Option<PropKey>, k: PropKey)
    ensures Members(xs, key, k) == [] <==> forall i :: 0 <= i < |xs| ==> key(xs[i]) != Some(k)
    decreases |xs|
  {
    if xs != [] {
      MembersEmptyIff(xs[..|xs| - 1], key, k);
      assert forall i :: 0 <= i < |xs| - 1 ==> xs[..|xs| - 1][i] == xs[i];
    }
  }

  /** Every member of a group carries its key and comes from the input. */
  lemma {:induction false} MembersHaveKey<T>(xs: seq<T>, key: T -> Option<PropKey>, k: PropKey)
    ensures forall y :: y in Members(xs, key, k) ==> key(y) == Some(k) && y in xs
    decreases |xs|
  {
    if xs != [] {
      MembersHaveKey(xs[..|xs| - 1], key, k);
    }
  }

  /** The group of `k` holds exactly the rows with key `k`, in input order;
      there is no group for a key no row has. */
  lemma {:induction false} GroupByGet<T>(xs: seq<T>, key: T -> Option<PropKey>, k: PropKey)
    ensures Get(GroupBy(xs, key), k) == if Members(xs, key, k) == [] then None else Some(Members(xs, key, k))
    decreases |xs|
  {
    if xs != [] {
      var init := xs[..|xs| - 1];
      var x := xs[|xs| - 1];
      GroupByGet(init, key, k);
      match key(x)
      case None =>
        assert GroupBy(xs, key) == GroupBy(init, key);
        assert Members(xs, key, k) == Members(init, key, k);
      case Some(k') =>
        assert GroupBy(xs, key) == AddToGroup(GroupBy(init, key), k', x);
        assert Members(xs, key, k) == Members(init, key, k) + (if k' == k then [x] else []);
        PutGet(GroupBy(init, key), k', Get(GroupBy(init, key), k').GetOr([]) + [x], k);
        if k' != k {
          assert Members(xs, key, k) == Members(init, key, k);
          assert Get(GroupBy(xs, key), k) == Get(GroupBy(init, key), k);
        } else {
          GroupByGet(init, key, k');
        }
    }
  }

  /** No key occurs twice among the groups. */
  lemma {:induction false} GroupByDistinct<T>(xs: seq<T>, key: T -> Option<PropKey>)
    ensures DistinctKeys(GroupBy(xs, key))
    decreases |xs|
  {
    if xs != [] {
      GroupByDistinct(xs[..|xs| - 1], key);
      match key(xs[|xs| - 1])
      case None =>
      case Some(k) =>
        PutDistinct(GroupBy(xs[..|xs| - 1], key), k, Get(GroupBy(xs[..|xs| - 1], key), k).GetOr([]) + [xs[|xs| - 1]]);
    }
  }

  /** Each group is non-empty and holds exactly the rows with its key. */
  lemma GroupByEntries<T>(xs: seq<T>, key: T -> Option<PropKey>)
    ensures forall i :: 0 <= i < |GroupBy(xs, key)| ==>
      GroupBy(xs, key)[i].1 == Members(xs, key, GroupBy(xs, key)[i].0) && GroupBy(xs, key)[i].1 != []
  {
    var g := GroupBy(xs, key);
    GroupByDistinct(xs, key);
    forall i | 0 <= i < |g|
      ensures g[i].1 == Members(xs, key, g[i].0) && g[i].1 != []
    {
      GetDistinct(g, i);
      GroupByGet(xs, key, g[i].0);
    }
  }

  /** There is a group for `k` exactly when some row has key `k`. */
  lemma GroupByHasKey<T>(xs: seq<T>, key: T -> Option<PropKey>, k: PropKey)
    ensures HasKey(GroupBy(xs, key), k) <==> exists i :: 0 <= i < |xs| && key(xs[i]) == Some(k)
  {
    GroupByGet(xs, key, k);
    GetNoneIff(GroupBy(xs, key), k);
    MembersEmptyIff(xs, key, k);
  }

  /** Summing over the groups is summing over the keyed rows. */
  lemma {:induction false} GroupByTotal<T>(xs: seq<T>, key: T -> Option<PropKey>, f: T -> real)
    ensures TotalOver(GroupBy(xs, key), f) == SumOf(Keyed(xs, key), f)
    decreases |xs|
  {
    if xs != [] {
      var init := xs[..|xs| - 1];
      var x := xs[|xs| - 1];
      GroupByTotal(init, key, f);
      match key(x)
      case None =>
        assert GroupBy(xs, key) == GroupBy(init, key);
        assert Keyed(xs, key) == Keyed(init, key);
      case Some(k) =>
        TotalOverAdd(GroupBy(init, key), k, x, f);
        SumOfAppend(Keyed(init, key), [x], f);
        assert [x][..0] == [];
    }
  }

  /** The group sizes add up to the number of keyed rows. */
  lemma GroupBySizes<T>(xs: seq<T>, key: T -> Option<PropKey>)
    ensures TotalOver(GroupBy(xs, key), One) == |Keyed(xs, key)| as real
  {
    GroupByTotal(xs, key, One);
    SumOfOnes(Keyed(xs, key));
  }

  /** When every row has a key, every row is keyed. */
  lemma {:induction false} KeyedAll<T>(xs: seq<T>, key: T -> Option<PropKey>)
    requires forall i :: 0 <= i < |xs| ==> key(xs[i]).Some?
    ensures Keyed(xs, key) == xs
    decreases |xs|
  {
    if xs != [] {
      KeyedAll(xs[..|xs| - 1], key);
    }
  }

  /** The keyed rows are the rows whose key is present, in order. */
  lemma {:induction false} KeyedMembers<T>(xs: seq<T>, key: T -> Option<PropKey>)
    ensures forall y :: y in Keyed(xs, key) <==> y in xs && key(y).Some?
    decreases |xs|
  {
    if xs != [] {
      KeyedMembers(xs[..|xs| - 1], key);
      assert xs == xs[..|xs| - 1] + [xs[|xs| - 1]];
    }
  }
}

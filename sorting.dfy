/** `Array.prototype.sort()` without a comparator: a stable sort by object
    key. Strings and integral numbers are ordered by their string forms,
    character by character; numbers that are not integral have no spelling
    here and are ordered after every string. */
module Sorting {
  import opened JsValues

  /** Lexicographic order on strings, by code point. */
  predicate StrLt(a: string, b: string) {
    if a == [] then b != []
    else if b == [] then false
    else a[0] < b[0] || (a[0] == b[0] && StrLt(a[1..], b[1..]))
  }

  lemma {:induction false} StrLtIrreflexive(a: string)
    ensures !StrLt(a, a)
  {
    if a != [] {
      StrLtIrreflexive(a[1..]);
    }
  }

  lemma {:induction false} StrLtTransitive(a: string, b: string, c: string)
    requires StrLt(a, b) && StrLt(b, c)
    ensures StrLt(a, c)
  {
    if a != [] && b != [] && c != [] && a[0] == b[0] && b[0] == c[0] {
      StrLtTransitive(a[1..], b[1..], c[1..]);
    }
  }

  lemma {:induction false} StrLtTotal(a: string, b: string)
    requires a != b
    ensures StrLt(a, b) || StrLt(b, a)
  {
    if a != [] && b != [] && a[0] == b[0] {
      assert a == [a[0]] + a[1..] && b == [b[0]] + b[1..];
      StrLtTotal(a[1..], b[1..]);
    }
  }

  /** The order on object keys: strings lexicographically; numbers that are
      not integral come after every string, in numeric order. */
  predicate KeyLt(a: PropKey, b: PropKey) {
    match (a, b)
    case (Text(x), Text(y)) => StrLt(x, y)
    case (Text(_), Fraction(_)) => true
    case (Fraction(_), Text(_)) => false
    case (Fraction(x), Fraction(y)) => x < y
  }

  predicate KeyLe(a: PropKey, b: PropKey) {
    a == b || KeyLt(a, b)
  }

  lemma KeyLtIrreflexive(a: PropKey)
    ensures !KeyLt(a, a)
  {
    if a.Text? {
      StrLtIrreflexive(a.s);
    }
  }

  lemma KeyLtTransitive(a: PropKey, b: PropKey, c: PropKey)
    requires KeyLt(a, b) && KeyLt(b, c)
    ensures KeyLt(a, c)
  {
    if a.Text? && b.Text? && c.Text? {
      StrLtTransitive(a.s, b.s, c.s);
    }
  }

  lemma KeyLtTotal(a: PropKey, b: PropKey)
    requires a != b
    ensures KeyLt(a, b) || KeyLt(b, a)
  {
    if a.Text? && b.Text? {
      StrLtTotal(a.s, b.s);
    }
  }

  lemma KeyLeTransitive(a: PropKey, b: PropKey, c: PropKey)
    requires KeyLe(a, b) && KeyLe(b, c)
    ensures KeyLe(a, c)
  {
    if a != b && b != c {
      KeyLtTransitive(a, b, c);
    }
  }

  /** Ordered by key, equal keys allowed. */
  predicate SortedByKey(xs: seq<Value>) {
    forall i, j :: 0 <= i < j < |xs| ==> KeyLe(Key(xs[i]), Key(xs[j]))
  }

  /** Ordered by key, each strictly before the next. */
  predicate StrictlySortedByKey(xs: seq<Value>) {
    forall i, j :: 0 <= i < j < |xs| ==> KeyLt(Key(xs[i]), Key(xs[j]))
  }

  lemma KeyLtLe(a: PropKey, b: PropKey, c: PropKey)
    requires KeyLt(a, b) && KeyLe(b, c)
    ensures KeyLt(a, c)
  {
    if b != c {
      KeyLtTransitive(a, b, c);
    }
  }

  /** Every element of a permutation of `xs[1..]` and `x` has a key at
      least that of `xs[0]`, when `xs[0]`'s key is at most `x`'s. */
  lemma RestAfterHead(x: Value, xs: seq<Value>, rest: seq<Value>)
    requires SortedByKey(xs) && xs != [] && KeyLe(Key(xs[0]), Key(x))
    requires multiset(rest) == multiset(xs[1..]) + multiset{x}
    ensures forall i :: 0 <= i < |rest| ==> KeyLe(Key(xs[0]), Key(rest[i]))
  {
    forall i | 0 <= i < |rest| ensures KeyLe(Key(xs[0]), Key(rest[i])) {
      assert rest[i] in multiset(rest);
      assert rest[i] == x || rest[i] in multiset(xs[1..]);
      if rest[i] != x {
        var j :| 0 <= j < |xs[1..]| && xs[1..][j] == rest[i];
        assert xs[j + 1] == rest[i];
      }
    }
  }

  /** Place `x` before the first element whose key is larger, so after
      every element whose key is equal. */
  function Insert(x: Value, xs: seq<Value>): (r: seq<Value>)
    requires SortedByKey(xs)
    ensures multiset(r) == multiset(xs) + multiset{x}
    ensures SortedByKey(r)
  {
    if xs == [] then [x]
    else if KeyLt(Key(x), Key(xs[0])) then
      assert forall i :: 0 <= i < |xs| ==> KeyLt(Key(x), Key(xs[i])) by {
        forall i | 0 <= i < |xs| ensures KeyLt(Key(x), Key(xs[i])) {
          KeyLtLe(Key(x), Key(xs[0]), Key(xs[i]));
        }
      }
      [x] + xs
    else
      assert SortedByKey(xs[1..]);
      var rest := Insert(x, xs[1..]);
      assert xs == [xs[0]] + xs[1..];
      assert KeyLe(Key(xs[0]), Key(x)) by {
        if Key(x) != Key(xs[0]) {
          KeyLtTotal(Key(x), Key(xs[0]));
        }
      }
      RestAfterHead(x, xs, rest);
      [xs[0]] + rest
  }

  /** The default sort: a sorted permutation of the input. */
  function Sort(xs: seq<Value>): (r: seq<Value>)
    ensures multiset(r) == multiset(xs)
    ensures SortedByKey(r)
  {
    if xs == [] then []
    else
      assert xs == xs[..|xs| - 1] + [xs[|xs| - 1]];
      Insert(xs[|xs| - 1], Sort(xs[..|xs| - 1]))
  }

  /** `[x]` when `x` has key `k`, else nothing. */
  function IfKey(x: Value, k: PropKey): seq<Value> {
    if Key(x) == k then [x] else []
  }

  /** The elements whose key is `k`, in order. */
  function WithKey(xs: seq<Value>, k: PropKey): seq<Value> {
    if xs == [] then [] else IfKey(xs[0], k) + WithKey(xs[1..], k)
  }

  lemma {:induction false} WithKeyAppend(a: seq<Value>, b: seq<Value>, k: PropKey)
    ensures WithKey(a + b, k) == WithKey(a, k) + WithKey(b, k)
    decreases |a|
  {
    if a == [] {
      assert a + b == b;
    } else {
      var ab := a + b;
      assert ab[0] == a[0] && ab[1..] == a[1..] + b;
      WithKeyAppend(a[1..], b, k);
      calc {
        WithKey(ab, k);
        IfKey(a[0], k) + WithKey(a[1..] + b, k);
        IfKey(a[0], k) + (WithKey(a[1..], k) + WithKey(b, k));
        (IfKey(a[0], k) + WithKey(a[1..], k)) + WithKey(b, k);
      }
    }
  }

  lemma {:induction false} WithKeyNone(xs: seq<Value>, k: PropKey)
    requires forall i :: 0 <= i < |xs| ==> Key(xs[i]) != k
    ensures WithKey(xs, k) == []
    decreases |xs|
  {
    if xs != [] {
      WithKeyNone(xs[1..], k);
    }
  }

  lemma WithKeyCons(h: Value, t: seq<Value>, k: PropKey)
    ensures WithKey([h] + t, k) == IfKey(h, k) + WithKey(t, k)
  {
    assert ([h] + t)[0] == h && ([h] + t)[1..] == t;
  }

  lemma WithKeySnoc(init: seq<Value>, x: Value, k: PropKey)
    ensures WithKey(init + [x], k) == WithKey(init, k) + IfKey(x, k)
  {
    WithKeyAppend(init, [x], k);
    WithKeyCons(x, [], k);
    assert [x] + [] == [x];
  }

  /** Inserting `x` puts it after every element with its key. */
  lemma {:induction false} InsertWithKey(x: Value, xs: seq<Value>, k: PropKey)
    requires SortedByKey(xs)
    ensures WithKey(Insert(x, xs), k) == WithKey(xs, k) + IfKey(x, k)
    decreases |xs|, 1
  {
    if xs == [] {
      WithKeySnoc([], x, k);
      assert [] + [x] == [x];
    } else if KeyLt(Key(x), Key(xs[0])) {
      InsertFront(x, xs, k);
    } else {
      InsertLater(x, xs, k);
    }
  }

  /** `x` goes first: no element of `xs` has its key. */
  lemma InsertFront(x: Value, xs: seq<Value>, k: PropKey)
    requires SortedByKey(xs) && xs != [] && KeyLt(Key(x), Key(xs[0]))
    ensures WithKey(Insert(x, xs), k) == WithKey(xs, k) + IfKey(x, k)
  {
    WithKeyCons(x, xs, k);
    if Key(x) == k {
      forall i | 0 <= i < |xs| ensures Key(xs[i]) != k {
        KeyLtLe(Key(x), Key(xs[0]), Key(xs[i]));
        KeyLtIrreflexive(k);
      }
      WithKeyNone(xs, k);
    }
  }

  /** `x` goes after the first element. */
  lemma {:induction false} InsertLater(x: Value, xs: seq<Value>, k: PropKey)
    requires SortedByKey(xs) && xs != [] && !KeyLt(Key(x), Key(xs[0]))
    ensures WithKey(Insert(x, xs), k) == WithKey(xs, k) + IfKey(x, k)
    decreases |xs|, 0
  {
    var tail := xs[1..];
    assert SortedByKey(tail);
    calc {
      WithKey(Insert(x, xs), k);
      == { assert Insert(x, xs) == [xs[0]] + Insert(x, tail); }
      WithKey([xs[0]] + Insert(x, tail), k);
      == { WithKeyCons(xs[0], Insert(x, tail), k); }
      IfKey(xs[0], k) + WithKey(Insert(x, tail), k);
      == { InsertWithKey(x, tail, k); }
      IfKey(xs[0], k) + (WithKey(tail, k) + IfKey(x, k));
      (IfKey(xs[0], k) + WithKey(tail, k)) + IfKey(x, k);
      == { WithKeyCons(xs[0], tail, k); assert [xs[0]] + tail == xs; }
      WithKey(xs, k) + IfKey(x, k);
    }
  }

  lemma SortWithKeyStep(xs: seq<Value>, k: PropKey)
    requires xs != []
    ensures WithKey(Sort(xs), k) == WithKey(Sort(xs[..|xs| - 1]), k) + IfKey(xs[|xs| - 1], k)
  {
    InsertWithKey(xs[|xs| - 1], Sort(xs[..|xs| - 1]), k);
  }

  /** The sort is stable: elements with equal keys keep their input order. */
  lemma {:induction false} SortStable(xs: seq<Value>, k: PropKey)
    ensures WithKey(Sort(xs), k) == WithKey(xs, k)
    decreases |xs|
  {
    if xs != [] {
      var init, x := xs[..|xs| - 1], xs[|xs| - 1];
      calc {
        WithKey(Sort(xs), k);
        == { SortWithKeyStep(xs, k); }
        WithKey(Sort(init), k) + IfKey(x, k);
        == { SortStable(init, k); }
        WithKey(init, k) + IfKey(x, k);
        == { WithKeySnoc(init, x, k); assert init + [x] == xs; }
        WithKey(xs, k);
      }
    }
  }

  /** Distinct elements whose keys are also distinct come out strictly
      ordered. */
  lemma SortedDistinctKeysStrict(xs: seq<Value>)
    requires SortedByKey(xs)
    requires forall i, j :: 0 <= i < j < |xs| ==> Key(xs[i]) != Key(xs[j])
    ensures StrictlySortedByKey(xs)
  {
  }
}

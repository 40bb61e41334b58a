/**
 * The array operations the tracker is built from (`filter`, `find`), as
 * functions over sequences, with the facts the rest of the model relies on.
 */
module Lists {
  import opened Optional

  /** The elements of `xs` satisfying `p`, in their original order (Array.prototype.filter). */
  function Filter<T>(xs: seq<T>, p: T -> bool): (r: seq<T>)
    ensures |r| <= |xs|
    ensures forall x :: x in r ==> x in xs && p(x)
    ensures forall k :: 0 <= k < |xs| && p(xs[k]) ==> xs[k] in r
  {
    if xs == [] then []
    else if p(xs[0]) then [xs[0]] + Filter(xs[1..], p)
    else Filter(xs[1..], p)
  }

  /** Concatenation is associative. */
  lemma AppendAssoc<T>(a: seq<T>, b: seq<T>, c: seq<T>)
    ensures (a + b) + c == a + (b + c)
  {
  }

  /** Filtering a concatenation filters each part. */
  lemma {:induction false} FilterAppend<T>(a: seq<T>, b: seq<T>, p: T -> bool)
    ensures Filter(a + b, p) == Filter(a, p) + Filter(b, p)
  {
    if a == [] {
      assert a + b == b;
    } else {
      assert (a + b)[1..] == a[1..] + b;
      FilterAppend(a[1..], b, p);
    }
  }

  /** Filtering keeps every kept element with its multiplicity and drops every other one. */
  lemma {:induction false} FilterMultiplicity<T>(xs: seq<T>, p: T -> bool, x: T)
    ensures multiset(Filter(xs, p))[x] == if p(x) then multiset(xs)[x] else 0
  {
    if xs != [] {
      FilterMultiplicity(xs[1..], p, x);
      assert xs == [xs[0]] + xs[1..];
    }
  }

  /** `a` is `b` with some elements left out, the rest kept in order. */
  predicate Sublist<T(==)>(a: seq<T>, b: seq<T>)
    decreases |b|
  {
    if b == [] then a == []
    else (a != [] && a[0] == b[0] && Sublist(a[1..], b[1..])) || Sublist(a, b[1..])
  }

  /** A filter is an order-preserving sublist of its input. */
  lemma {:induction false} FilterIsSublist<T>(xs: seq<T>, p: T -> bool)
    ensures Sublist(Filter(xs, p), xs)
  {
    if xs != [] {
      FilterIsSublist(xs[1..], p);
    }
  }

  /** The elements of `xs` whose key is not `k` (`xs.filter(x => x.id !== k)`). */
  function RemoveKey<T, K(==)>(xs: seq<T>, key: T -> K, k: K): seq<T>
  {
    Filter(xs, KeyIsNot(key, k))
  }

  function KeyIsNot<T, K(==)>(key: T -> K, k: K): T -> bool
  {
    x => key(x) != k
  }

  /**
   * Removing by key drops every element with that key and keeps every other
   * element as often as `xs` holds it, in the order of `xs`.
   */
  lemma RemoveKeySpec<T, K>(xs: seq<T>, key: T -> K, k: K)
    ensures var r := RemoveKey(xs, key, k);
            (forall i :: 0 <= i < |r| ==> key(r[i]) != k)
            && Sublist(r, xs)
            && forall x :: key(x) != k ==> multiset(r)[x] == multiset(xs)[x]
  {
    var p := KeyIsNot(key, k);
    var r := Filter(xs, p);
    forall i | 0 <= i < |r|
      ensures key(r[i]) != k
    {
      assert r[i] in r;
      assert p(r[i]);
    }
    FilterIsSublist(xs, p);
    forall x | key(x) != k
      ensures multiset(Filter(xs, p))[x] == multiset(xs)[x]
    {
      FilterMultiplicity(xs, p, x);
    }
  }

  /**
   * Three filters whose predicates pick out every element of `xs` exactly
   * once split `xs` into three parts that together hold each element once.
   */
  lemma {:induction false} FilterPartition<T>(xs: seq<T>, p: T -> bool, q: T -> bool, s: T -> bool)
    requires forall k :: 0 <= k < |xs| ==> p(xs[k]) || q(xs[k]) || s(xs[k])
    requires forall k :: 0 <= k < |xs| ==> !(p(xs[k]) && q(xs[k])) && !(p(xs[k]) && s(xs[k])) && !(q(xs[k]) && s(xs[k]))
    ensures multiset(Filter(xs, p)) + multiset(Filter(xs, q)) + multiset(Filter(xs, s)) == multiset(xs)
    ensures |Filter(xs, p)| + |Filter(xs, q)| + |Filter(xs, s)| == |xs|
  {
    if xs != [] {
      FilterPartition(xs[1..], p, q, s);
      assert xs == [xs[0]] + xs[1..];
    }
  }

  /** Two filters whose predicates pick out every element of `xs` exactly once split its length. */
  lemma {:induction false} FilterComplement<T>(xs: seq<T>, p: T -> bool, q: T -> bool)
    requires forall k :: 0 <= k < |xs| ==> p(xs[k]) != q(xs[k])
    ensures |Filter(xs, p)| + |Filter(xs, q)| == |xs|
  {
    if xs != [] {
      FilterComplement(xs[1..], p, q);
    }
  }

  // ---------------------------------------------------------------- keys

  /** The set of keys of the elements of `xs` (`new Set(xs.map(key))`). */
  function Keys<T, K(==)>(xs: seq<T>, key: T -> K): (ks: set<K>)
    ensures forall k :: 0 <= k < |xs| ==> key(xs[k]) in ks
    ensures forall y :: y in ks ==> exists k :: 0 <= k < |xs| && key(xs[k]) == y
  {
    if xs == [] then {} else {key(xs[0])} + Keys(xs[1..], key)
  }

  /** The keys of a concatenation are the keys of both parts. */
  lemma {:induction false} KeysAppend<T, K>(a: seq<T>, b: seq<T>, key: T -> K)
    ensures Keys(a + b, key) == Keys(a, key) + Keys(b, key)
  {
    if a == [] {
      assert a + b == b;
    } else {
      assert (a + b)[1..] == a[1..] + b;
      KeysAppend(a[1..], b, key);
    }
  }

  /** No two elements of `xs` share a key. */
  predicate DistinctKeys<T, K(==)>(xs: seq<T>, key: T -> K)
  {
    forall i, j :: 0 <= i < j < |xs| ==> key(xs[i]) != key(xs[j])
  }

  function KeyIn<T, K(==)>(key: T -> K, ks: set<K>): T -> bool
  {
    x => key(x) in ks
  }

  function KeyNotIn<T, K(==)>(key: T -> K, ks: set<K>): T -> bool
  {
    x => key(x) !in ks
  }

  /** Dropping the first element keeps the keys distinct, and its key is not among the others. */
  lemma DistinctKeysTail<T, K>(xs: seq<T>, key: T -> K)
    requires xs != [] && DistinctKeys(xs, key)
    ensures DistinctKeys(xs[1..], key)
    ensures key(xs[0]) !in Keys(xs[1..], key)
  {
    var rest := xs[1..];
    forall i, j | 0 <= i < j < |rest| ensures key(rest[i]) != key(rest[j]) {
      assert rest[i] == xs[i + 1] && rest[j] == xs[j + 1];
    }
    forall m | 0 <= m < |rest| ensures key(rest[m]) != key(xs[0]) {
      assert rest[m] == xs[m + 1];
    }
  }

  /** With distinct keys there are as many keys as elements. */
  lemma {:induction false} KeysOfDistinct<T, K>(xs: seq<T>, key: T -> K)
    requires DistinctKeys(xs, key)
    ensures |Keys(xs, key)| == |xs|
  {
    if xs != [] {
      var rest := xs[1..];
      DistinctKeysTail(xs, key);
      KeysOfDistinct(rest, key);
    }
  }

  /** A filter keeps the distinctness of keys. */
  lemma {:induction false} FilterKeepsDistinct<T, K>(xs: seq<T>, p: T -> bool, key: T -> K)
    requires DistinctKeys(xs, key)
    ensures DistinctKeys(Filter(xs, p), key)
  {
    if xs != [] {
      var rest := xs[1..];
      DistinctKeysTail(xs, key);
      FilterKeepsDistinct(rest, p, key);
      if p(xs[0]) {
        var f := Filter(rest, p);
        var r := [xs[0]] + f;
        forall i, j | 0 <= i < j < |r| ensures key(r[i]) != key(r[j]) {
          if i == 0 {
            assert r[j] == f[j - 1] && r[j] in rest;
            var m :| 0 <= m < |rest| && rest[m] == r[j];
            assert rest[m] == xs[m + 1];
          } else {
            assert r[i] == f[i - 1] && r[j] == f[j - 1];
          }
        }
      }
    }
  }

  /**
   * Filtering elements with distinct keys by membership of their key in `ks`
   * keeps as many elements as `ks` shares keys with `xs`.
   */
  lemma {:induction false} CountKeyIn<T, K>(xs: seq<T>, key: T -> K, ks: set<K>)
    requires DistinctKeys(xs, key)
    ensures |Filter(xs, KeyIn(key, ks))| == |ks * Keys(xs, key)|
  {
    if xs != [] {
      var rest := xs[1..];
      DistinctKeysTail(xs, key);
      CountKeyIn(rest, key, ks);
      IntersectInsert(ks, Keys(rest, key), key(xs[0]));
    }
  }

  /** Intersecting with a set grown by one fresh element grows the intersection by that element when it is shared. */
  lemma IntersectInsert<K>(ks: set<K>, others: set<K>, k0: K)
    requires k0 !in others
    ensures |ks * ({k0} + others)| == |ks * others| + (if k0 in ks then 1 else 0)
  {
    if k0 in ks {
      assert ks * ({k0} + others) == {k0} + ks * others;
    } else {
      assert ks * ({k0} + others) == ks * others;
    }
  }

  /** The index of the first element satisfying `p`, or -1 (Array.prototype.findIndex). */
  function FindIndex<T>(xs: seq<T>, p: T -> bool): (i: int)
    ensures -1 <= i < |xs|
    ensures 0 <= i ==> p(xs[i])
    ensures forall j :: 0 <= j < |xs| && (i < 0 || j < i) ==> !p(xs[j])
  {
    if xs == [] then -1
    else if p(xs[0]) then 0
    else
      var i := FindIndex(xs[1..], p);
      if i < 0 then -1 else i + 1
  }

  /** The first element satisfying `p`, if any (Array.prototype.find). */
  function Find<T>(xs: seq<T>, p: T -> bool): (r: Option<T>)
    ensures r.None? <==> forall k :: 0 <= k < |xs| ==> !p(xs[k])
    ensures r.Some? ==> r.value in xs && p(r.value)
    ensures r.Some? ==> exists i :: 0 <= i < |xs| && xs[i] == r.value && forall j :: 0 <= j < i ==> !p(xs[j])
  {
    var i := FindIndex(xs, p);
    if i < 0 then None else Some(xs[i])
  }

  /** Whether some element satisfies `p` (Array.prototype.some). */
  predicate Any<T>(xs: seq<T>, p: T -> bool)
  {
    exists k :: 0 <= k < |xs| && p(xs[k])
  }
}

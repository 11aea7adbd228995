/** Sequence combinators that stand for the array methods the handlers use
    (`filter`, `reduce` into a sum, `length` of a filter, nested iteration)
    and for the store's `distinct`. All are defined from the end of the
    sequence, matching loops that push onto a result. */
module Seqs {

  /** `s.filter(p)`, keeping order. */
  function Filter<T(==)>(s: seq<T>, p: T -> bool): (r: seq<T>)
    ensures |r| <= |s|
    ensures forall i :: 0 <= i < |r| ==> r[i] in s && p(r[i])
    ensures forall i :: 0 <= i < |s| && p(s[i]) ==> s[i] in r
  {
    if s == [] then []
    else Filter(s[..|s| - 1], p) + (if p(s[|s| - 1]) then [s[|s| - 1]] else [])
  }

  lemma {:induction false} FilterAppend<T>(a: seq<T>, b: seq<T>, p: T -> bool)
    ensures Filter(a + b, p) == Filter(a, p) + Filter(b, p)
    decreases |b|
  {
    if b == [] {
      assert a + b == a;
    } else {
      assert (a + b)[..|a + b| - 1] == a + b[..|b| - 1];
      FilterAppend(a, b[..|b| - 1], p);
    }
  }

  lemma FilterSingle<T>(x: T, p: T -> bool)
    ensures Filter([x], p) == if p(x) then [x] else []
  {
    assert [x][..0] == [];
  }

  /** When `p` holds exactly where one of two exclusive predicates holds, the
      count of `p` is the sum of their counts. */
  lemma {:induction false} CountSplit<T>(s: seq<T>, p: T -> bool, a: T -> bool, b: T -> bool)
    requires forall x :: p(x) <==> a(x) || b(x)
    requires forall x :: !(a(x) && b(x))
    ensures |Filter(s, p)| == |Filter(s, a)| + |Filter(s, b)|
    decreases |s|
  {
    if s != [] {
      CountSplit(s[..|s| - 1], p, a, b);
    }
  }

  /** Filtering by a predicate that implies another counts no more. */
  lemma {:induction false} CountMonotone<T>(s: seq<T>, p: T -> bool, q: T -> bool)
    requires forall x :: p(x) ==> q(x)
    ensures |Filter(s, p)| <= |Filter(s, q)|
    decreases |s|
  {
    if s != [] {
      CountMonotone(s[..|s| - 1], p, q);
    }
  }

  /** Filtering by a predicate every element meets keeps the whole sequence. */
  lemma {:induction false} FilterAll<T>(s: seq<T>, p: T -> bool)
    requires forall i :: 0 <= i < |s| ==> p(s[i])
    ensures Filter(s, p) == s
    decreases |s|
  {
    if s != [] {
      FilterAll(s[..|s| - 1], p);
    }
  }

  /** Two predicates that never hold together select, between them, no more
      elements than there are. */
  lemma {:induction false} CountDisjoint<T>(s: seq<T>, p: T -> bool, q: T -> bool)
    requires forall x :: !(p(x) && q(x))
    ensures |Filter(s, p)| + |Filter(s, q)| <= |s|
    decreases |s|
  {
    if s != [] {
      CountDisjoint(s[..|s| - 1], p, q);
    }
  }

  /** Two predicates that agree on every element select the same elements. */
  lemma {:induction false} FilterCongruent<T>(s: seq<T>, p: T -> bool, q: T -> bool)
    requires forall i :: 0 <= i < |s| ==> p(s[i]) == q(s[i])
    ensures Filter(s, p) == Filter(s, q)
    decreases |s|
  {
    if s != [] {
      FilterCongruent(s[..|s| - 1], p, q);
    }
  }

  /** `s.reduce((sum, x) => sum + f(x), 0)`. */
  function SumOf<T>(s: seq<T>, f: T -> int): int {
    if s == [] then 0 else SumOf(s[..|s| - 1], f) + f(s[|s| - 1])
  }

  lemma SumOfSingle<T>(x: T, f: T -> int)
    ensures SumOf([x], f) == f(x)
  {
    assert [x][..0] == [];
  }

  lemma {:induction false} SumOfAppend<T>(a: seq<T>, b: seq<T>, f: T -> int)
    ensures SumOf(a + b, f) == SumOf(a, f) + SumOf(b, f)
    decreases |b|
  {
    if b == [] {
      assert a + b == a;
    } else {
      assert (a + b)[..|a + b| - 1] == a + b[..|b| - 1];
      SumOfAppend(a, b[..|b| - 1], f);
    }
  }

  /** A sum of non-negative terms is non-negative. */
  lemma {:induction false} SumOfNonNegative<T>(s: seq<T>, f: T -> int)
    requires forall i :: 0 <= i < |s| ==> f(s[i]) >= 0
    ensures SumOf(s, f) >= 0
    decreases |s|
  {
    if s != [] {
      SumOfNonNegative(s[..|s| - 1], f);
    }
  }

  /** Summing `f` over a filter is summing `f` where `p` holds and 0 elsewhere. */
  lemma {:induction false} SumOfFilter<T>(s: seq<T>, p: T -> bool, f: T -> int)
    ensures SumOf(Filter(s, p), f) == SumOf(s, x => if p(x) then f(x) else 0)
    decreases |s|
  {
    if s != [] {
      var s' := s[..|s| - 1];
      var last := s[|s| - 1];
      SumOfFilter(s', p, f);
      SumOfAppend(Filter(s', p), if p(last) then [last] else [], f);
      assert SumOf([last], f) == f(last) by {
        assert [last][..0] == [];
      }
    }
  }

  /** The concatenation of a sequence of sequences. */
  function Flatten<T>(ss: seq<seq<T>>): (r: seq<T>)
  {
    if ss == [] then [] else Flatten(ss[..|ss| - 1]) + ss[|ss| - 1]
  }

  /** `s.flatMap(f)`: the pieces `f` makes of the elements, in order. */
  function FlatMap<T, U>(s: seq<T>, f: T -> seq<U>): seq<U> {
    if s == [] then [] else FlatMap(s[..|s| - 1], f) + f(s[|s| - 1])
  }

  /** Every piece of every element is in the result, and nothing else is. */
  lemma {:induction false} FlatMapMembers<T, U>(s: seq<T>, f: T -> seq<U>)
    ensures forall i, y :: 0 <= i < |s| && y in f(s[i]) ==> y in FlatMap(s, f)
    ensures forall y :: y in FlatMap(s, f) ==> exists i :: 0 <= i < |s| && y in f(s[i])
    decreases |s|
  {
    if s != [] {
      var init := s[..|s| - 1];
      FlatMapMembers(init, f);
      forall i, y | 0 <= i < |s| && y in f(s[i]) ensures y in FlatMap(s, f) {
        if i < |init| {
          assert s[i] == init[i];
        }
      }
      forall y | y in FlatMap(s, f) ensures exists i :: 0 <= i < |s| && y in f(s[i]) {
        if y in FlatMap(init, f) {
          var i :| 0 <= i < |init| && y in f(init[i]);
          assert s[i] == init[i];
        } else {
          assert y in f(s[|s| - 1]);
        }
      }
    }
  }

  /** A nested reduce (sum over groups of the per-group sums) equals the sum
      over all elements of all groups. */
  lemma {:induction false} NestedSum<T>(ss: seq<seq<T>>, f: T -> int)
    ensures SumOf(ss, g => SumOf(g, f)) == SumOf(Flatten(ss), f)
    decreases |ss|
  {
    if ss != [] {
      NestedSum(ss[..|ss| - 1], f);
      SumOfAppend(Flatten(ss[..|ss| - 1]), ss[|ss| - 1], f);
    }
  }

  /** The keys already present in `s`. */
  function KeySet<T(==), K(==)>(s: seq<T>, key: T -> K): set<K> {
    set x | x in s :: key(x)
  }

  lemma KeySetAppend<T, K>(a: seq<T>, b: seq<T>, key: T -> K)
    ensures KeySet(a + b, key) == KeySet(a, key) + KeySet(b, key)
  {
    assert forall x :: x in a + b <==> x in a || x in b;
  }

  lemma KeySetSnoc<T, K>(s: seq<T>, x: T, key: T -> K)
    ensures KeySet(s + [x], key) == KeySet(s, key) + {key(x)}
  {
    KeySetAppend(s, [x], key);
    assert forall y :: y in [x] <==> y == x;
  }

  /** Order-preserving de-duplication by key: an element is kept when no
      earlier element has its key. */
  function DedupBy<T(==), K(==)>(s: seq<T>, key: T -> K): (r: seq<T>)
    ensures forall x :: x in r ==> x in s
    ensures KeySet(r, key) == KeySet(s, key)
    ensures forall i, j :: 0 <= i < j < |r| ==> key(r[i]) != key(r[j])
  {
    if s == [] then []
    else
      var s' := s[..|s| - 1];
      var last := s[|s| - 1];
      var p := DedupBy(s', key);
      assert s == s' + [last];
      KeySetAppend(s', [last], key);
      KeySetAppend(p, [last], key);
      if key(last) in KeySet(s', key) then p else p + [last]
  }

  /** Extending the input by at most one element appends it exactly when
      its key is new. */
  lemma DedupByExtend<T, K>(s: seq<T>, extra: seq<T>, key: T -> K)
    requires |extra| <= 1
    ensures DedupBy(s + extra, key) ==
              if extra != [] && key(extra[0]) !in KeySet(DedupBy(s, key), key) then DedupBy(s, key) + extra
              else DedupBy(s, key)
  {
    if extra == [] {
      assert s + extra == s;
    } else {
      assert (s + extra)[..|s|] == s;
      assert extra == [extra[0]];
    }
  }

  /** Once every key of `b` has been seen in `a`, going through `b` as well
      adds nothing. */
  lemma {:induction false} DedupBySeen<T, K>(a: seq<T>, b: seq<T>, key: T -> K)
    requires forall x :: x in b ==> key(x) in KeySet(a, key)
    ensures DedupBy(a + b, key) == DedupBy(a, key)
    decreases |b|
  {
    if b == [] {
      assert a + b == a;
    } else {
      var b' := b[..|b| - 1];
      assert (a + b)[..|a + b| - 1] == a + b';
      DedupBySeen(a, b', key);
      assert KeySet(a, key) <= KeySet(a + b', key);
    }
  }

  /** Going through the same input twice de-duplicates to the same result as once. */
  lemma DedupByTwice<T, K>(s: seq<T>, key: T -> K)
    ensures DedupBy(s + s, key) == DedupBy(s, key)
  {
    DedupBySeen(s, s, key);
  }

  /** The elements whose key is not `k`. */
  function OtherKey<T, K(==)>(key: T -> K, k: K): T -> bool {
    (x: T) => key(x) != k
  }

  /** De-duplication read from the front: the first element stays, every
      later element with its key goes, and the rest is de-duplicated alike. */
  function DedupFront<T(==), K(==)>(s: seq<T>, key: T -> K): seq<T>
    decreases |s|
  {
    if s == [] then [] else [s[0]] + DedupFront(Filter(s[1..], OtherKey(key, key(s[0]))), key)
  }

  /** Dropping the elements with key `k` drops exactly that key. */
  lemma KeySetFilterOut<T, K>(t: seq<T>, key: T -> K, k: K)
    ensures KeySet(Filter(t, OtherKey(key, k)), key) == KeySet(t, key) - {k}
  {
    var f := Filter(t, OtherKey(key, k));
    forall x | x in f ensures x in t && key(x) != k {
      var i :| 0 <= i < |f| && f[i] == x;
    }
    forall x | x in t && key(x) != k ensures x in f {
      var i :| 0 <= i < |t| && t[i] == x;
    }
  }

  /** One more element at the end is kept exactly when its key is new. */
  lemma DedupBySnoc<T, K>(s: seq<T>, x: T, key: T -> K)
    ensures DedupBy(s + [x], key) == DedupBy(s, key) + (if key(x) in KeySet(s, key) then [] else [x])
  {
    assert (s + [x])[..|s|] == s;
  }

  /** The keys of a sequence with one element in front. */
  lemma KeySetCons<T, K>(a: T, t: seq<T>, key: T -> K)
    ensures KeySet([a] + t, key) == {key(a)} + KeySet(t, key)
  {
    KeySetAppend([a], t, key);
    assert forall y :: y in [a] <==> y == a;
  }

  /** Filtering a sequence with one more element at the end. */
  lemma FilterSnoc<T>(t: seq<T>, x: T, p: T -> bool)
    ensures Filter(t + [x], p) == Filter(t, p) + (if p(x) then [x] else [])
  {
    assert (t + [x])[..|t|] == t;
  }

  lemma Associative<T>(a: seq<T>, b: seq<T>, c: seq<T>)
    ensures a + (b + c) == a + b + c
  {
  }

  /** One more element at the end of a sequence with a first element `a`
      is kept exactly when its key is neither `a`'s nor one after it. */
  lemma DedupBySnocFront<T, K>(a: T, t: seq<T>, x: T, key: T -> K)
    ensures DedupBy([a] + (t + [x]), key) ==
              DedupBy([a] + t, key) + (if key(x) == key(a) || key(x) in KeySet(t, key) then [] else [x])
  {
    assert [a] + (t + [x]) == ([a] + t) + [x];
    DedupBySnoc([a] + t, x, key);
    KeySetCons(a, t, key);
  }

  /** Once the elements with `a`'s key are dropped, one more element with
      another key is kept exactly when its key is new. */
  lemma DedupBySnocFiltered<T, K>(a: T, t: seq<T>, x: T, key: T -> K)
    requires key(x) != key(a)
    ensures DedupBy(Filter(t + [x], OtherKey(key, key(a))), key) ==
              DedupBy(Filter(t, OtherKey(key, key(a))), key) + (if key(x) in KeySet(t, key) then [] else [x])
  {
    var other := OtherKey(key, key(a));
    FilterSnoc(t, x, other);
    assert other(x);
    DedupBySnoc(Filter(t, other), x, key);
    KeySetFilterOut(t, key, key(a));
  }

  /** The front reading of `DedupBy` survives one more element at the end
      whose key is that of the first element: it is dropped on both sides. */
  lemma DedupByFirstSnocSame<T, K>(a: T, t: seq<T>, x: T, key: T -> K)
    requires key(x) == key(a)
    requires DedupBy([a] + t, key) == [a] + DedupBy(Filter(t, OtherKey(key, key(a))), key)
    ensures DedupBy([a] + (t + [x]), key) == [a] + DedupBy(Filter(t + [x], OtherKey(key, key(a))), key)
  {
    var other := OtherKey(key, key(a));
    DedupBySnocFront(a, t, x, key);
    assert DedupBy([a] + t, key) + [] == DedupBy([a] + t, key);
    FilterSnoc(t, x, other);
    assert !other(x);
    assert Filter(t, other) + [] == Filter(t, other);
  }

  /** The front reading of `DedupBy` survives one more element at the end
      with another key: it is kept on both sides exactly when its key is new. */
  lemma DedupByFirstSnocOther<T, K>(a: T, t: seq<T>, x: T, key: T -> K)
    requires key(x) != key(a)
    requires DedupBy([a] + t, key) == [a] + DedupBy(Filter(t, OtherKey(key, key(a))), key)
    ensures DedupBy([a] + (t + [x]), key) == [a] + DedupBy(Filter(t + [x], OtherKey(key, key(a))), key)
  {
    DedupBySnocFront(a, t, x, key);
    DedupBySnocFiltered(a, t, x, key);
    Associative([a], DedupBy(Filter(t, OtherKey(key, key(a))), key), if key(x) in KeySet(t, key) then [] else [x]);
  }

  /** A single element is its own de-duplication. */
  lemma DedupByOne<T, K>(a: T, key: T -> K)
    ensures DedupBy([a], key) == [a]
  {
    assert [a] == [] + [a];
    DedupBySnoc([], a, key);
  }

  /** `DedupBy` keeps the first element and drops every later element with
      its key before de-duplicating the rest. */
  lemma {:induction false} DedupByFirst<T, K>(s: seq<T>, key: T -> K)
    requires s != []
    ensures DedupBy(s, key) == [s[0]] + DedupBy(Filter(s[1..], OtherKey(key, key(s[0]))), key)
    decreases |s|
  {
    if |s| == 1 {
      DedupByOne(s[0], key);
      assert s == [s[0]] && s[1..] == [];
    } else {
      DedupByFirst(s[..|s| - 1], key);
      DedupByFirstStep(s, key);
    }
  }

  /** A sequence of two or more elements as its first element, its middle
      and its last element. */
  lemma FrontAndBack<T>(s: seq<T>)
    requires |s| >= 2
    ensures var s', t := s[..|s| - 1], s[1..|s| - 1];
            && s'[0] == s[0] && s'[1..] == t && s' == [s[0]] + t
            && s[1..] == t + [s[|s| - 1]] && s == [s[0]] + (t + [s[|s| - 1]])
  {
  }

  /** The step of `DedupByFirst`: from the input without its last element
      to the whole input. */
  lemma DedupByFirstStep<T, K>(s: seq<T>, key: T -> K)
    requires |s| >= 2
    requires var s' := s[..|s| - 1];
             DedupBy(s', key) == [s'[0]] + DedupBy(Filter(s'[1..], OtherKey(key, key(s'[0]))), key)
    ensures DedupBy(s, key) == [s[0]] + DedupBy(Filter(s[1..], OtherKey(key, key(s[0]))), key)
  {
    var a, t, x := s[0], s[1..|s| - 1], s[|s| - 1];
    FrontAndBack(s);
    if key(x) == key(a) {
      DedupByFirstSnocSame(a, t, x, key);
    } else {
      DedupByFirstSnocOther(a, t, x, key);
    }
  }

  /** `DedupBy` keeps the first element of each key, in input order: it
      agrees with the front reading `DedupFront` on every input. */
  lemma {:induction false} DedupByFront<T, K>(s: seq<T>, key: T -> K)
    ensures DedupBy(s, key) == DedupFront(s, key)
    decreases |s|
  {
    if s != [] {
      DedupByFirst(s, key);
      DedupByFront(Filter(s[1..], OtherKey(key, key(s[0]))), key);
    }
  }

  /** Plain `distinct`: de-duplication by the value itself. */
  function Dedup<T(==)>(s: seq<T>): (r: seq<T>)
    ensures forall i :: 0 <= i < |r| ==> r[i] in s
    ensures forall i :: 0 <= i < |s| ==> s[i] in r
    ensures forall i, j :: 0 <= i < j < |r| ==> r[i] != r[j]
  {
    var id := (x: T) => x;
    var r := DedupBy(s, id);
    forall i | 0 <= i < |s| ensures s[i] in r {
      assert id(s[i]) in KeySet(s, id);
    }
    r
  }

  /** `s` without its `k`-th element (a delete by position), the rest in order. */
  function RemoveAt<T>(s: seq<T>, k: nat): (r: seq<T>)
    requires k < |s|
    ensures |r| == |s| - 1
    ensures forall j :: 0 <= j < k ==> r[j] == s[j]
    ensures forall j :: k <= j < |r| ==> r[j] == s[j + 1]
  {
    s[..k] + s[k + 1..]
  }

  /** `ok` holds between every element and each later one. */
  predicate Pairwise<T>(s: seq<T>, ok: (T, T) -> bool) {
    forall i, j :: 0 <= i < j < |s| ==> ok(s[i], s[j])
  }

  /** Filtering keeps the relative order, so a pairwise relation survives it. */
  lemma {:induction false} FilterPairwise<T>(s: seq<T>, p: T -> bool, ok: (T, T) -> bool)
    requires Pairwise(s, ok)
    ensures Pairwise(Filter(s, p), ok)
    decreases |s|
  {
    if s != [] {
      var init, last := s[..|s| - 1], s[|s| - 1];
      assert Pairwise(init, ok) by {
        forall i, j | 0 <= i < j < |init| ensures ok(init[i], init[j]) {
          assert init[i] == s[i] && init[j] == s[j];
        }
      }
      FilterPairwise(init, p, ok);
      var f := Filter(init, p);
      if p(last) {
        var r := f + [last];
        forall i, j | 0 <= i < j < |r| ensures ok(r[i], r[j]) {
          if j < |f| {
            assert r[i] == f[i] && r[j] == f[j];
          } else {
            assert r[i] == f[i] && f[i] in init;
            var i' :| 0 <= i' < |init| && init[i'] == f[i];
            assert s[i'] == r[i] && r[j] == s[|s| - 1];
          }
        }
      }
    }
  }
}

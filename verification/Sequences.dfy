/** Facts about sequences and multisets that several protocols share. */
module Sequences {

  datatype Option<+T> = None | Some(value: T)

  predicate Distinct<T(==)>(s: seq<T>) {
    forall i, j :: 0 <= i < j < |s| ==> s[i] != s[j]
  }

  ghost predicate Permutation<T>(a: seq<T>, b: seq<T>) {
    multiset(a) == multiset(b)
  }

  function Map<A, B>(f: A -> B, s: seq<A>): (r: seq<B>)
    ensures |r| == |s|
    ensures forall i :: 0 <= i < |s| ==> r[i] == f(s[i])
  {
    seq(|s|, i requires 0 <= i < |s| => f(s[i]))
  }

  lemma {:induction false} MultisetOfSnoc<T>(s: seq<T>, x: T)
    ensures multiset(s + [x]) == multiset(s) + multiset{x}
  {
  }

  lemma {:induction false} MultisetOfConcat<T>(a: seq<T>, b: seq<T>)
    ensures multiset(a + b) == multiset(a) + multiset(b)
  {
  }

  /** In a sequence without repetitions every element occurs exactly once. */
  lemma {:induction false} DistinctMultiplicity<T>(s: seq<T>, x: T)
    requires Distinct(s)
    ensures multiset(s)[x] == if x in s then 1 else 0
  {
    if s != [] {
      var n := |s| - 1;
      assert s == s[..n] + [s[n]];
      MultisetOfSnoc(s[..n], s[n]);
      DistinctMultiplicity(s[..n], x);
      assert s[n] !in s[..n];
    }
  }

  /** Two sequences without repetitions and with the same elements are permutations. */
  lemma {:induction false} DistinctSameElements<T>(a: seq<T>, b: seq<T>)
    requires Distinct(a) && Distinct(b)
    requires forall x :: x in a <==> x in b
    ensures Permutation(a, b)
  {
    forall x ensures multiset(a)[x] == multiset(b)[x] {
      DistinctMultiplicity(a, x);
      DistinctMultiplicity(b, x);
    }
  }

  function Remove<T>(s: seq<T>, k: nat): (r: seq<T>)
    requires k < |s|
    ensures multiset(r) + multiset{s[k]} == multiset(s)
  {
    assert s == s[..k] + ([s[k]] + s[k + 1..]);
    MultisetOfConcat(s[..k], [s[k]] + s[k + 1..]);
    MultisetOfConcat([s[k]], s[k + 1..]);
    MultisetOfConcat(s[..k], s[k + 1..]);
    s[..k] + s[k + 1..]
  }

  lemma {:induction false} MapOfConcat<A, B>(f: A -> B, a: seq<A>, b: seq<A>)
    ensures Map(f, a + b) == Map(f, a) + Map(f, b)
  {
  }

  lemma {:induction false} MapMultisetSnoc<A, B>(f: A -> B, s: seq<A>, x: A)
    ensures multiset(Map(f, s + [x])) == multiset(Map(f, s)) + multiset{f(x)}
  {
    MapOfConcat(f, s, [x]);
    assert Map(f, [x]) == [f(x)];
  }

  lemma {:induction false} MapMultisetRemove<A, B>(f: A -> B, s: seq<A>, k: nat)
    requires k < |s|
    ensures multiset(Map(f, s)) == multiset(Map(f, Remove(s, k))) + multiset{f(s[k])}
  {
    assert Map(f, Remove(s, k)) == Remove(Map(f, s), k);
  }

  /** Mapping a function over a permutation gives a permutation. */
  lemma {:induction false} MapPermutation<A, B>(f: A -> B, a: seq<A>, b: seq<A>)
    requires Permutation(a, b)
    ensures Permutation(Map(f, a), Map(f, b))
    decreases |a|
  {
    if a == [] {
      assert |multiset(b)| == 0;
    } else {
      var n := |a| - 1;
      assert a == a[..n] + [a[n]];
      assert a[n] in multiset(b);
      var k :| 0 <= k < |b| && b[k] == a[n];
      MultisetCancel(multiset(Remove(b, k)), multiset(a[..n]), a[n]);
      MapPermutation(f, a[..n], Remove(b, k));
      MapMultisetSnoc(f, a[..n], a[n]);
      MapMultisetRemove(f, b, k);
    }
  }

  lemma {:induction false} MultisetCancel<T>(a: multiset<T>, b: multiset<T>, x: T)
    requires a + multiset{x} == b + multiset{x}
    ensures a == b
  {
    assert a == (a + multiset{x}) - multiset{x};
    assert b == (b + multiset{x}) - multiset{x};
  }

  /** f(0) + ... + f(count - 1). */
  function SumBags<T>(f: nat -> multiset<T>, count: nat): multiset<T> {
    if count == 0 then multiset{} else SumBags(f, count - 1) + f(count - 1)
  }

  lemma {:induction false} SumBagsSame<T>(f: nat -> multiset<T>, g: nat -> multiset<T>, count: nat)
    requires forall i: nat :: i < count ==> f(i) == g(i)
    ensures SumBags(f, count) == SumBags(g, count)
  {
    if count > 0 {
      SumBagsSame(f, g, count - 1);
    }
  }

  /** Adding a bag to one summand adds it to the sum. */
  lemma {:induction false} SumBagsAdd<T>(
      f: nat -> multiset<T>, g: nat -> multiset<T>, count: nat, k: nat, bag: multiset<T>)
    requires forall i: nat :: i < count ==> g(i) == if i == k then f(i) + bag else f(i)
    ensures SumBags(g, count) == if k < count then SumBags(f, count) + bag else SumBags(f, count)
  {
    if count > 0 {
      SumBagsAdd(f, g, count - 1, k, bag);
      if k == count - 1 {
        assert SumBags(f, count - 1) + (f(k) + bag) == SumBags(f, count - 1) + f(k) + bag;
      }
    }
  }

  lemma {:induction false} SumBagsEmpty<T>(f: nat -> multiset<T>, count: nat)
    requires forall i: nat :: i < count ==> f(i) == multiset{}
    ensures SumBags(f, count) == multiset{}
  {
    if count > 0 {
      SumBagsEmpty(f, count - 1);
    }
  }

  /** A multiplicity that only one summand contributes. */
  lemma {:induction false} SumBagsMultiplicity<T>(f: nat -> multiset<T>, count: nat, k: nat, x: T)
    requires forall i: nat :: i < count && i != k ==> f(i)[x] == 0
    ensures SumBags(f, count)[x] == if k < count then f(k)[x] else 0
  {
    if count > 0 {
      SumBagsMultiplicity(f, count - 1, k, x);
    }
  }

  /** f(0) + ... + f(count - 1), for sequences. */
  function ConcatAll<T>(f: nat -> seq<T>, count: nat): seq<T> {
    if count == 0 then [] else ConcatAll(f, count - 1) + f(count - 1)
  }

  lemma {:induction false} ConcatAllMember<T>(f: nat -> seq<T>, count: nat, x: T)
    ensures x in ConcatAll(f, count) <==> exists i: nat :: i < count && x in f(i)
  {
    if count > 0 {
      ConcatAllMember(f, count - 1, x);
    }
  }

  lemma {:induction false} ConcatDistinct<T>(a: seq<T>, b: seq<T>)
    requires Distinct(a) && Distinct(b) && forall x :: x in a ==> x !in b
    ensures Distinct(a + b)
  {
    var c := a + b;
    forall i, k | 0 <= i < k < |c| ensures c[i] != c[k] {
      if i < |a| <= k {
        assert c[i] in a && c[k] in b;
      }
    }
  }

  lemma {:induction false} ConcatAllDistinct<T>(f: nat -> seq<T>, count: nat)
    requires forall i: nat :: i < count ==> Distinct(f(i))
    requires forall i: nat, k: nat, x :: i < k < count && x in f(i) ==> x !in f(k)
    ensures Distinct(ConcatAll(f, count))
  {
    if count > 0 {
      ConcatAllDistinct(f, count - 1);
      var before, last := ConcatAll(f, count - 1), f(count - 1);
      forall x | x in before ensures x !in last {
        ConcatAllMember(f, count - 1, x);
      }
      ConcatDistinct(before, last);
    }
  }

  lemma {:induction false} ConcatAllBags<A, B>(g: A -> B, f: nat -> seq<A>, bags: nat -> multiset<B>, count: nat)
    requires forall i: nat :: i < count ==> bags(i) == multiset(Map(g, f(i)))
    ensures multiset(Map(g, ConcatAll(f, count))) == SumBags(bags, count)
  {
    if count > 0 {
      ConcatAllBags(g, f, bags, count - 1);
      MapOfConcat(g, ConcatAll(f, count - 1), f(count - 1));
      MultisetOfConcat(Map(g, ConcatAll(f, count - 1)), Map(g, f(count - 1)));
    }
  }

  /** The state after a sequence of steps. */
  function Fold<S, T>(next: (S, T) -> S, start: S, steps: seq<T>): S {
    if steps == [] then start else next(Fold(next, start, steps[..|steps| - 1]), steps[|steps| - 1])
  }

  lemma {:induction false} FoldSnoc<S, T>(next: (S, T) -> S, start: S, steps: seq<T>, step: T)
    ensures Fold(next, start, steps + [step]) == next(Fold(next, start, steps), step)
  {
  }

  lemma {:induction false} FoldSplit<S, T>(next: (S, T) -> S, start: S, a: seq<T>, b: seq<T>)
    ensures Fold(next, start, a + b) == Fold(next, Fold(next, start, a), b)
  {
    if b == [] {
      assert a + b == a;
    } else {
      var n := |b| - 1;
      assert (a + b)[..|a| + n] == a + b[..n];
      FoldSplit(next, start, a, b[..n]);
    }
  }

  /** A run that follows a given path ends where the path ends. */
  lemma {:induction false} FoldFollows<S, T>(next: (S, T) -> S, path: nat -> S, steps: seq<T>)
    requires forall k: nat :: k < |steps| ==> next(path(k), steps[k]) == path(k + 1)
    ensures Fold(next, path(0), steps) == path(|steps|)
  {
    if steps != [] {
      FoldFollows(next, path, steps[..|steps| - 1]);
    }
  }

  /** Some element of a set: the unspecified order in which a map is walked. */
  method Pick<T>(s: set<T>) returns (x: T)
    requires s != {}
    ensures x in s
  {
    x :| x in s;
  }
}

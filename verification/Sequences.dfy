/** Orderings and filters of sequences, shared by the components that sort or query. */
module Sequences {

  /** What `ORDER BY` or a stable sort leaves behind: nothing stands after something larger. */
  ghost predicate Ordered<T>(less: (T, T) -> bool, s: seq<T>) {
    forall i, j :: 0 <= i < j < |s| ==> !less(s[j], s[i])
  }

  ghost predicate StrictlyOrdered<T>(less: (T, T) -> bool, s: seq<T>) {
    forall i, j :: 0 <= i < j < |s| ==> less(s[i], s[j])
  }

  lemma Regroup<T>(a: seq<T>, b: seq<T>, c: seq<T>)
    ensures (a + b) + c == a + (b + c)
  {
  }

  /** An element in the middle of the second sequence, as seen from the start of the first. */
  lemma AroundElement<T>(a: seq<T>, b: seq<T>, k: nat)
    requires k < |b|
    ensures (a + b[..k]) + [b[k]] + b[k + 1..] == a + b
  {
    assert b == b[..k] + [b[k]] + b[k + 1..];
  }

  lemma TailMultiset<T>(s: seq<T>)
    requires s != []
    ensures multiset(s[1..]) == multiset(s) - multiset{s[0]}
  {
    assert s == [s[0]] + s[1..];
  }

  lemma SameLeast<T>(less: (T, T) -> bool, a: seq<T>, b: seq<T>)
    requires multiset(a) == multiset(b) && a != [] && b != []
    requires Ordered(less, a) && StrictlyOrdered(less, b)
    ensures a[0] == b[0]
  {
    assert a[0] in multiset(b) && b[0] in multiset(a);
    var i :| 0 <= i < |b| && b[i] == a[0];
    var j :| 0 <= j < |a| && a[j] == b[0];
    assert i == 0 || j == 0 by { assert i > 0 ==> less(b[0], b[i]); }
  }

  /** Only one arrangement of the same elements is ordered when one of them is strictly ordered. */
  lemma {:induction false} OrderIsUnique<T>(less: (T, T) -> bool, a: seq<T>, b: seq<T>)
    requires multiset(a) == multiset(b) && Ordered(less, a) && StrictlyOrdered(less, b)
    ensures a == b
  {
    assert |a| == |multiset(a)| == |multiset(b)| == |b|;
    if a != [] {
      SameLeast(less, a, b);
      TailMultiset(a);
      TailMultiset(b);
      OrderIsUnique(less, a[1..], b[1..]);
    }
  }

  function Filter<T>(keep: T -> bool, s: seq<T>): seq<T> {
    if s == [] then []
    else Filter(keep, s[..|s| - 1]) + if keep(s[|s| - 1]) then [s[|s| - 1]] else []
  }

  lemma {:induction false} FilterMembers<T>(keep: T -> bool, s: seq<T>)
    ensures forall i :: 0 <= i < |Filter(keep, s)| ==> Filter(keep, s)[i] in s && keep(Filter(keep, s)[i])
    ensures forall i :: 0 <= i < |s| && keep(s[i]) ==> s[i] in Filter(keep, s)
  {
    if s != [] {
      FilterMembers(keep, s[..|s| - 1]);
      assert s == s[..|s| - 1] + [s[|s| - 1]];
    }
  }

  lemma FilterIn<T>(keep: T -> bool, s: seq<T>, x: T)
    ensures x in Filter(keep, s) <==> x in s && keep(x)
  {
    FilterMembers(keep, s);
    if x in Filter(keep, s) {
      var i :| 0 <= i < |Filter(keep, s)| && Filter(keep, s)[i] == x;
    }
    if x in s && keep(x) {
      var i :| 0 <= i < |s| && s[i] == x;
      assert s[i] in Filter(keep, s);
    }
  }

  lemma {:induction false} FilterCounts<T>(keep: T -> bool, s: seq<T>, x: T)
    ensures multiset(Filter(keep, s))[x] == if keep(x) then multiset(s)[x] else 0
  {
    if s != [] {
      FilterCounts(keep, s[..|s| - 1], x);
      assert s == s[..|s| - 1] + [s[|s| - 1]];
    }
  }

  /** Filtering keeps whatever pairwise relation a sequence had from left to right. */
  lemma {:induction false} FilterOrdered<T>(less: (T, T) -> bool, keep: T -> bool, s: seq<T>)
    requires StrictlyOrdered(less, s)
    ensures StrictlyOrdered(less, Filter(keep, s))
  {
    if s != [] {
      var init, last := s[..|s| - 1], s[|s| - 1];
      FilterOrdered(less, keep, init);
      FilterMembers(keep, init);
      var kept := Filter(keep, init);
      forall i | 0 <= i < |kept| ensures less(kept[i], last) {
        var m :| 0 <= m < |init| && init[m] == kept[i];
        assert less(s[m], s[|s| - 1]);
      }
    }
  }

  ghost predicate Distinct<T>(s: seq<T>) {
    forall i, j :: 0 <= i < j < |s| ==> s[i] != s[j]
  }

  function Map<A, B>(f: A -> B, s: seq<A>): seq<B> {
    seq(|s|, i requires 0 <= i < |s| => f(s[i]))
  }

  lemma MapAppend<A, B>(f: A -> B, a: seq<A>, b: seq<A>)
    ensures Map(f, a + b) == Map(f, a) + Map(f, b)
  {
  }

  lemma CountsLast<T>(s: seq<T>, x: T)
    requires s != []
    ensures multiset(s)[x] == multiset(s[..|s| - 1])[x] + if s[|s| - 1] == x then 1 else 0
  {
    assert s == s[..|s| - 1] + [s[|s| - 1]];
  }

  lemma WithoutOne<T>(s: seq<T>, k: nat)
    requires k < |s|
    ensures multiset(s[..k] + s[k + 1..]) == multiset(s) - multiset{s[k]}
    ensures multiset(s) == multiset(s[..k] + s[k + 1..]) + multiset{s[k]}
  {
    assert s == s[..k] + [s[k]] + s[k + 1..];
  }

  lemma MapWithoutOne<A, B>(f: A -> B, s: seq<A>, k: nat)
    requires k < |s|
    ensures multiset(Map(f, s)) == multiset(Map(f, s[..k] + s[k + 1..])) + multiset{f(s[k])}
  {
    var image := Map(f, s);
    assert Map(f, s[..k] + s[k + 1..]) == image[..k] + image[k + 1..];
    WithoutOne(image, k);
  }

  /** The element `x` stands at index `k`, and removing it there leaves `rest`. */
  ghost predicate Splits<T>(s: seq<T>, x: T, k: nat, rest: seq<T>) {
    k < |s| && s[k] == x && rest == s[..k] + s[k + 1..]
  }

  lemma RestsArePermutations<T>(a: seq<T>, b: seq<T>, x: T) returns (k: nat, rest: seq<T>)
    requires a != [] && multiset(a) == multiset(b) && x == a[0]
    ensures Splits(b, x, k, rest) && multiset(a[1..]) == multiset(rest)
  {
    assert x in multiset(b);
    k :| 0 <= k < |b| && b[k] == x;
    rest := b[..k] + b[k + 1..];
    TailMultiset(a);
    WithoutOne(b, k);
  }

  /** Rearranging a sequence rearranges its image. */
  lemma {:induction false} MapOfPermutation<A, B>(f: A -> B, a: seq<A>, b: seq<A>)
    requires multiset(a) == multiset(b)
    ensures multiset(Map(f, a)) == multiset(Map(f, b))
    decreases |a|
  {
    if a == [] {
      assert |multiset(b)| == |b|;
      assert Map(f, a) == Map(f, b);
    } else {
      var k, rest := RestsArePermutations(a, b, a[0]);
      MapOfPermutation(f, a[1..], rest);
      assert Map(f, a) == [f(a[0])] + Map(f, a[1..]);
      MapWithoutOne(f, b, k);
    }
  }
}

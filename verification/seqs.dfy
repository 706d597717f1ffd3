/** Sequence operations behind the source's `filter`, `reduce` and index-based
    updates, with the facts the other modules use about them. */
module Seqs {

  /** `s.filter(p)`: the elements satisfying `p`, in their original order. */
  function Filter<T(!new)>(s: seq<T>, p: T -> bool): (r: seq<T>)
    ensures |r| <= |s|
    ensures forall x :: x in r <==> x in s && p(x)
  {
    if s == [] then []
    else
      assert s == [s[0]] + s[1..];
      (if p(s[0]) then [s[0]] else []) + Filter(s[1..], p)
  }

  /** Filtering keeps every kept element with its multiplicity and drops the rest. */
  lemma {:induction false} FilterMultiset<T(!new)>(s: seq<T>, p: T -> bool, x: T)
    ensures multiset(Filter(s, p))[x] == if p(x) then multiset(s)[x] else 0
  {
    if s != [] {
      FilterMultiset(s[1..], p, x);
      assert s == [s[0]] + s[1..];
      assert multiset(s) == multiset{s[0]} + multiset(s[1..]);
    }
  }

  /** `a` can be obtained from `b` by deleting elements: order is preserved. */
  ghost predicate IsSubseq<T>(a: seq<T>, b: seq<T>)
    decreases |b|
  {
    if a == [] then true
    else if b == [] then false
    else (a[0] == b[0] && IsSubseq(a[1..], b[1..])) || IsSubseq(a, b[1..])
  }

  lemma {:induction false} SubseqRefl<T>(s: seq<T>)
    ensures IsSubseq(s, s)
  {
    if s != [] {
      SubseqRefl(s[1..]);
    }
  }

  lemma {:induction false} FilterIsSubseq<T(!new)>(s: seq<T>, p: T -> bool)
    ensures IsSubseq(Filter(s, p), s)
  {
    if s != [] {
      FilterIsSubseq(s[1..], p);
      var r := Filter(s, p);
      if p(s[0]) {
        assert r[0] == s[0] && r[1..] == Filter(s[1..], p);
      } else {
        assert r == Filter(s[1..], p);
        SubseqOfTail(r, s);
      }
    }
  }

  /** Being a subsequence of the tail implies being a subsequence of the whole. */
  lemma {:induction false} SubseqOfTail<T>(a: seq<T>, b: seq<T>)
    requires b != [] && IsSubseq(a, b[1..])
    ensures IsSubseq(a, b)
  {
  }

  lemma {:induction false} FilterAppend<T(!new)>(a: seq<T>, b: seq<T>, p: T -> bool)
    ensures Filter(a + b, p) == Filter(a, p) + Filter(b, p)
  {
    if a != [] {
      var ab := a + b;
      assert ab[0] == a[0] && ab[1..] == a[1..] + b;
      FilterAppend(a[1..], b, p);
      assert Filter(ab, p) == (if p(a[0]) then [a[0]] else []) + Filter(ab[1..], p);
      assert Filter(a, p) == (if p(a[0]) then [a[0]] else []) + Filter(a[1..], p);
    } else {
      assert a + b == b;
    }
  }

  /** Filtering a sequence is filtering all but its last element, then that element. */
  lemma FilterSnoc<T(!new)>(s: seq<T>, p: T -> bool)
    requires s != []
    ensures Filter(s, p) == Filter(s[..|s| - 1], p) + (if p(s[|s| - 1]) then [s[|s| - 1]] else [])
  {
    var pre, last := s[..|s| - 1], s[|s| - 1];
    assert s == pre + [last];
    FilterAppend(pre, [last], p);
    FilterSingleton(last, p);
  }

  lemma FilterSingleton<T(!new)>(x: T, p: T -> bool)
    ensures Filter([x], p) == if p(x) then [x] else []
  {
    assert [x][1..] == [];
  }

  /** Filtering with a predicate every element satisfies changes nothing. */
  lemma {:induction false} FilterAll<T(!new)>(s: seq<T>, p: T -> bool)
    requires forall x :: x in s ==> p(x)
    ensures Filter(s, p) == s
  {
    if s != [] {
      FilterAll(s[1..], p);
    }
  }

  /** Filtering with a predicate no element satisfies leaves nothing. */
  lemma {:induction false} FilterNone<T(!new)>(s: seq<T>, p: T -> bool)
    requires forall x :: x in s ==> !p(x)
    ensures Filter(s, p) == []
  {
    if s != [] {
      FilterNone(s[1..], p);
    }
  }

  /** A filter applied twice equals the filter applied once. */
  lemma FilterIdempotent<T(!new)>(s: seq<T>, p: T -> bool)
    ensures Filter(Filter(s, p), p) == Filter(s, p)
  {
    FilterAll(Filter(s, p), p);
  }

  /** Every element a filter keeps satisfies its predicate. */
  lemma FilterSatisfies<T(!new)>(s: seq<T>, p: T -> bool)
    ensures forall k :: 0 <= k < |Filter(s, p)| ==> p(Filter(s, p)[k])
  {
    var r := Filter(s, p);
    forall k | 0 <= k < |r| ensures p(r[k]) {
      assert r[k] in r;
    }
  }

  /** Elements failing `q` followed by elements satisfying it: once `q`
      holds, it holds to the end. */
  lemma ConcatPartitioned<T>(a: seq<T>, b: seq<T>, q: T -> bool)
    requires forall k :: 0 <= k < |a| ==> !q(a[k])
    requires forall k :: 0 <= k < |b| ==> q(b[k])
    ensures forall i, j :: 0 <= i < j < |a + b| && q((a + b)[i]) ==> q((a + b)[j])
  {
    forall i, j | 0 <= i < j < |a + b| && q((a + b)[i]) ensures q((a + b)[j]) {
      assert i >= |a|;
      assert (a + b)[j] == b[j - |a|];
    }
  }

  /** Two filters applied one after the other commute. */
  lemma {:induction false} FilterCommute<T(!new)>(s: seq<T>, p: T -> bool, q: T -> bool)
    ensures Filter(Filter(s, p), q) == Filter(Filter(s, q), p)
  {
    if s != [] {
      FilterCommute(s[1..], p, q);
      var head := [s[0]];
      assert s == head + s[1..];
      FilterAppend(head, s[1..], p);
      FilterAppend(head, s[1..], q);
      FilterAppend(Filter(head, p), Filter(s[1..], p), q);
      FilterAppend(Filter(head, q), Filter(s[1..], q), p);
    }
  }

  /** Filtering by `p` and then by a predicate `p` excludes leaves nothing. */
  lemma FilterDisjoint<T(!new)>(s: seq<T>, p: T -> bool, q: T -> bool)
    requires forall x :: p(x) ==> !q(x)
    ensures Filter(Filter(s, p), q) == []
  {
    FilterNone(Filter(s, p), q);
  }

  /** `s.filter((_, j) => j !== i)`, written as the source writes it: by index. */
  function DropIndex<T>(s: seq<T>, i: int, from: nat): (r: seq<T>)
    decreases |s|
  {
    if s == [] then []
    else (if from == i then [] else [s[0]]) + DropIndex(s[1..], i, from + 1)
  }

  /** Removing the element at index `i`; any other index leaves `s` unchanged. */
  function RemoveAt<T>(s: seq<T>, i: int): (r: seq<T>)
    ensures 0 <= i < |s| ==> |r| == |s| - 1 && r[..i] == s[..i] && r[i..] == s[i + 1..]
    ensures !(0 <= i < |s|) ==> r == s
  {
    if 0 <= i < |s| then s[..i] + s[i + 1..] else s
  }

  /** RemoveAt agrees with the index filter the source writes. */
  lemma {:induction false} RemoveAtIsIndexFilter<T>(s: seq<T>, i: int)
    ensures DropIndex(s, i, 0) == RemoveAt(s, i)
  {
    DropIndexShift(s, i, 0);
  }

  lemma {:induction false} DropIndexShift<T>(s: seq<T>, i: int, from: nat)
    ensures DropIndex(s, i, from) == RemoveAt(s, i - from)
    decreases |s|
  {
    if s != [] {
      DropIndexShift(s[1..], i, from + 1);
      if from == i {
        assert RemoveAt(s, i - from) == s[1..];
        assert RemoveAt(s[1..], i - from - 1) == s[1..];
      } else if 0 <= i - from < |s| {
        assert s[..i - from] == [s[0]] + s[1..][..i - from - 1];
        assert s[i - from + 1..] == s[1..][i - from..];
      }
    }
  }

  /** `s.reduce((sum, x) => sum + f(x), 0)`. */
  function SumOf<T>(s: seq<T>, f: T -> int): int
  {
    if s == [] then 0 else SumOf(s[..|s| - 1], f) + f(s[|s| - 1])
  }

  lemma {:induction false} SumOfAppend<T>(a: seq<T>, b: seq<T>, f: T -> int)
    ensures SumOf(a + b, f) == SumOf(a, f) + SumOf(b, f)
    decreases |b|
  {
    if b == [] {
      assert a + b == a;
    } else {
      assert (a + b)[..|a + b| - 1] == a + b[..|b| - 1];
      SumOfAppend(a, b[..|b| - 1], f);
    }
  }

  /** Replacing one element changes the sum by the difference of the two terms. */
  lemma {:induction false} SumOfUpdate<T>(s: seq<T>, k: nat, x: T, f: T -> int)
    requires k < |s|
    ensures SumOf(s[k := x], f) == SumOf(s, f) - f(s[k]) + f(x)
  {
    assert s == s[..k] + [s[k]] + s[k + 1..];
    assert s[k := x] == s[..k] + [x] + s[k + 1..];
    SumOfAppend(s[..k] + [s[k]], s[k + 1..], f);
    SumOfAppend(s[..k], [s[k]], f);
    SumOfAppend(s[..k] + [x], s[k + 1..], f);
    SumOfAppend(s[..k], [x], f);
    assert SumOf([s[k]], f) == f(s[k]) by { assert [s[k]][..0] == []; }
    assert SumOf([x], f) == f(x) by { assert [x][..0] == []; }
  }

  /** `s.map(h)`. */
  function Map<T, U>(s: seq<T>, h: T -> U): (r: seq<U>)
    ensures |r| == |s|
    ensures forall i :: 0 <= i < |s| ==> r[i] == h(s[i])
  {
    if s == [] then [] else Map(s[..|s| - 1], h) + [h(s[|s| - 1])]
  }

  /** A map is the sequence its images agree with. */
  lemma MapAgrees<T, U>(s: seq<T>, h: T -> U, t: seq<U>)
    requires |s| == |t|
    requires forall i :: 0 <= i < |s| ==> h(s[i]) == t[i]
    ensures Map(s, h) == t
  {
  }

  lemma MapSnoc<T, U>(s: seq<T>, x: T, h: T -> U)
    ensures Map(s + [x], h) == Map(s, h) + [h(x)]
  {
    assert (s + [x])[..|s|] == s;
  }

  /** Mapping with two functions that agree on every element gives the same result. */
  lemma MapPointwise<T, U>(s: seq<T>, h: T -> U, g: T -> U)
    requires forall x :: x in s ==> h(x) == g(x)
    ensures Map(s, h) == Map(s, g)
  {
    var a, b := Map(s, h), Map(s, g);
    assert forall i :: 0 <= i < |s| ==> a[i] == h(s[i]) == g(s[i]) == b[i];
  }

  /** The elements of `s.map(h)` are the images of the elements of `s`. */
  lemma MapMembers<T, U>(s: seq<T>, h: T -> U)
    ensures forall y :: y in Map(s, h) <==> exists x :: x in s && y == h(x)
  {
    var r := Map(s, h);
    forall y | y in r ensures exists x :: x in s && y == h(x) {
      var i :| 0 <= i < |r| && r[i] == y;
      assert s[i] in s;
    }
    forall x | x in s ensures h(x) in r {
      var i :| 0 <= i < |s| && s[i] == x;
      assert r[i] == h(x);
    }
  }

  /** Summing over a mapped sequence is summing the composed function. */
  lemma {:induction false} SumOfMap<T, U>(s: seq<T>, h: T -> U, f: U -> int, g: T -> int)
    requires forall x :: x in s ==> g(x) == f(h(x))
    ensures SumOf(Map(s, h), f) == SumOf(s, g)
  {
    if s != [] {
      var pre := s[..|s| - 1];
      SumOfMap(pre, h, f, g);
      var m := Map(s, h);
      assert m[..|m| - 1] == Map(pre, h);
    }
  }

  /** Sums of two functions that agree on every element are equal. */
  lemma {:induction false} SumOfPointwise<T>(s: seq<T>, f: T -> int, g: T -> int)
    requires forall x :: x in s ==> f(x) == g(x)
    ensures SumOf(s, f) == SumOf(s, g)
  {
    if s != [] {
      SumOfPointwise(s[..|s| - 1], f, g);
    }
  }

  /** Raising one term by one, at an element that occurs exactly once, raises the sum by one. */
  lemma SumOfBumpOnce<T>(s: seq<T>, k: nat, f: T -> int, g: T -> int)
    requires k < |s|
    requires forall j :: 0 <= j < |s| && j != k ==> s[j] != s[k]
    requires g(s[k]) == f(s[k]) + 1
    requires forall y :: y != s[k] ==> g(y) == f(y)
    ensures SumOf(s, g) == SumOf(s, f) + 1
  {
    var a, b := s[..k], s[k + 1..];
    assert s == a + [s[k]] + b;
    assert forall y :: y in a ==> y != s[k];
    assert forall y :: y in b ==> y != s[k];
    SumOfPointwise(a, f, g);
    SumOfPointwise(b, f, g);
    SumOfAppend(a + [s[k]], b, f);
    SumOfAppend(a, [s[k]], f);
    SumOfAppend(a + [s[k]], b, g);
    SumOfAppend(a, [s[k]], g);
    assert [s[k]][..0] == [];
  }

  lemma SumOfCons<T>(x: T, t: seq<T>, f: T -> int)
    ensures SumOf([x] + t, f) == f(x) + SumOf(t, f)
  {
    SumOfAppend([x], t, f);
    assert [x][..0] == [];
  }

  /** The sum over a sequence is the sum over the elements a predicate keeps
      plus the sum over those its complement keeps. */
  lemma {:induction false} SumOfPartition<T(!new)>(s: seq<T>, p: T -> bool, q: T -> bool, f: T -> int)
    requires forall x :: q(x) <==> !p(x)
    ensures SumOf(Filter(s, p), f) + SumOf(Filter(s, q), f) == SumOf(s, f)
  {
    if s != [] {
      var t := s[1..];
      SumOfPartition(t, p, q, f);
      assert s == [s[0]] + t;
      SumOfCons(s[0], t, f);
      if p(s[0]) {
        assert Filter(s, p) == [s[0]] + Filter(t, p);
        assert Filter(s, q) == Filter(t, q);
        SumOfCons(s[0], Filter(t, p), f);
      } else {
        assert Filter(s, q) == [s[0]] + Filter(t, q);
        assert Filter(s, p) == Filter(t, p);
        SumOfCons(s[0], Filter(t, q), f);
      }
    }
  }

  /** A sequence none of whose elements match filters to nothing. */
  lemma {:induction false} FilterNoneAt<T(!new)>(s: seq<T>, p: T -> bool)
    requires forall j :: 0 <= j < |s| ==> !p(s[j])
    ensures Filter(s, p) == []
  {
    if s != [] {
      FilterNoneAt(s[1..], p);
    }
  }

  /** A sequence all of whose elements match filters to itself. */
  lemma {:induction false} FilterAllAt<T(!new)>(s: seq<T>, p: T -> bool)
    requires forall j :: 0 <= j < |s| ==> p(s[j])
    ensures Filter(s, p) == s
  {
    if s != [] {
      FilterAllAt(s[1..], p);
      assert s == [s[0]] + s[1..];
    }
  }

  /** Filtering out a single rejected element removes just that element. */
  lemma {:induction false} FilterDropsOne<T(!new)>(s: seq<T>, p: T -> bool, k: nat)
    requires k < |s| && !p(s[k])
    requires forall j :: 0 <= j < |s| && j != k ==> p(s[j])
    ensures Filter(s, p) == s[..k] + s[k + 1..]
  {
    var rest := s[1..];
    if k == 0 {
      FilterAllAt(rest, p);
    } else {
      FilterDropsOne(rest, p, k - 1);
      DropIndexCons(s, k);
    }
  }

  /** Leaving out an index past the head keeps the head in front. */
  lemma DropIndexCons<T>(s: seq<T>, k: nat)
    requires 0 < k < |s|
    ensures s[..k] + s[k + 1..] == [s[0]] + (s[1..][..k - 1] + s[1..][k..])
  {
    assert s[..k] == [s[0]] + s[1..][..k - 1];
    assert s[k + 1..] == s[1..][k..];
  }

  /** Moving one element to the end keeps the elements. */
  lemma MoveToEndMultiset<T>(s: seq<T>, k: nat)
    requires k < |s|
    ensures multiset(s[..k] + s[k + 1..] + [s[k]]) == multiset(s)
  {
    assert s == s[..k] + [s[k]] + s[k + 1..];
  }

  /** Filtering with a predicate exactly one element satisfies leaves that element. */
  lemma {:induction false} FilterOnlyMatch<T(!new)>(s: seq<T>, p: T -> bool, k: nat)
    requires k < |s| && p(s[k])
    requires forall j :: 0 <= j < |s| && j != k ==> !p(s[j])
    ensures Filter(s, p) == [s[k]]
  {
    if k == 0 {
      FilterNoneAt(s[1..], p);
    } else {
      FilterOnlyMatch(s[1..], p, k - 1);
    }
  }

  /** The two halves of a partition by a predicate hold the elements of the
      whole, with their multiplicities. */
  lemma FilterSplitMultiset<T(!new)>(s: seq<T>, p: T -> bool, q: T -> bool)
    requires forall x :: q(x) <==> !p(x)
    ensures multiset(Filter(s, p)) + multiset(Filter(s, q)) == multiset(s)
  {
    forall x ensures (multiset(Filter(s, p)) + multiset(Filter(s, q)))[x] == multiset(s)[x] {
      FilterMultiset(s, p, x);
      FilterMultiset(s, q, x);
    }
  }

  /** A sequence in which every `q`-element comes after every `p`-element is
      its `p`-elements followed by its `q`-elements. */
  lemma {:induction false} PartitionedIsFilters<T(!new)>(r: seq<T>, p: T -> bool, q: T -> bool)
    requires forall x :: q(x) <==> !p(x)
    requires forall i, j :: 0 <= i < j < |r| && q(r[i]) ==> q(r[j])
    ensures r == Filter(r, p) + Filter(r, q)
  {
    if r != [] {
      if p(r[0]) {
        var t := r[1..];
        PartitionedTail(r, q);
        PartitionedIsFilters(t, p, q);
        PartitionedHead(r, p, q);
      } else {
        AllAfterFirst(r, q);
        FilterNoneAt(r, p);
        FilterAllAt(r, q);
      }
    }
  }

  /** A head that `p` keeps, in front of a tail that is already split. */
  lemma PartitionedHead<T(!new)>(r: seq<T>, p: T -> bool, q: T -> bool)
    requires r != [] && p(r[0]) && !q(r[0])
    requires r[1..] == Filter(r[1..], p) + Filter(r[1..], q)
    ensures r == Filter(r, p) + Filter(r, q)
  {
    var t := r[1..];
    var a, b := Filter(t, p), Filter(t, q);
    assert Filter(r, p) == [r[0]] + a;
    assert Filter(r, q) == b;
    ConsAssoc(r[0], a, b);
    assert r == [r[0]] + t;
  }

  lemma ConsAssoc<T>(h: T, a: seq<T>, b: seq<T>)
    ensures ([h] + a) + b == [h] + (a + b)
  {
  }

  lemma PartitionedTail<T>(r: seq<T>, q: T -> bool)
    requires r != []
    requires forall i, j :: 0 <= i < j < |r| && q(r[i]) ==> q(r[j])
    ensures forall i, j :: 0 <= i < j < |r[1..]| && q(r[1..][i]) ==> q(r[1..][j])
  {
    forall i, j | 0 <= i < j < |r[1..]| && q(r[1..][i]) ensures q(r[1..][j]) {
      assert r[1..][i] == r[i + 1] && r[1..][j] == r[j + 1];
    }
  }

  lemma AllAfterFirst<T>(r: seq<T>, q: T -> bool)
    requires r != [] && q(r[0])
    requires forall i, j :: 0 <= i < j < |r| && q(r[i]) ==> q(r[j])
    ensures forall j :: 0 <= j < |r| ==> q(r[j])
  {
    forall j | 0 < j < |r| ensures q(r[j]) {
      assert q(r[0]);
    }
  }

}

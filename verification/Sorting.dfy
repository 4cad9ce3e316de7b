/** `sort.Slice` and `sort.Strings`: in place, unstable, driven by a `less` callback. */
module Sorting {
  import opened Text

  /** What `sort.Slice` asks of its callback: a strict weak order. */
  ghost predicate WeakOrder<T(!new)>(less: (T, T) -> bool) {
    && (forall x, y :: less(x, y) ==> !less(y, x))
    && (forall x, y, z :: !less(y, x) && !less(z, y) ==> !less(z, x))
  }

  ghost predicate Ordered<T>(s: seq<T>, less: (T, T) -> bool) {
    forall i, j :: 0 <= i < j < |s| ==> !less(s[j], s[i])
  }

  ghost predicate StrictlyOrdered<T>(s: seq<T>, less: (T, T) -> bool) {
    forall i, j :: 0 <= i < j < |s| ==> less(s[i], s[j])
  }

  ghost predicate Permutation<T>(s: seq<T>, t: seq<T>) {
    multiset(s) == multiset(t)
  }

  lemma {:induction false} StringsAreOrdered()
    ensures WeakOrder<string>(Less)
  {
    forall x: string, y: string | Less(x, y)
      ensures !Less(y, x)
    {
      LessAsymmetric(x, y);
    }
    forall x: string, y: string, z: string | !Less(y, x) && !Less(z, y)
      ensures !Less(z, x)
    {
      NotLessTransitive(x, y, z);
    }
  }

  lemma {:induction false} NotLessTransitive(x: string, y: string, z: string)
    requires !Less(y, x) && !Less(z, y)
    ensures !Less(z, x)
  {
    LessTotal(x, y);
    LessTotal(y, z);
    if x != y && y != z {
      LessTransitive(x, y, z);
      LessAsymmetric(x, z);
    }
  }

  ghost predicate Comparable<T>(elements: multiset<T>, less: (T, T) -> bool) {
    forall x, y :: x in elements && y in elements ==> x == y || less(x, y) || less(y, x)
  }

  lemma {:induction false} TailsArePermutations<T>(s: seq<T>, t: seq<T>)
    requires Permutation(s, t) && s != [] && t != [] && s[0] == t[0]
    ensures Permutation(s[1..], t[1..]) && multiset(s[1..]) <= multiset(s)
  {
    assert s == [s[0]] + s[1..] && t == [t[0]] + t[1..];
    assert multiset(s) == multiset{s[0]} + multiset(s[1..]);
    assert multiset(t) == multiset{s[0]} + multiset(t[1..]);
    assert multiset(s[1..]) == multiset(s) - multiset{s[0]} == multiset(t[1..]);
  }

  /** There is one way to arrange a multiset in order when distinct elements compare. */
  lemma {:induction false} SortedPermutationUnique<T>(s: seq<T>, t: seq<T>, less: (T, T) -> bool)
    requires Permutation(s, t)
    requires Ordered(s, less) && Ordered(t, less)
    requires Comparable(multiset(s), less)
    ensures s == t
  {
    PermutationLength(s, t);
    if s != [] {
      SameHead(s, t, less);
      TailsArePermutations(s, t);
      ComparableShrinks(multiset(s), multiset(s[1..]), less);
      SortedPermutationUnique(s[1..], t[1..], less);
      assert s == [s[0]] + s[1..] && t == [t[0]] + t[1..];
    }
  }

  lemma {:induction false} PermutationLength<T>(s: seq<T>, t: seq<T>)
    requires Permutation(s, t)
    ensures |s| == |t|
  {
    assert |s| == |multiset(s)| == |multiset(t)| == |t|;
  }

  lemma {:induction false} ComparableShrinks<T>(all: multiset<T>, some: multiset<T>, less: (T, T) -> bool)
    requires Comparable(all, less) && some <= all
    ensures Comparable(some, less)
  {
    assert forall x :: x in some ==> x in all;
  }

  lemma {:induction false} SameHead<T>(s: seq<T>, t: seq<T>, less: (T, T) -> bool)
    requires Permutation(s, t) && s != [] && t != []
    requires Ordered(s, less) && Ordered(t, less)
    requires Comparable(multiset(s), less)
    ensures s[0] == t[0]
  {
    assert s[0] in multiset(s) && t[0] in multiset(t);
    var i :| 0 <= i < |t| && t[i] == s[0];
    var j :| 0 <= j < |s| && s[j] == t[0];
  }

  /** There is one way to arrange a set in strict order. */
  lemma {:induction false} StrictArrangementUnique<T(!new)>(s: seq<T>, t: seq<T>, less: (T, T) -> bool)
    requires WeakOrder(less)
    requires StrictlyOrdered(s, less) && StrictlyOrdered(t, less)
    requires forall x :: x in s <==> x in t
    ensures s == t
  {
    assert t != [] ==> t[0] in s;
    if s != [] {
      assert s[0] in t && t[0] in s;
      var i :| 0 <= i < |t| && t[i] == s[0];
      var j :| 0 <= j < |s| && s[j] == t[0];
      assert s[0] == t[0];
      forall x
        ensures x in s[1..] <==> x in t[1..]
      {
        TailMembers(s, less, x);
        TailMembers(t, less, x);
      }
      StrictArrangementUnique(s[1..], t[1..], less);
      assert s == [s[0]] + s[1..] && t == [t[0]] + t[1..];
    }
  }

  lemma {:induction false} TailMembers<T(!new)>(s: seq<T>, less: (T, T) -> bool, x: T)
    requires WeakOrder(less) && StrictlyOrdered(s, less) && s != []
    ensures x in s[1..] <==> x in s && x != s[0]
  {
    if x in s[1..] {
      var k :| 0 <= k < |s[1..]| && s[1..][k] == x;
      assert less(s[0], s[k + 1]);
    }
    if x in s && x != s[0] {
      var k :| 0 <= k < |s| && s[k] == x;
      assert s[1..][k - 1] == x;
    }
  }

  /** The reference result of sorting strings. */
  function Sorted(s: seq<string>): (t: seq<string>)
    ensures Permutation(s, t) && Ordered(t, Less)
  {
    if s == [] then []
    else
      assert s == [s[0]] + s[1..];
      InsertIsOrdered(s[0], Sorted(s[1..]));
      Insert(s[0], Sorted(s[1..]))
  }

  function Insert(x: string, s: seq<string>): seq<string> {
    if s == [] || !Less(s[0], x) then [x] + s else [s[0]] + Insert(x, s[1..])
  }

  lemma {:induction false} InsertIsOrdered(x: string, s: seq<string>)
    requires Ordered(s, Less)
    ensures multiset(Insert(x, s)) == multiset{x} + multiset(s)
    ensures Ordered(Insert(x, s), Less)
  {
    if s == [] {
    } else if !Less(s[0], x) {
      FirstIsLeast(x, s);
    } else {
      InsertIsOrdered(x, s[1..]);
      assert s == [s[0]] + s[1..];
      assert multiset(s) == multiset{s[0]} + multiset(s[1..]);
      LessAsymmetric(s[0], x);
      PrependIsOrdered(s[0], Insert(x, s[1..]), x, s[1..]);
    }
  }

  lemma {:induction false} FirstIsLeast(x: string, s: seq<string>)
    requires s != [] && Ordered(s, Less) && !Less(s[0], x)
    ensures Ordered([x] + s, Less)
  {
    forall j | 0 <= j < |s|
      ensures !Less(s[j], x)
    {
      if j > 0 {
        NotLessTransitive(x, s[0], s[j]);
      }
    }
  }

  lemma {:induction false} PrependIsOrdered(h: string, t: seq<string>, x: string, s: seq<string>)
    requires Ordered(t, Less) && multiset(t) == multiset{x} + multiset(s)
    requires !Less(x, h) && forall j :: 0 <= j < |s| ==> !Less(s[j], h)
    ensures Ordered([h] + t, Less)
  {
    forall j | 0 <= j < |t|
      ensures !Less(t[j], h)
    {
      assert t[j] in multiset(t);
    }
  }

  lemma {:induction false} SortedIsUnique(s: seq<string>, t: seq<string>)
    requires Permutation(s, t) && Ordered(t, Less)
    ensures t == Sorted(s)
  {
    forall x, y | x in multiset(t) && y in multiset(t)
      ensures x == y || Less(x, y) || Less(y, x)
    {
      LessTotal(x, y);
    }
    SortedPermutationUnique(t, Sorted(s), Less);
  }

  method Swap<T>(a: array<T>, j: nat)
    requires 0 < j < a.Length
    modifies a
    ensures a[..] == old(a[..])[j - 1 := old(a[j])][j := old(a[j - 1])]
    ensures Permutation(a[..], old(a[..]))
  {
    a[j - 1], a[j] := a[j], a[j - 1];
  }

  /** All but the element at `j` are in order, and that one is less than what follows it. */
  ghost predicate Sinking<T>(s: seq<T>, j: nat, less: (T, T) -> bool) {
    && j < |s|
    && (forall p, q :: 0 <= p < q < |s| && q != j ==> !less(s[q], s[p]))
    && (forall q :: j < q < |s| ==> less(s[j], s[q]))
  }

  lemma {:induction false} SinkStep<T(!new)>(s: seq<T>, j: nat, less: (T, T) -> bool)
    requires WeakOrder(less) && Sinking(s, j, less) && j > 0 && less(s[j], s[j - 1])
    ensures Sinking(s[j - 1 := s[j]][j := s[j - 1]], j - 1, less)
  {
  }

  lemma {:induction false} SinkEnds<T(!new)>(s: seq<T>, j: nat, less: (T, T) -> bool)
    requires WeakOrder(less) && Sinking(s, j, less) && (j > 0 ==> !less(s[j], s[j - 1]))
    ensures Ordered(s, less)
  {
    forall p, q | 0 <= p < q < |s|
      ensures !less(s[q], s[p])
    {
      if q == j && p < j - 1 {
        assert !less(s[j], s[j - 1]) && !less(s[j - 1], s[p]);
      }
    }
  }

  /** Moves element `i` down to its place among the ordered elements before it. */
  method Sink<T(!new)>(a: array<T>, i: nat, less: (T, T) -> bool)
    requires WeakOrder(less) && i < a.Length && Ordered(a[..i], less)
    modifies a
    ensures Ordered(a[..i + 1], less) && Permutation(a[..], old(a[..]))
  {
    var j: nat := i;
    assert a[..i + 1][..i] == a[..i];
    while j > 0 && less(a[j], a[j - 1])
      invariant j <= i && Sinking(a[..i + 1], j, less)
      invariant Permutation(a[..], old(a[..]))
    {
      ghost var s := a[..i + 1];
      SinkStep(s, j, less);
      Swap(a, j);
      assert a[..i + 1] == s[j - 1 := s[j]][j := s[j - 1]];
      j := j - 1;
    }
    SinkEnds(a[..i + 1], j, less);
  }

  /** `sort.Slice`. Callers may rely on order and on permutation, and on nothing else. */
  method SortSlice<T(!new)>(a: array<T>, less: (T, T) -> bool)
    requires WeakOrder(less)
    modifies a
    ensures Ordered(a[..], less) && Permutation(a[..], old(a[..]))
  {
    for i := 0 to a.Length
      invariant Ordered(a[..i], less) && Permutation(a[..], old(a[..]))
    {
      Sink(a, i, less);
    }
    assert a[..a.Length] == a[..];
  }

  /** `sort.Strings`. */
  method SortStrings(a: array<string>)
    modifies a
    ensures a[..] == Sorted(old(a[..]))
  {
    StringsAreOrdered();
    SortSlice(a, Less);
    SortedIsUnique(old(a[..]), a[..]);
  }
}

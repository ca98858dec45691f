/** Python's `sorted`: a stable sort by a comparison, with the facts callers rely on. */
module Sorting {
  import opened Common

  ghost predicate TotalPreorder<T(!new)>(le: (T, T) -> bool) {
    && (forall a, b :: le(a, b) || le(b, a))
    && (forall a, b, c :: le(a, b) && le(b, c) ==> le(a, c))
  }

  ghost predicate Sorted<T>(s: seq<T>, le: (T, T) -> bool) {
    forall i, j :: 0 <= i < j < |s| ==> le(s[i], s[j])
  }

  ghost predicate Distinct<T>(s: seq<T>) {
    forall i, j :: 0 <= i < j < |s| ==> s[i] != s[j]
  }

  function NatOrder(): (nat, nat) -> bool {
    (a: nat, b: nat) => a <= b
  }

  function Insert<T>(x: T, s: seq<T>, le: (T, T) -> bool): seq<T> {
    if s == [] then [x]
    else if le(x, s[0]) then [x] + s
    else [s[0]] + Insert(x, s[1..], le)
  }

  // The head of the input goes before its equals in the sorted tail, so the sort is stable.
  function Sort<T>(s: seq<T>, le: (T, T) -> bool): seq<T> {
    if s == [] then [] else Insert(s[0], Sort(s[1..], le), le)
  }

  lemma InsertSorted<T(!new)>(x: T, s: seq<T>, elements: multiset<T>, le: (T, T) -> bool)
    requires Sorted(s, le) && multiset(s) == elements
    requires forall y :: y in elements ==> le(x, y)
    ensures Sorted([x] + s, le)
  {
    forall j | 0 <= j < |s| ensures le(x, s[j]) {
      assert s[j] in multiset(s);
    }
  }

  lemma {:induction false} InsertElements<T>(x: T, s: seq<T>, le: (T, T) -> bool)
    ensures multiset(Insert(x, s, le)) == multiset(s) + multiset{x}
  {
    if s != [] {
      assert s == [s[0]] + s[1..];
      InsertElements(x, s[1..], le);
    }
  }

  lemma {:induction false} InsertKeeps<T(!new)>(x: T, s: seq<T>, le: (T, T) -> bool)
    requires TotalPreorder(le) && Sorted(s, le)
    ensures Sorted(Insert(x, s, le), le)
  {
    if s != [] {
      if le(x, s[0]) {
        forall j | 0 <= j < |s| ensures le(x, s[j]) {
          assert le(s[0], s[j]);
        }
      } else {
        InsertKeeps(x, s[1..], le);
        InsertElements(x, s[1..], le);
        InsertSorted(s[0], Insert(x, s[1..], le), multiset(s[1..]) + multiset{x}, le);
      }
    }
  }

  lemma {:induction false} SortSorts<T(!new)>(s: seq<T>, le: (T, T) -> bool)
    requires TotalPreorder(le)
    ensures Sorted(Sort(s, le), le)
    ensures multiset(Sort(s, le)) == multiset(s)
    ensures |Sort(s, le)| == |s|
  {
    if s != [] {
      SortSorts(s[1..], le);
      InsertKeeps(s[0], Sort(s[1..], le), le);
      InsertElements(s[0], Sort(s[1..], le), le);
      assert s == [s[0]] + s[1..];
    }
    assert |multiset(s)| == |s| && |multiset(Sort(s, le))| == |Sort(s, le)|;
  }

  lemma {:induction false} SortedStays<T>(s: seq<T>, le: (T, T) -> bool)
    requires Sorted(s, le)
    ensures Sort(s, le) == s
  {
    if s != [] {
      SortedStays(s[1..], le);
      assert |s| > 1 ==> le(s[0], s[1]);
      assert s == [s[0]] + s[1..];
    }
  }

  lemma TailElements<T>(s: seq<T>)
    requires s != []
    ensures multiset(s[1..]) == multiset(s) - multiset{s[0]}
  {
    assert s == [s[0]] + s[1..];
  }

  lemma SameElements<T>(a: seq<T>, b: seq<T>)
    requires multiset(a) == multiset(b)
    ensures |a| == |b|
    ensures forall x :: x in a <==> x in b
  {
    assert |multiset(a)| == |a| && |multiset(b)| == |b|;
    forall x ensures x in a <==> x in b {
      assert x in a <==> x in multiset(a);
      assert x in b <==> x in multiset(b);
    }
  }

  lemma HeadIsLeast<T>(a: seq<T>, b: seq<T>, le: (T, T) -> bool)
    requires a != [] && b != [] && Sorted(a, le) && multiset(a) == multiset(b)
    ensures a[0] == b[0] || le(a[0], b[0])
    ensures b[0] in a
  {
    SameElements(a, b);
    assert b[0] in b;
  }

  /** Two sorted rearrangements of the same elements are equal when ties are impossible. */
  lemma {:induction false} SortedUnique<T(!new)>(a: seq<T>, b: seq<T>, le: (T, T) -> bool)
    requires TotalPreorder(le) && Sorted(a, le) && Sorted(b, le)
    requires multiset(a) == multiset(b)
    requires forall x, y :: x in a && y in a && le(x, y) && le(y, x) ==> x == y
    ensures a == b
  {
    SameElements(a, b);
    if a != [] {
      HeadIsLeast(a, b, le);
      HeadIsLeast(b, a, le);
      TailElements(a);
      TailElements(b);
      SortedUnique(a[1..], b[1..], le);
      assert a == [a[0]] + a[1..] && b == [b[0]] + b[1..];
    }
  }

  lemma {:induction false} DistinctCounts<T>(s: seq<T>)
    requires Distinct(s)
    ensures forall x :: multiset(s)[x] <= 1
  {
    if s != [] {
      DistinctCounts(s[1..]);
      assert s == [s[0]] + s[1..];
      assert s[0] !in multiset(s[1..]);
    }
  }

  lemma TwoPlaces<T>(s: seq<T>, i: nat, j: nat)
    requires i < j < |s|
    ensures s[i] == s[j] ==> multiset(s)[s[i]] >= 2
  {
    assert s == s[..j] + [s[j]] + s[j + 1..];
    assert s[..j][i] in multiset(s[..j]);
  }

  lemma DistinctPermutes<T>(a: seq<T>, b: seq<T>)
    requires Distinct(a) && multiset(a) == multiset(b)
    ensures Distinct(b)
  {
    DistinctCounts(a);
    forall i, j | 0 <= i < j < |b| ensures b[i] != b[j] {
      TwoPlaces(b, i, j);
    }
  }

  function SetOf<T>(s: seq<T>): set<T> {
    set x | x in s
  }

  lemma {:induction false} DistinctBySize<T>(s: seq<T>)
    ensures |SetOf(s)| <= |s|
    ensures Distinct(s) <==> |SetOf(s)| == |s|
  {
    if s == [] {
      assert SetOf(s) == {};
    } else {
      var last, front := s[|s| - 1], s[..|s| - 1];
      DistinctBySize(front);
      assert SetOf(s) == SetOf(front) + {last};
      if last in front {
        var i :| 0 <= i < |front| && front[i] == last;
        assert s[i] == s[|s| - 1];
        assert SetOf(s) == SetOf(front);
      }
    }
  }

  /** The numbers below `n`. */
  ghost function Below(n: nat): (r: set<nat>)
    ensures forall i: nat :: i in r <==> i < n
    ensures |r| == n
  {
    if n == 0 then {} else Below(n - 1) + {n - 1}
  }

  ghost function Image<T>(f: seq<T>, S: set<nat>): set<T>
    requires forall i :: i in S ==> i < |f|
  {
    set i | i in S :: f[i]
  }

  lemma {:induction false} ImageSize<T>(f: seq<T>, S: set<nat>)
    requires Distinct(f) && forall i :: i in S ==> i < |f|
    ensures |Image(f, S)| == |S|
  {
    if S != {} {
      var i :| i in S;
      ImageSize(f, S - {i});
      forall h | h in S - {i} ensures f[h] != f[i] {
        assert h < i || i < h;
      }
      assert Image(f, S) == Image(f, S - {i}) + {f[i]};
    }
  }

  /** `pi` lists every number below `n` once. */
  ghost predicate IsPermutation(pi: seq<nat>, n: nat) {
    |pi| == n && Distinct(pi) && forall i :: 0 <= i < n ==> pi[i] < n
  }

  lemma PermutationIsOnto(pi: seq<nat>, n: nat, h: nat) returns (i: nat)
    requires IsPermutation(pi, n) && h < n
    ensures i < n && pi[i] == h
  {
    var image := Image(pi, Below(n));
    ImageSize(pi, Below(n));
    assert h in image by {
      if h !in image {
        SubsetSize(image + {h}, Below(n));
      }
    }
    i :| i in Below(n) && pi[i] == h;
  }

  ghost predicate Inverse(pi: seq<nat>, inv: seq<nat>) {
    && |pi| == |inv|
    && (forall i :: 0 <= i < |pi| ==> pi[i] < |inv| && inv[pi[i]] == i)
    && (forall i :: 0 <= i < |inv| ==> inv[i] < |pi| && pi[inv[i]] == i)
  }

  lemma InversePermutation(pi: seq<nat>, n: nat) returns (inv: seq<nat>)
    requires IsPermutation(pi, n)
    ensures IsPermutation(inv, n) && Inverse(pi, inv)
  {
    inv := [];
    while |inv| < n
      invariant |inv| <= n
      invariant forall h :: 0 <= h < |inv| ==> inv[h] < n && pi[inv[h]] == h
      decreases n - |inv|
    {
      var i := PermutationIsOnto(pi, n, |inv|);
      inv := inv + [i];
    }
    forall i | 0 <= i < n ensures inv[pi[i]] == i {
      assert pi[inv[pi[i]]] == pi[i];
    }
  }

  /** The elements of a finite set, in some order. */
  ghost function Listing<T(!new)>(s: set<T>): (r: seq<T>)
    ensures Distinct(r) && |r| == |s|
    ensures forall x :: x in r <==> x in s
  {
    if s == {} then []
    else
      var x :| x in s;
      [x] + Listing(s - {x})
  }

  lemma {:induction false} DistinctSameElements<T>(a: seq<T>, b: seq<T>)
    requires Distinct(a) && Distinct(b)
    requires forall x :: x in a <==> x in b
    ensures multiset(a) == multiset(b)
  {
    DistinctCounts(a);
    DistinctCounts(b);
    forall x ensures multiset(a)[x] == multiset(b)[x] {
      assert x in a <==> x in multiset(a);
      assert x in b <==> x in multiset(b);
    }
  }

  /** The elements of a set as a list in the given order. */
  method SortedList<T(!new, ==)>(elements: set<T>, le: (T, T) -> bool) returns (sorted: seq<T>)
    requires TotalPreorder(le)
    ensures Distinct(sorted) && Sorted(sorted, le)
    ensures |sorted| == |elements| && forall x :: x in sorted <==> x in elements
  {
    var listed: seq<T> := [];
    var rest := elements;
    while rest != {}
      invariant rest <= elements && |listed| + |rest| == |elements|
      invariant Distinct(listed) && forall x :: x in listed <==> x in elements && x !in rest
      decreases |rest|
    {
      var x :| x in rest;
      rest := rest - {x};
      listed := listed + [x];
    }
    sorted := Sort(listed, le);
    SortSorts(listed, le);
    DistinctPermutes(listed, sorted);
    SameElements(listed, sorted);
  }
}

/** Bottom-up merge sort on sequences: what HASH_SRT computes, and why it is the
    stable sort of its input. */
module StableSort {
  import opened DoublyLinked

  /** A comparison function: cmp(x, y) <= 0 when x may stand before y. */
  type Cmp = (Ptr, Ptr) -> int

  ghost predicate TotalPreorder(cmp: Cmp) {
    && (forall x, y :: cmp(x, y) <= 0 || cmp(y, x) <= 0)
    && forall x, y, z :: cmp(x, y) <= 0 && cmp(y, z) <= 0 ==> cmp(x, z) <= 0
  }

  ghost predicate Sorted(s: seq<Ptr>, cmp: Cmp) {
    forall i, j :: 0 <= i < j < |s| ==> cmp(s[i], s[j]) <= 0
  }

  function Min(a: nat, b: nat): nat {
    if a <= b then a else b
  }

  /** The stable merge of two runs. */
  function Merge(a: seq<Ptr>, b: seq<Ptr>, cmp: Cmp): (r: seq<Ptr>)
    ensures |r| == |a| + |b|
    decreases |a| + |b|
  {
    if a == [] then b
    else if b == [] then a
    else if cmp(a[0], b[0]) <= 0 then [a[0]] + Merge(a[1..], b, cmp)
    else [b[0]] + Merge(a, b[1..], cmp)
  }

  /** One pass: adjacent runs of length w are merged pairwise. */
  function Pass(s: seq<Ptr>, w: nat, cmp: Cmp): (r: seq<Ptr>)
    requires w > 0
    ensures |r| == |s|
    decreases |s|
  {
    if s == [] then []
    else
      var m, n := Min(w, |s|), Min(2 * w, |s|);
      Merge(s[..m], s[m..n], cmp) + Pass(s[n..], w, cmp)
  }

  /** Passes with doubling run length, until one pass needs a single merge. */
  function SortFrom(s: seq<Ptr>, w: nat, cmp: Cmp): (r: seq<Ptr>)
    requires w > 0
    decreases if |s| > w then |s| - w else 0
  {
    var t := Pass(s, w, cmp);
    if |s| <= 2 * w then t else SortFrom(t, 2 * w, cmp)
  }

  /** The elements of s that cmp does not tell apart from k, in order. */
  ghost function Class(s: seq<Ptr>, k: Ptr, cmp: Cmp): (r: seq<Ptr>) {
    if s == [] then []
    else (if cmp(s[0], k) <= 0 && cmp(k, s[0]) <= 0 then [s[0]] else []) + Class(s[1..], k, cmp)
  }

  /** t is s, rearranged without reordering equal elements. */
  ghost predicate StablePermutation(s: seq<Ptr>, t: seq<Ptr>, cmp: Cmp) {
    multiset(t) == multiset(s) && forall k :: Class(t, k, cmp) == Class(s, k, cmp)
  }

  /** One step of the merge. */
  lemma MergeStep(a: seq<Ptr>, b: seq<Ptr>, cmp: Cmp)
    ensures Merge(a, b, cmp) ==
            if a == [] then b
            else if b == [] then a
            else if cmp(a[0], b[0]) <= 0 then [a[0]] + Merge(a[1..], b, cmp)
            else [b[0]] + Merge(a, b[1..], cmp)
  {
  }

  lemma {:induction false} MergeMembers(a: seq<Ptr>, b: seq<Ptr>, cmp: Cmp)
    ensures multiset(Merge(a, b, cmp)) == multiset(a) + multiset(b)
    decreases |a| + |b|
  {
    MergeStep(a, b, cmp);
    hide Merge;
    if a == [] || b == [] {
    } else if cmp(a[0], b[0]) <= 0 {
      MergeMembers(a[1..], b, cmp);
      assert a == [a[0]] + a[1..];
    } else {
      MergeMembers(a, b[1..], cmp);
      assert b == [b[0]] + b[1..];
    }
  }

  lemma {:induction false} MergeSorted(a: seq<Ptr>, b: seq<Ptr>, cmp: Cmp)
    requires TotalPreorder(cmp) && Sorted(a, cmp) && Sorted(b, cmp)
    ensures Sorted(Merge(a, b, cmp), cmp)
    decreases |a| + |b|
  {
    if a != [] && b != [] {
      if cmp(a[0], b[0]) <= 0 {
        MergeSorted(a[1..], b, cmp);
        MergeMembers(a[1..], b, cmp);
        SortedCons(a[0], Merge(a[1..], b, cmp), a[1..], b, cmp);
      } else {
        MergeSorted(a, b[1..], cmp);
        MergeMembers(a, b[1..], cmp);
        SortedCons(b[0], Merge(a, b[1..], cmp), a, b[1..], cmp);
      }
    }
  }

  lemma SortedCons(x: Ptr, s: seq<Ptr>, a: seq<Ptr>, b: seq<Ptr>, cmp: Cmp)
    requires Sorted(s, cmp) && multiset(s) == multiset(a) + multiset(b)
    requires forall y :: y in a ==> cmp(x, y) <= 0
    requires forall y :: y in b ==> cmp(x, y) <= 0
    ensures Sorted([x] + s, cmp)
  {
    forall i | 0 <= i < |s|
      ensures cmp(x, s[i]) <= 0
    {
      assert s[i] in multiset(s);
    }
  }

  lemma {:induction false} ClassAppend(s: seq<Ptr>, t: seq<Ptr>, k: Ptr, cmp: Cmp)
    ensures Class(s + t, k, cmp) == Class(s, k, cmp) + Class(t, k, cmp)
  {
    if s == [] {
      assert s + t == t;
    } else {
      assert (s + t)[1..] == s[1..] + t;
      ClassAppend(s[1..], t, k, cmp);
    }
  }

  /** Nothing in a sorted run whose head exceeds x is in x's class. */
  lemma {:induction false} NoneBelow(a: seq<Ptr>, x: Ptr, k: Ptr, cmp: Cmp)
    requires TotalPreorder(cmp) && Sorted(a, cmp) && a != [] && cmp(a[0], x) > 0
    requires cmp(x, k) <= 0 && cmp(k, x) <= 0
    ensures Class(a, k, cmp) == []
    decreases |a|
  {
    if |a| > 1 {
      assert cmp(a[0], a[1]) <= 0;
      assert cmp(a[1], x) > 0;
      NoneBelow(a[1..], x, k, cmp);
    }
  }

  lemma ClassCons(x: Ptr, s: seq<Ptr>, k: Ptr, cmp: Cmp)
    ensures Class([x] + s, k, cmp) == (if cmp(x, k) <= 0 && cmp(k, x) <= 0 then [x] else []) + Class(s, k, cmp)
  {
    assert ([x] + s)[1..] == s;
  }

  lemma SortedTail(a: seq<Ptr>, cmp: Cmp)
    requires Sorted(a, cmp) && a != []
    ensures Sorted(a[1..], cmp)
  {
  }

  lemma {:induction false} MergeStable(a: seq<Ptr>, b: seq<Ptr>, k: Ptr, cmp: Cmp)
    requires TotalPreorder(cmp) && Sorted(a, cmp)
    ensures Class(Merge(a, b, cmp), k, cmp) == Class(a, k, cmp) + Class(b, k, cmp)
    decreases |a| + |b|
  {
    hide Class, Merge, Sorted, TotalPreorder;
    MergeEmpty(a, b, k, cmp);
    if a == [] || b == [] {
      return;
    }
    assert a == [a[0]] + a[1..] && b == [b[0]] + b[1..];
    ClassCons(a[0], a[1..], k, cmp);
    ClassCons(b[0], b[1..], k, cmp);
    MergeStep(a, b, cmp);
    SortedTail(a, cmp);
    if cmp(a[0], b[0]) <= 0 {
      ClassCons(a[0], Merge(a[1..], b, cmp), k, cmp);
      MergeStable(a[1..], b, k, cmp);
      Concat3(if cmp(a[0], k) <= 0 && cmp(k, a[0]) <= 0 then [a[0]] else [], Class(a[1..], k, cmp), Class(b, k, cmp));
    } else {
      ClassCons(b[0], Merge(a, b[1..], cmp), k, cmp);
      MergeStable(a, b[1..], k, cmp);
      if cmp(b[0], k) <= 0 && cmp(k, b[0]) <= 0 {
        NoneBelow(a, b[0], k, cmp);
        Concat3([], [b[0]], Class(b[1..], k, cmp));
      }
    }
  }

  lemma MergeEmpty(a: seq<Ptr>, b: seq<Ptr>, k: Ptr, cmp: Cmp)
    ensures a == [] || b == [] ==> Class(Merge(a, b, cmp), k, cmp) == Class(a, k, cmp) + Class(b, k, cmp)
  {
    assert Class([], k, cmp) == [];
  }

  lemma Concat3<T>(a: seq<T>, b: seq<T>, c: seq<T>)
    ensures a + b + c == a + (b + c) && [] + a == a + [] == a && [] + b == b
  {
  }

  /** s consists of sorted runs of length w (the last one possibly shorter). */
  ghost predicate SortedRuns(s: seq<Ptr>, w: nat, cmp: Cmp)
    requires w > 0
    decreases |s|
  {
    s == [] || (Sorted(s[..Min(w, |s|)], cmp) && SortedRuns(s[Min(w, |s|)..], w, cmp))
  }

  lemma TwoRuns(s: seq<Ptr>, w: nat, cmp: Cmp)
    requires w > 0 && s != [] && SortedRuns(s, w, cmp)
    ensures var m, n := Min(w, |s|), Min(2 * w, |s|);
            Sorted(s[..m], cmp) && Sorted(s[m..n], cmp) && SortedRuns(s[n..], w, cmp)
  {
    var m, n := Min(w, |s|), Min(2 * w, |s|);
    if m < |s| {
      assert s[m..][..Min(w, |s[m..]|)] == s[m..n];
      assert s[m..][Min(w, |s[m..]|)..] == s[n..];
    } else {
      assert s[m..n] == [] && s[n..] == [];
    }
  }

  lemma {:induction false} PassSorts(s: seq<Ptr>, w: nat, cmp: Cmp)
    requires w > 0 && TotalPreorder(cmp) && SortedRuns(s, w, cmp)
    ensures SortedRuns(Pass(s, w, cmp), 2 * w, cmp)
    decreases |s|
  {
    if s != [] {
      var m, n := Min(w, |s|), Min(2 * w, |s|);
      TwoRuns(s, w, cmp);
      MergeSorted(s[..m], s[m..n], cmp);
      PassSorts(s[n..], w, cmp);
      var a, b := Merge(s[..m], s[m..n], cmp), Pass(s[n..], w, cmp);
      assert (a + b)[..n] == a && (a + b)[n..] == b;
    }
  }

  lemma {:induction false} PassMembers(s: seq<Ptr>, w: nat, cmp: Cmp)
    requires w > 0
    ensures multiset(Pass(s, w, cmp)) == multiset(s)
    decreases |s|
  {
    if s != [] {
      var m, n := Min(w, |s|), Min(2 * w, |s|);
      var a, b, c := s[..m], s[m..n], s[n..];
      assert s == a + b + c;
      MergeMembers(a, b, cmp);
      PassMembers(c, w, cmp);
    }
  }

  lemma {:induction false} PassStable(s: seq<Ptr>, w: nat, k: Ptr, cmp: Cmp)
    requires w > 0 && TotalPreorder(cmp) && SortedRuns(s, w, cmp)
    ensures Class(Pass(s, w, cmp), k, cmp) == Class(s, k, cmp)
    decreases |s|
  {
    if s != [] {
      var m, n := Min(w, |s|), Min(2 * w, |s|);
      var a, b, c := s[..m], s[m..n], s[n..];
      TwoRuns(s, w, cmp);
      assert s == a + b + c;
      assert Pass(s, w, cmp) == Merge(a, b, cmp) + Pass(c, w, cmp);
      PassStable(c, w, k, cmp);
      hide *;
      calc {
        Class(Pass(s, w, cmp), k, cmp);
        { ClassAppend(Merge(a, b, cmp), Pass(c, w, cmp), k, cmp); }
        Class(Merge(a, b, cmp), k, cmp) + Class(Pass(c, w, cmp), k, cmp);
        { MergeStable(a, b, k, cmp); }
        Class(a, k, cmp) + Class(b, k, cmp) + Class(c, k, cmp);
        { ClassAppend(a, b, k, cmp); }
        Class(a + b, k, cmp) + Class(c, k, cmp);
        { ClassAppend(a + b, c, k, cmp); }
        Class(s, k, cmp);
      }
    }
  }

  lemma {:induction false} SingleRuns(s: seq<Ptr>, cmp: Cmp)
    ensures SortedRuns(s, 1, cmp)
    decreases |s|
  {
    if s != [] {
      SingleRuns(s[1..], cmp);
    }
  }

  /** The sort, for every total preorder. */
  lemma {:induction false} SortFromCorrect(s: seq<Ptr>, w: nat, cmp: Cmp)
    requires w > 0 && TotalPreorder(cmp) && SortedRuns(s, w, cmp)
    ensures Sorted(SortFrom(s, w, cmp), cmp)
    ensures StablePermutation(s, SortFrom(s, w, cmp), cmp)
    decreases if |s| > w then |s| - w else 0
  {
    var t := Pass(s, w, cmp);
    PassSorts(s, w, cmp);
    PassMembers(s, w, cmp);
    forall k
      ensures Class(t, k, cmp) == Class(s, k, cmp)
    {
      PassStable(s, w, k, cmp);
    }
    if |s| <= 2 * w {
      assert t[..|t|] == t;
    } else {
      SortFromCorrect(t, 2 * w, cmp);
    }
  }

  lemma SortCorrect(s: seq<Ptr>, cmp: Cmp)
    requires TotalPreorder(cmp)
    ensures Sorted(SortFrom(s, 1, cmp), cmp) && StablePermutation(s, SortFrom(s, 1, cmp), cmp)
  {
    SingleRuns(s, cmp);
    SortFromCorrect(s, 1, cmp);
  }

  /** There is only one such rearrangement. */
  lemma {:induction false} StableSortUnique(s: seq<Ptr>, t: seq<Ptr>, cmp: Cmp)
    requires TotalPreorder(cmp) && Sorted(s, cmp) && Sorted(t, cmp) && |s| == |t|
    requires forall k :: Class(s, k, cmp) == Class(t, k, cmp)
    ensures s == t
    decreases |s|
  {
    if s != [] {
      HeadsAgree(s, t, cmp);
      forall k
        ensures Class(s[1..], k, cmp) == Class(t[1..], k, cmp)
      {
        TailClass(s, t, k, cmp);
      }
      StableSortUnique(s[1..], t[1..], cmp);
    }
  }

  lemma TailClass(s: seq<Ptr>, t: seq<Ptr>, k: Ptr, cmp: Cmp)
    requires s != [] && t != [] && s[0] == t[0] && Class(s, k, cmp) == Class(t, k, cmp)
    ensures Class(s[1..], k, cmp) == Class(t[1..], k, cmp)
  {
    var h := if cmp(s[0], k) <= 0 && cmp(k, s[0]) <= 0 then [s[0]] else [];
    assert Class(s[1..], k, cmp) == (h + Class(s[1..], k, cmp))[|h|..];
    assert Class(t[1..], k, cmp) == (h + Class(t[1..], k, cmp))[|h|..];
  }

  lemma HeadsAgree(s: seq<Ptr>, t: seq<Ptr>, cmp: Cmp)
    requires TotalPreorder(cmp) && Sorted(s, cmp) && Sorted(t, cmp) && s != [] && t != []
    requires forall k :: Class(s, k, cmp) == Class(t, k, cmp)
    ensures s[0] == t[0]
  {
    ClassSubset(t, s[0], cmp);
    ClassSubset(s, t[0], cmp);
    assert s[0] in Class(t, s[0], cmp) by {
      assert s[0] == Class(s, s[0], cmp)[0];
    }
    assert t[0] in Class(s, t[0], cmp) by {
      assert t[0] == Class(t, t[0], cmp)[0];
    }
    assert cmp(t[0], s[0]) <= 0 && cmp(s[0], t[0]) <= 0;
    assert Class(s, s[0], cmp)[0] == s[0] && Class(t, s[0], cmp)[0] == t[0];
  }

  lemma {:induction false} ClassSubset(s: seq<Ptr>, k: Ptr, cmp: Cmp)
    ensures forall x :: x in Class(s, k, cmp) ==> x in s && cmp(x, k) <= 0 && cmp(k, x) <= 0
    decreases |s|
  {
    if s != [] {
      ClassSubset(s[1..], k, cmp);
    }
  }
}

/** HASH_SRT: Simon Tatham's bottom-up merge sort, relinking the application-order
    list in place. */
module UtHashSort {
  import opened DoublyLinked
  import opened StableSort
  import opened UtHashTable

  const UNSIGNED_LIMIT := 0x1_0000_0000

  /** The elements emitted so far are linked up, except for the last one's `next`. */
  ghost predicate Emitted(next: Links, prev: Links, out: seq<Ptr>) {
    Distinct(out) && forall i :: 0 <= i < |out| ==> EmittedAt(next, prev, out, i)
  }

  ghost predicate EmittedAt(next: Links, prev: Links, out: seq<Ptr>, i: nat)
    requires i < |out|
  {
    && out[i] != NULL && out[i] in next && out[i] in prev && prev[out[i]] == Before(out, i)
    && (i + 1 < |out| ==> next[out[i]] == out[i + 1])
  }

  /** Element j of s still has its old successor and has not been emitted. */
  ghost predicate Waiting(next: Links, s: seq<Ptr>, out: seq<Ptr>, j: nat)
    requires j < |s|
  {
    s[j] != NULL && s[j] in next && next[s[j]] == After(s, j) && s[j] !in out
  }

  predicate InRest(s: seq<Ptr>, j: int, pi: int, psize: int, qi: int) {
    pi <= j < pi + psize || qi <= j < |s|
  }

  /** In the middle of a merge: `out` is emitted, the runs s[pi..pi+psize] and s[qi..] wait. */
  ghost predicate Merging(next: Links, prev: Links, s: seq<Ptr>, out: seq<Ptr>, pi: nat, psize: nat, qi: nat) {
    && pi + psize <= qi <= |s| && Distinct(s)
    && Emitted(next, prev, out)
    && forall j :: 0 <= j < |s| && InRest(s, j, pi, psize, qi) ==> Waiting(next, s, out, j)
  }

  function PtrAt(s: seq<Ptr>, i: nat): Ptr {
    if i < |s| then s[i] else NULL
  }

  /** Hanging the next element behind the emitted ones. */
  method Emit(next: Links, prev: Links, list: Ptr, tail: Ptr, e: Ptr, ghost s: seq<Ptr>, ghost out: seq<Ptr>,
              ghost pi: nat, ghost psize: nat, ghost qi: nat, ghost pi': nat, ghost psize': nat, ghost qi': nat)
    returns (next': Links, prev': Links, list': Ptr, tail': Ptr)
    requires Merging(next, prev, s, out, pi, psize, qi) && list == First(out) && tail == Last(out)
    requires (e == PtrAt(s, pi) && psize > 0 && pi' == pi + 1 && psize' == psize - 1 && qi' == qi)
          || (e == PtrAt(s, qi) && qi < |s| && pi' == pi && psize' == psize && qi' == qi + 1)
    ensures Merging(next', prev', s, out + [e], pi', psize', qi') && list' == First(out + [e]) && tail' == e
  {
    ghost var j := if qi' == qi then pi else qi;
    assert InRest(s, j, pi, psize, qi) && Waiting(next, s, out, j) && e == s[j];
    next', prev', list' := next, prev, list;
    assert out != [] ==> EmittedAt(next, prev, out, |out| - 1);
    if tail != NULL {
      next' := next'[tail := e];
    } else {
      list' := e;
    }
    prev' := prev'[e := tail];
    tail' := e;
    EmittedMore(next, prev, out, e, next', prev');
    forall i | 0 <= i < |s| && InRest(s, i, pi', psize', qi')
      ensures Waiting(next', s, out + [e], i)
    {
      assert InRest(s, i, pi, psize, qi) && Waiting(next, s, out, i);
    }
  }

  lemma EmittedMore(next: Links, prev: Links, out: seq<Ptr>, e: Ptr, next': Links, prev': Links)
    requires Emitted(next, prev, out) && e != NULL && e !in out && e in next
    requires next' == if out == [] then next else next[Last(out) := e]
    requires prev' == prev[e := Last(out)]
    ensures Emitted(next', prev', out + [e])
    ensures out != [] ==> Last(out) != NULL
  {
    var r := out + [e];
    assert out != [] ==> EmittedAt(next, prev, out, |out| - 1);
    forall i | 0 <= i < |r|
      ensures EmittedAt(next', prev', r, i)
    {
      assert i < |out| ==> EmittedAt(next, prev, out, i);
    }
  }

  /** What is still to be emitted. */
  ghost function Pending(s: seq<Ptr>, i: nat, psize: nat, j: nat, qe: nat, cmp: Cmp): seq<Ptr>
    requires i + psize <= j <= qe <= |s|
  {
    Merge(s[i..i + psize], s[j..qe], cmp)
  }

  /** Merges the run of psize elements at p with the run of at most qsize elements at q. */
  method MergeRuns(next: Links, prev: Links, p: Ptr, psize: nat, q: Ptr, qsize: nat, list: Ptr, tail: Ptr, cmp: Cmp,
                   ghost s: seq<Ptr>, ghost out: seq<Ptr>, ghost pi: nat, ghost qi: nat)
    returns (next': Links, prev': Links, q': Ptr, list': Ptr, tail': Ptr)
    requires Merging(next, prev, s, out, pi, psize, qi) && list == First(out) && tail == Last(out)
    requires (psize > 0 ==> p == PtrAt(s, pi)) && q == PtrAt(s, qi)
    ensures q' == PtrAt(s, Min(qi + qsize, |s|))
    ensures var qe := Min(qi + qsize, |s|);
            var out' := out + Merge(s[pi..pi + psize], s[qi..qe], cmp);
            Merging(next', prev', s, out', qe, 0, qe) && list' == First(out') && tail' == Last(out')
  {
    hide Merging, Merge, Pending;
    next', prev', q', list', tail' := next, prev, q, list, tail;
    var p': Ptr, psize': nat, qsize': nat := p, psize, qsize;
    ghost var out' := out;
    ghost var i: nat, j: nat := pi, qi;
    ghost var qe := Min(qi + qsize, |s|);
    RestHead(next, prev, s, out, pi, psize, qi);
    while psize' > 0 || (qsize' > 0 && q' != NULL)
      invariant qi <= j <= qe && i + psize' == pi + psize && qe == Min(j + qsize', |s|)
      invariant Merging(next', prev', s, out', i, psize', j)
      invariant list' == First(out') && tail' == Last(out')
      invariant (psize' > 0 ==> p' == PtrAt(s, i)) && q' == PtrAt(s, j)
      invariant out' + Pending(s, i, psize', j, qe, cmp) == out + Pending(s, pi, psize, qi, qe, cmp)
      decreases psize' + qe - j
    {
      RestHead(next', prev', s, out', i, psize', j);
      var takeP := psize' > 0 && (qsize' == 0 || q' == NULL || cmp(p', q') <= 0);
      MergeHead(s, i, psize', j, qe, cmp, takeP, out');
      var e;
      if takeP {
        e := p';
        if p' != NULL {
          p' := next'[p'];
        }
        next', prev', list', tail' := Emit(next', prev', list', tail', e, s, out', i, psize', j, i + 1, psize' - 1, j);
        psize' := psize' - 1;
        i := i + 1;
      } else {
        e := q';
        q' := next'[q'];
        next', prev', list', tail' := Emit(next', prev', list', tail', e, s, out', i, psize', j, i, psize', j + 1);
        qsize' := qsize' - 1;
        j := j + 1;
      }
      out' := out' + [e];
    }
    RestHead(next', prev', s, out', i, psize', j);
    BlockDone(next', prev', s, out', i, j);
    NonePending(s, pi, psize, qi, i, j, qe, cmp);
    assert out' + Pending(s, i, 0, j, qe, cmp) == out';
  }

  lemma RestHead(next: Links, prev: Links, s: seq<Ptr>, out: seq<Ptr>, pi: nat, psize: nat, qi: nat)
    requires Merging(next, prev, s, out, pi, psize, qi)
    ensures pi + psize <= qi <= |s|
    ensures psize > 0 ==> pi < |s| && s[pi] != NULL && s[pi] in next && next[s[pi]] == After(s, pi)
    ensures qi < |s| ==> s[qi] != NULL && s[qi] in next && next[s[qi]] == After(s, qi)
  {
    assert psize > 0 ==> InRest(s, pi, pi, psize, qi) && Waiting(next, s, out, pi);
    assert qi < |s| ==> InRest(s, qi, pi, psize, qi) && Waiting(next, s, out, qi);
  }

  lemma BlockDone(next: Links, prev: Links, s: seq<Ptr>, out: seq<Ptr>, pi: nat, qi: nat)
    requires Merging(next, prev, s, out, pi, 0, qi)
    ensures Merging(next, prev, s, out, qi, 0, qi)
  {
    forall j | 0 <= j < |s| && InRest(s, j, qi, 0, qi)
      ensures Waiting(next, s, out, j)
    {
      assert InRest(s, j, pi, 0, qi);
    }
  }

  /** Which element the merge emits next. */
  lemma MergeHead(s: seq<Ptr>, i: nat, psize: nat, j: nat, qe: nat, cmp: Cmp, takeP: bool, out: seq<Ptr>)
    requires i + psize <= j <= qe <= |s| && (psize > 0 || j < qe)
    requires takeP <==> psize > 0 && (j == qe || cmp(s[i], s[j]) <= 0)
    ensures takeP ==> out + Pending(s, i, psize, j, qe, cmp) == (out + [s[i]]) + Pending(s, i + 1, psize - 1, j, qe, cmp)
    ensures !takeP ==> j < qe && out + Pending(s, i, psize, j, qe, cmp) == (out + [s[j]]) + Pending(s, i, psize, j + 1, qe, cmp)
  {
    var a, b := s[i..i + psize], s[j..qe];
    if psize > 0 {
      assert a[0] == s[i] && a[1..] == s[i + 1..i + psize];
    }
    if j < qe {
      assert b[0] == s[j] && b[1..] == s[j + 1..qe];
    }
  }

  lemma NonePending(s: seq<Ptr>, pi: nat, psize: nat, qi: nat, i: nat, j: nat, qe: nat, cmp: Cmp)
    requires pi + psize <= qi <= qe <= |s| && i <= j == qe
    ensures Pending(s, i, 0, j, qe, cmp) == []
    ensures Pending(s, pi, psize, qi, qe, cmp) == Merge(s[pi..pi + psize], s[qi..qe], cmp)
  {
  }

  /** Counting off the run at p: at most insize elements, ending early at the list's end. */
  method CountRun(next: Links, p: Ptr, insize: nat, ghost prev: Links, ghost s: seq<Ptr>, ghost out: seq<Ptr>, ghost b: nat)
    returns (psize: nat, q: Ptr)
    requires Merging(next, prev, s, out, b, 0, b) && b < |s| && p == s[b] && insize > 0
    ensures psize == Min(insize, |s| - b) && q == PtrAt(s, b + psize)
  {
    psize, q := 0, p;
    for i := 0 to insize
      invariant psize == i && b + psize < |s| && q == s[b + psize]
    {
      RestAt(next, prev, s, out, b, b + psize);
      psize := psize + 1;
      q := next[q];
      if q == NULL {
        return;
      }
    }
  }

  lemma RestAt(next: Links, prev: Links, s: seq<Ptr>, out: seq<Ptr>, b: nat, k: nat)
    requires Merging(next, prev, s, out, b, 0, b) && b <= k < |s|
    ensures s[k] != NULL && s[k] in next && next[s[k]] == After(s, k)
    ensures After(s, k) == NULL <==> k + 1 == |s|
  {
    assert InRest(s, k, b, 0, b) && Waiting(next, s, out, k);
    assert k + 1 < |s| ==> InRest(s, k + 1, b, 0, b) && Waiting(next, s, out, k + 1);
  }

  /** A run is set aside in front of the rest. */
  lemma SplitRun(next: Links, prev: Links, s: seq<Ptr>, out: seq<Ptr>, b: nat, psize: nat)
    requires Merging(next, prev, s, out, b, 0, b) && b + psize <= |s|
    ensures Merging(next, prev, s, out, b, psize, b + psize)
  {
    forall j | 0 <= j < |s| && InRest(s, j, b, psize, b + psize)
      ensures Waiting(next, s, out, j)
    {
      assert InRest(s, j, b, 0, b);
    }
  }

  lemma NothingEmitted(next: Links, prev: Links, s: seq<Ptr>)
    requires List(next, prev, s)
    ensures Merging(next, prev, s, [], 0, 0, 0)
  {
    forall j | 0 <= j < |s| && InRest(s, j, 0, 0, 0)
      ensures Waiting(next, s, [], j)
    {
      assert LinkedAt(next, prev, s, j);
    }
  }

  /** With the last link closed the emitted elements are a list. */
  lemma AllEmitted(next: Links, prev: Links, out: seq<Ptr>)
    requires Emitted(next, prev, out) && out != []
    ensures List(next[Last(out) := NULL], prev, out) && Last(out) != NULL
  {
    assert EmittedAt(next, prev, out, |out| - 1);
    var next' := next[Last(out) := NULL];
    forall i | 0 <= i < |out|
      ensures LinkedAt(next', prev, out, i)
    {
      assert EmittedAt(next, prev, out, i);
    }
  }

  /** The pass from element b on: merge two runs, continue behind them. */
  lemma PassStep(s: seq<Ptr>, b: nat, w: nat, cmp: Cmp, psize: nat, out: seq<Ptr>)
    requires w > 0 && b < |s| && psize == Min(w, |s| - b)
    ensures var m, n := b + psize, Min(b + psize + w, |s|);
            && n == Min(b + 2 * w, |s|)
            && out + Pass(s[b..], w, cmp) == out + Merge(s[b..m], s[m..n], cmp) + Pass(s[n..], w, cmp)
  {
    var m, n := b + psize, Min(b + psize + w, |s|);
    hide Pass, Merge;
    SliceOfTail(s, b, m, n);
    PassUnfold(s[b..], w, cmp, m - b, n - b, s[b..m], s[m..n], s[n..]);
    Concat3(out, Merge(s[b..m], s[m..n], cmp), Pass(s[n..], w, cmp));
  }

  lemma SliceOfTail<T>(s: seq<T>, b: nat, m: nat, n: nat)
    requires b <= m <= n <= |s|
    ensures s[b..][..m - b] == s[b..m] && s[b..][m - b..n - b] == s[m..n] && s[b..][n - b..] == s[n..]
  {
  }

  lemma PassUnfold(t: seq<Ptr>, w: nat, cmp: Cmp, m: nat, n: nat, x: seq<Ptr>, y: seq<Ptr>, z: seq<Ptr>)
    requires w > 0 && t != [] && m == Min(w, |t|) && n == Min(2 * w, |t|)
    requires x == t[..m] && y == t[m..n] && z == t[n..]
    ensures Pass(t, w, cmp) == Merge(x, y, cmp) + Pass(z, w, cmp)
  {
  }

  /** The body of the sort's outer loop: one pass, relinking the whole list. */
  method SortPass(next: Links, prev: Links, list: Ptr, insize: nat, cmp: Cmp, ghost s: seq<Ptr>)
    returns (next': Links, prev': Links, list': Ptr, tail: Ptr, nmerges: nat)
    requires List(next, prev, s) && s != [] && list == First(s) && insize > 0
    ensures List(next', prev', Pass(s, insize, cmp))
    ensures list' == First(Pass(s, insize, cmp)) && tail == Last(Pass(s, insize, cmp))
    ensures nmerges <= 1 <==> |s| <= 2 * insize
  {
    hide List, Merging, Emitted, Pass, Merge;
    next', prev', list', tail, nmerges := next, prev, NULL, NULL, 0;
    var p := list;
    ghost var out: seq<Ptr>, b: nat := [], 0;
    NothingEmitted(next, prev, s);
    assert s[0..] == s;
    while p != NULL
      invariant b <= |s| && p == PtrAt(s, b)
      invariant Merging(next', prev', s, out, b, 0, b)
      invariant list' == First(out) && tail == Last(out)
      invariant out + Pass(s[b..], insize, cmp) == Pass(s, insize, cmp)
      invariant (nmerges == 0 ==> b == 0) && (nmerges == 1 ==> b == Min(2 * insize, |s|))
      invariant nmerges >= 2 ==> 2 * insize < |s|
      decreases |s| - b
    {
      nmerges := nmerges + 1;
      var psize, q := CountRun(next', p, insize, prev', s, out, b);
      SplitRun(next', prev', s, out, b, psize);
      PassStep(s, b, insize, cmp, psize, out);
      next', prev', q, list', tail := MergeRuns(next', prev', p, psize, q, insize, list', tail, cmp, s, out, b, b + psize);
      out := out + Merge(s[b..b + psize], s[b + psize..Min(b + psize + insize, |s|)], cmp);
      b := Min(b + 2 * insize, |s|);
      p := q;
    }
    RestHead(next', prev', s, out, b, 0, b);
    PassEmpty(s[b..], insize, cmp);
    MergingEmitted(next', prev', s, out, b);
    assert out + [] == out;
    AllEmitted(next', prev', out);
    if tail != NULL {
      next' := next'[tail := NULL];
    }
  }

  lemma PassEmpty(s: seq<Ptr>, w: nat, cmp: Cmp)
    requires w > 0 && s == []
    ensures Pass(s, w, cmp) == []
  {
  }

  lemma MergingEmitted(next: Links, prev: Links, s: seq<Ptr>, out: seq<Ptr>, b: nat)
    requires Merging(next, prev, s, out, b, 0, b)
    ensures Emitted(next, prev, out)
  {
  }

  /** HASH_SRT on a nonempty list: passes with doubling insize until one merge is enough. */
  method HashSrt(next: Links, prev: Links, head: Ptr, cmp: Cmp, ghost s: seq<Ptr>)
    returns (next': Links, prev': Links, head': Ptr, tail: Ptr)
    requires List(next, prev, s) && s != [] && head == First(s) && |s| < UNSIGNED_LIMIT
    ensures List(next', prev', SortFrom(s, 1, cmp))
    ensures head' == First(SortFrom(s, 1, cmp)) && tail == Last(SortFrom(s, 1, cmp))
  {
    hide List, Pass;
    next', prev', head', tail := next, prev, head, NULL;
    var insize, looping, list: Ptr := 1, true, head;
    ghost var t := s;
    while looping
      invariant |t| == |s| && 0 <= insize
      invariant List(next', prev', t)
      invariant looping ==> 0 < insize <= |s| && list == First(t) && SortFrom(t, insize, cmp) == SortFrom(s, 1, cmp)
      invariant !looping ==> t == SortFrom(s, 1, cmp) && head' == First(t) && tail == Last(t)
      decreases if looping then |s| + 1 - insize else 0
    {
      var nmerges;
      next', prev', list, tail, nmerges := SortPass(next', prev', list, insize, cmp, t);
      t := Pass(t, insize, cmp);
      if nmerges <= 1 {
        looping := false;
        head' := list;
      }
      insize := insize * 2 % UNSIGNED_LIMIT;
    }
  }

  /** HASH_SORT on a table: the application order becomes the sorted one, and the
      buckets are untouched. */
  method Sort<Key(==)>(t: UtHash<Key>, cmp: Cmp)
    requires t.Fsck() && |t.order| < UNSIGNED_LIMIT
    modifies t`next, t`prev, t`head, t`tbl, t`order
    ensures t.Fsck() && t.order == SortFrom(old(t.order), 1, cmp)
    ensures t.head != NULL ==> t.tbl == old(t.tbl).(tail := t.tbl.tail)
    ensures TotalPreorder(cmp) ==> Sorted(t.order, cmp) && StablePermutation(old(t.order), t.order, cmp)
  {
    hide SortFrom, Sorted, StablePermutation, TotalPreorder, List, SameItems, BucketsFsck, Adaptive;
    if TotalPreorder(cmp) {
      SortCorrect(t.order, cmp);
    }
    SortEmpty(cmp);
    if t.head != NULL {
      ghost var order' := SortFrom(t.order, 1, cmp);
      SortFromMembers(t.order, 1, cmp);
      Resorted(t, order');
      var next, prev, head, tail := HashSrt(t.next, t.prev, t.head, cmp, t.order);
      TableRest(t.hhNext, t.hhPrev, t.hashv, t.tbl, t.chains, tail, t.tbl.numItems);
      t.next, t.prev, t.head := next, prev, head;
      t.tbl := t.tbl.(tail := tail);
      t.order := order';
    }
  }

  lemma SortEmpty(cmp: Cmp)
    ensures SortFrom([], 1, cmp) == []
  {
  }

  lemma {:induction false} SortFromMembers(s: seq<Ptr>, w: nat, cmp: Cmp)
    requires w > 0
    ensures multiset(SortFrom(s, w, cmp)) == multiset(s)
    decreases if |s| > w then |s| - w else 0
  {
    PassMembers(s, w, cmp);
    if |s| > 2 * w {
      SortFromMembers(Pass(s, w, cmp), 2 * w, cmp);
    }
  }

  /** A permutation of the application order holds the same items. */
  lemma Resorted<Key>(t: UtHash<Key>, order': seq<Ptr>)
    requires t.Fsck() && t.head != NULL && multiset(order') == multiset(t.order)
    ensures SameItems(t.hashv, t.chains, order', t.tbl.numItems)
    ensures order' != [] && NULL !in order' && forall x :: x in order' <==> x in t.order
  {
    InOrderNotNull(t);
    assert |multiset(order')| == |order'| && |multiset(t.order)| == |t.order|;
    forall x
      ensures x in order' <==> x in t.order
    {
      assert x in multiset(order') <==> x in multiset(t.order);
    }
  }
}

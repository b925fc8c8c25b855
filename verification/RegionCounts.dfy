/** Reference counts of regions: bump_ref_count and the cascading free_region.
    Regions are numbered in order of allocation; a region stands for the footer of
    its first chunk, where its outset hangs. The cells of an outset are freed from the
    front while the footer goes on pointing at the first one; a method that would touch
    a freed cell or footer returns ok == false. */
module RegionCounts {

  const REG_FREED := -100 // the count of a region whose chunks are gone

  type Outsets = seq<seq<nat>>

  /** How many entries of the outsets name region a. */
  function Named(outsets: Outsets, a: nat): nat {
    if outsets == [] then 0 else multiset(outsets[0])[a] + Named(outsets[1..], a)
  }

  function Entries(outsets: Outsets): nat {
    if outsets == [] then 0 else |outsets[0]| + Entries(outsets[1..])
  }

  lemma {:induction false} UpdateCounts(outsets: Outsets, b: nat, s: seq<nat>, a: nat)
    requires b < |outsets|
    ensures Named(outsets[b := s], a) == Named(outsets, a) - multiset(outsets[b])[a] + multiset(s)[a]
    ensures Entries(outsets[b := s]) == Entries(outsets) - |outsets[b]| + |s|
    ensures Named(outsets, a) >= multiset(outsets[b])[a]
  {
    if b > 0 {
      assert outsets[b := s][1..] == outsets[1..][b - 1 := s];
      UpdateCounts(outsets[1..], b - 1, s, a);
    } else {
      assert outsets[b := s][1..] == outsets[1..];
    }
  }

  lemma {:induction false} AppendCounts(outsets: Outsets, a: nat)
    ensures Named(outsets + [[]], a) == Named(outsets, a)
  {
    if outsets == [] {
      assert outsets + [[]] == [[]];
    } else {
      assert (outsets + [[]])[1..] == outsets[1..] + [[]];
      AppendCounts(outsets[1..], a);
    }
  }

  lemma {:induction false} NobodyNames(outsets: Outsets, r: nat)
    requires EntriesBelow(outsets, r)
    ensures Named(outsets, r) == 0
  {
    if outsets != [] {
      assert Below(outsets[0], r);
      assert r !in outsets[0];
      assert r !in multiset(outsets[0]);
      forall b | 0 <= b < |outsets[1..]|
        ensures Below(outsets[1..][b], r)
      {
        assert Below(outsets[b + 1], r);
      }
      NobodyNames(outsets[1..], r);
    }
  }

  ghost predicate Below(s: seq<nat>, n: nat) {
    forall x :: x in s ==> x < n
  }

  ghost predicate EntriesBelow(outsets: Outsets, n: nat) {
    forall b :: 0 <= b < |outsets| ==> Below(outsets[b], n)
  }

  /** The count of a region that is not freed is the number of live entries naming
      it; none names a freed region, which has no entries either. */
  ghost predicate CountOk(refcount: seq<int>, live: Outsets, a: nat)
    requires a < |refcount| == |live|
  {
    if refcount[a] == REG_FREED then Named(live, a) == 0 && live[a] == []
    else refcount[a] == Named(live, a)
  }

  ghost predicate Conserved(refcount: seq<int>, live: Outsets) {
    && |refcount| == |live| && EntriesBelow(live, |refcount|)
    && forall a :: 0 <= a < |refcount| ==> CountOk(refcount, live, a)
  }

  /** Cells not freed yet are live. In regions in `busy`, which are being freed, the
      first of them has been taken back from the counts but not yet been deleted. */
  ghost predicate LiveCells(refcount: seq<int>, outset: Outsets, gone: seq<nat>, live: Outsets, busy: set<nat>) {
    && |refcount| == |outset| == |gone| == |live|
    && (forall b :: 0 <= b < |outset| ==> gone[b] <= |outset[b]|)
    && (forall b :: 0 <= b < |live| && b !in busy ==> live[b] == outset[b][gone[b]..])
    && (forall b :: b in busy ==>
          b < |live| && refcount[b] != REG_FREED && gone[b] < |outset[b]| && live[b] == outset[b][gone[b] + 1..])
  }

  /** Every freed region has been freed once. */
  ghost predicate FreedOnce(refcount: seq<int>, frees: seq<nat>) {
    && (forall i, j :: 0 <= i < j < |frees| ==> frees[i] != frees[j])
    && (forall a :: a in frees ==> a < |refcount|)
    && (forall a :: 0 <= a < |refcount| ==> (a in frees <==> refcount[a] == REG_FREED))
  }

  ghost predicate Books(refcount: seq<int>, outset: Outsets, gone: seq<nat>, live: Outsets, frees: seq<nat>, busy: set<nat>) {
    Conserved(refcount, live) && LiveCells(refcount, outset, gone, live, busy) && FreedOnce(refcount, frees)
  }

  /** No region that is still there points at a freed cell. */
  ghost predicate NoneDangling(refcount: seq<int>, gone: seq<nat>, busy: set<nat>)
    requires |refcount| == |gone|
  {
    forall b :: 0 <= b < |refcount| && b !in busy && refcount[b] != REG_FREED ==> gone[b] == 0
  }

  /** The sum of the positive counts: what bounds the cascade, in any state. */
  function Positive(refcount: seq<int>): nat {
    if refcount == [] then 0 else (if refcount[0] > 0 then refcount[0] else 0) + Positive(refcount[1..])
  }

  lemma {:induction false} PositiveUpdate(refcount: seq<int>, a: nat, c: int)
    requires a < |refcount|
    ensures c <= refcount[a] ==> Positive(refcount[a := c]) <= Positive(refcount)
    ensures c < refcount[a] && refcount[a] > 0 ==> Positive(refcount[a := c]) < Positive(refcount)
  {
    if a > 0 {
      assert refcount[a := c][1..] == refcount[1..][a - 1 := c];
      PositiveUpdate(refcount[1..], a - 1, c);
    } else {
      assert refcount[a := c][1..] == refcount[1..];
    }
  }

  /** Who is named at all in kept is named by one of kept whose cells are not being walked. */
  ghost predicate Stable(live: Outsets, kept: set<nat>, walked: set<nat>) {
    forall a :: a in kept ==> Named(live, a) == 0 || Supported(live, kept, walked, a)
  }

  ghost predicate Supported(live: Outsets, kept: set<nat>, walked: set<nat>, a: nat) {
    exists b :: b in kept && b !in walked && b < |live| && a in live[b]
  }

  /** None of kept is freed or will be, and no footer points at a freed cell but those of
      the regions whose outsets are being walked. */
  ghost predicate Quiet(refcount: seq<int>, gone: seq<nat>, live: Outsets, walked: set<nat>, kept: set<nat>) {
    && |refcount| == |gone| == |live| && walked <= kept
    && (forall a :: a in kept ==> a < |refcount| && refcount[a] != REG_FREED)
    && Stable(live, kept, walked) && NoneDangling(refcount, gone, walked)
  }

  ghost predicate Spared(refcount: seq<int>, kept: set<nat>, r: nat) {
    forall a :: a in kept && a != r ==> a < |refcount| && refcount[a] != REG_FREED
  }

  /** Freed memory a run has met: the ith cell of a region's outset, or a footer. */
  datatype Touch = Cell(region: nat, i: nat) | Footer(region: nat)

  ghost predicate Met(t: Touch, refcount: seq<int>, gone: seq<nat>) {
    match t
    case Cell(b, i) => b < |gone| && i < gone[b]
    case Footer(b) => b < |refcount| && refcount[b] == REG_FREED
  }

  ghost predicate SameGone(gone0: seq<nat>, gone: seq<nat>, busy: set<nat>) {
    |gone| == |gone0| && forall b :: b in busy && b < |gone| ==> gone[b] == gone0[b]
  }

  ghost predicate Grows(gone0: seq<nat>, gone: seq<nat>) {
    |gone| == |gone0| && forall b :: 0 <= b < |gone| ==> gone0[b] <= gone[b]
  }

  class Regions {
    var refcount: seq<int>
    var outset: Outsets
    var gone: seq<nat>          // how many cells of each outset have been freed
    ghost var live: Outsets     // the entries whose effect on the counts is in force
    ghost var frees: seq<nat>   // regions freed so far

    /** Whatever the counts: the fields fit together. */
    ghost predicate Shape()
      reads this
    {
      |refcount| == |outset| == |gone| == |live| && EntriesBelow(outset, |refcount|)
    }

    ghost predicate Valid(busy: set<nat>)
      reads this
    {
      Shape() && Books(refcount, outset, gone, live, frees, busy)
    }

    /** Counts are conserved, and no footer points at freed memory. */
    ghost predicate Sound()
      reads this
    {
      Valid({}) && NoneDangling(refcount, gone, {})
    }

    constructor ()
      ensures Sound() && refcount == []
    {
      refcount, outset, gone, live, frees := [], [], [], [], [];
    }

    /** alloc_region: a new region, referred to by nobody. */
    method AllocRegion() returns (r: nat)
      requires Sound()
      modifies this
      ensures Sound() && r == |old(refcount)|
      ensures refcount == old(refcount) + [0] && outset == old(outset) + [[]] && frees == old(frees)
    {
      r := |refcount|;
      NewRegion(refcount, live);
      NewOutset(outset, |refcount|);
      hide Conserved, EntriesBelow;
      refcount := refcount + [0];
      outset := outset + [[]];
      gone := gone + [0];
      live := live + [[]];
    }

    /** b points to a from now on. The old count is returned. */
    method BumpRefCount(b: nat, a: nat) returns (count: int)
      requires Sound() && a < |refcount| && b < |refcount|
      requires refcount[a] != REG_FREED && refcount[b] != REG_FREED
      modifies this
      ensures Sound() && count == old(refcount[a])
      ensures refcount == old(refcount)[a := count + 1] && outset == old(outset)[b := old(outset[b]) + [a]]
      ensures frees == old(frees)
    {
      count := refcount[a];
      NewPointer(refcount, live, b, a);
      NewEntry(outset, |refcount|, b, a);
      hide Conserved, EntriesBelow;
      refcount := refcount[a := count + 1];
      outset := outset[b := outset[b] + [a]];
      live := live[b := live[b] + [a]];
    }

    /** Everything is as the cascade needs it: no region being walked can come up again. */
    ghost predicate Calm(r: nat, busy: set<nat>, kept: set<nat>)
      reads this
    {
      Valid(busy) && r < |refcount| && r !in busy && Quiet(refcount, gone, live, busy + {r}, kept)
    }

    /** free_region, on any region in any state; `busy` are the regions whose outsets
        are being walked further up. A cell of theirs that this call frees will be
        touched there again. `met` is the freed memory it runs into otherwise. */
    method FreeRegion(r: nat, ghost busy: set<nat>, ghost kept: set<nat>) returns (ok: bool, ghost met: Touch)
      requires Shape() && r < |refcount|
      modifies `refcount, `gone, `live, `frees
      ensures Shape() && |refcount| == |old(refcount)| && Grows(old(gone), gone) && Positive(refcount) <= old(Positive(refcount))
      ensures ok && outset[r] != [] ==> old(gone)[r] == 0 && gone[r] == |outset[r]|
      ensures !ok ==> Met(met, refcount, gone) && Reaches(outset, r, met.region)
      ensures old(Valid(busy)) && r !in busy && old(refcount)[r] != REG_FREED && ok && SameGone(old(gone), gone, busy) ==>
                && Valid(busy) && Effect(old(refcount), old(gone), old(live), refcount, gone, live, r)
                && (old(refcount)[r] == 0 <==> refcount[r] == REG_FREED)
                && OnlyReachable(old(refcount), outset, r, refcount)
      ensures old(Calm(r, busy, kept)) && old(gone)[r] == 0 ==>
                ok && SameGone(old(gone), gone, busy) && Spared(refcount, kept, r)
      ensures old(refcount)[r] > 0 && outset[r] == [] ==> ok && refcount == old(refcount) && gone == old(gone) && live == old(live)
      decreases Positive(refcount), 3
    {
      hide Books, Progress, OnlyReachable, Effect, EntriesBelow, NoneDangling, Grows, SameGone, Positive, Quiet, Spared, Reaches;
      ok, met := false, Footer(r);
      ReachesItself(outset, r);
      GrowsSelf(gone, busy);
      ghost var good := Valid(busy) && r !in busy;
      ghost var calm := Calm(r, busy, kept) && gone[r] == 0;
      if calm {
        QuietSelf(refcount, gone, live, busy + {r}, kept, r);
      }
      if refcount[r] == REG_FREED {
        return; // its footer has been freed
      }
      Started(refcount, outset, gone, live, busy, r);
      var i := 0;
      while i < |outset[r]|
        invariant Shape() && |refcount| == |old(refcount)| && Grows(old(gone), gone)
        invariant Positive(refcount) <= old(Positive(refcount))
        invariant i <= |outset[r]| && (i > 0 ==> old(gone)[r] == 0 && gone[r] == i)
        invariant i == 0 ==> refcount == old(refcount) && gone == old(gone) && live == old(live) && frees == old(frees)
        invariant good && SameGone(old(gone), gone, busy) ==>
                    && Books(refcount, outset, gone, live, frees, busy)
                    && Progress(old(refcount), old(gone), old(live), refcount, gone, live, outset, r)
        invariant calm ==> SameGone(old(gone), gone, busy) && Quiet(refcount, gone, live, busy + {r}, kept)
      {
        ghost var refcount1, gone1, live1 := refcount, gone, live;
        if good && SameGone(old(gone), gone, busy) {
          ProgressFacts(old(refcount), old(gone), old(live), refcount, gone, live, outset, r);
        }
        var dropped;
        dropped, met := DropCell(r, i, busy, kept);
        GrowsStep(old(gone), gone1, gone, busy);
        if !dropped {
          return;
        }
        if good && SameGone(old(gone), gone, busy) {
          ProgressStep(old(refcount), old(gone), old(live), refcount1, gone1, live1, refcount, gone, live, outset, r);
        }
        i := i + 1;
      }
      if good && SameGone(old(gone), gone, busy) {
        CellsInRange(refcount, outset, gone, live, frees, busy, r);
        ProgressFacts(old(refcount), old(gone), old(live), refcount, gone, live, outset, r);
        Finished(refcount, outset, gone, live, frees, busy, r);
        ProgressLast(old(refcount), old(gone), old(live), refcount, gone, live, outset, r);
      }
      if calm {
        QuietSpares(refcount, gone, live, busy + {r}, kept, r);
      }
      PositiveUpdate(refcount, r, REG_FREED);
      if refcount[r] == 0 {
        frees := frees + [r];
        refcount := refcount[r := REG_FREED];
      }
      ok := true;
    }

    /** free_region from outside. It touches no freed memory if and only if nobody points
        to the region, or it points to nobody, or somebody points to it whom the cascade
        does not free. Then it frees exactly the regions that nobody else keeps, and every
        pointer of the regions freed, and of the region itself, has been taken back. */
    method FreeRoot(r: nat) returns (ok: bool)
      requires Sound() && r < |refcount| && refcount[r] != REG_FREED
      modifies `refcount, `gone, `live, `frees
      ensures ok <==> old(refcount)[r] == 0 || outset[r] == [] || old(Held(live, r))
      ensures Shape() && |refcount| == |old(refcount)|
      ensures ok ==> gone[r] == |outset[r]|
      ensures ok ==> forall a :: 0 <= a < |refcount| ==>
                       (refcount[a] == REG_FREED <==>
                        old(refcount)[a] == REG_FREED || a in Doomed(old(live), r, {}) || (a == r && old(refcount)[r] == 0))
      ensures ok ==> Valid({})
      ensures ok ==> forall b :: 0 <= b < |live| ==> live[b] == if b == r || refcount[b] == REG_FREED then [] else old(live)[b]
      ensures ok && Sound() <==> old(refcount)[r] == 0 || outset[r] == []
      ensures old(refcount)[r] == 0 ==> OnlyReachable(old(refcount), outset, r, refcount)
    {
      hide Books, OnlyReachable, EntriesBelow, Effect, Held, Doomed, Quiet, Spared;
      ghost var kept := Others(refcount, live, r);
      NotNegative(refcount, outset, gone, live, frees, r);
      if refcount[r] == 0 || Held(live, r) {
        QuietAtFirst(refcount, outset, gone, live, frees, r);
      }
      ghost var met;
      ok, met := FreeRegion(r, {}, kept);
      if ok {
        AllTakenBack(old(refcount), old(gone), old(live), old(frees), refcount, outset, gone, live, frees, r);
        if old(refcount)[r] == 0 || old(Held(live, r)) {
          NoneElse(old(refcount), old(live), refcount, r);
        } else {
          NoneDoomed(old(live), r);
        }
        FreedExactly(old(refcount), old(gone), old(live), refcount, gone, live, r);
        SoundAfter(old(refcount), old(gone), old(live), refcount, gone, live, r);
      }
    }

    /** A region with a count keeps pointing at its freed cells: freeing it once more,
        as when its count drops to 0 later, touches them. */
    method FreeTwice(r: nat) returns (first: bool, second: bool)
      requires Sound() && r < |refcount| && refcount[r] > 0 && outset[r] != []
      modifies `refcount, `gone, `live, `frees
      ensures first <==> old(Held(live, r))
      ensures first ==> !second
    {
      first := FreeRoot(r);
      ghost var met;
      second, met := FreeRegion(r, {}, {});
    }

    /** A region that is named by itself alone runs into its own freed cell at once. */
    method FreeSelfNamed(r: nat) returns (ok: bool)
      requires Sound() && r < |refcount| && refcount[r] == multiset(outset[r])[r] > 0
      modifies `refcount, `gone, `live, `frees
      ensures !ok
    {
      SelfNamed(refcount, outset, gone, live, frees, r);
      ok := FreeRoot(r);
    }

    /** The pointer to elt in the cell is given up. */
    method TakeBack(r: nat, i: nat, elt: nat, ghost busy: set<nat>, ghost kept: set<nat>)
      requires Shape() && r < |refcount| && i < |outset[r]| && elt == outset[r][i] && elt < |refcount|
      modifies `refcount, `live
      ensures refcount == old(refcount)[elt := old(refcount)[elt] - 1]
      ensures live == old(live)[r := if old(live)[r] == [] then [] else old(live)[r][1..]]
      ensures Positive(refcount) <= old(Positive(refcount)) && (refcount[elt] == 0 ==> Positive(refcount) < old(Positive(refcount)))
      ensures old(Valid(busy)) && r !in busy && old(refcount)[r] != REG_FREED && gone[r] == i ==>
                && old(refcount)[elt] >= 1 && (old(refcount)[r] == 0 ==> elt != r) && old(live)[r] != []
                && Books(refcount, outset, gone, live, frees, busy + {r})
      ensures old(Calm(r, busy, kept)) && gone[r] == i ==>
                && Quiet(refcount, gone, live, busy + {r}, kept)
                && (refcount[elt] == 0 ==>
                      elt !in kept && gone[elt] == 0 && Quiet(refcount, gone, live, busy + {r} + {elt}, kept + {elt}))
    {
      hide Books, Quiet, Positive, EntriesBelow;
      if Valid(busy) && r !in busy && refcount[r] != REG_FREED && gone[r] == i {
        Begun(refcount, outset, gone, live, frees, busy, r);
        if Calm(r, busy, kept) {
          CalmNext(refcount, outset, gone, live, frees, busy, kept, r);
        }
      }
      if Calm(r, busy, kept) {
        QuietSelf(refcount, gone, live, busy + {r}, kept, r);
      }
      PositiveUpdate(refcount, elt, refcount[elt] - 1);
      refcount := refcount[elt := refcount[elt] - 1];
      live := live[r := if live[r] == [] then [] else live[r][1..]];
    }

    /** The loop body of free_region on cell i: the region it names loses a pointer, and
        is freed if that was the last one; then the cell is deleted and freed. */
    method DropCell(r: nat, i: nat, ghost busy: set<nat>, ghost kept: set<nat>) returns (ok: bool, ghost met: Touch)
      requires Shape() && r < |refcount| && i < |outset[r]| && i <= gone[r]
      modifies `refcount, `gone, `live, `frees
      ensures Shape() && |refcount| == |old(refcount)| && Grows(old(gone), gone) && Positive(refcount) <= old(Positive(refcount))
      ensures ok ==> old(gone)[r] == i && gone[r] == i + 1
      ensures !ok ==> Met(met, refcount, gone) && Reaches(outset, r, met.region)
      ensures old(Valid(busy)) && r !in busy && old(refcount)[r] != REG_FREED && old(gone)[r] == i
              && ok && SameGone(old(gone), gone, busy) ==>
                && Books(refcount, outset, gone, live, frees, busy)
                && Progress(old(refcount), old(gone), old(live), refcount, gone, live, outset, r)
      ensures old(Calm(r, busy, kept)) && old(gone)[r] == i ==>
                ok && SameGone(old(gone), gone, busy) && Quiet(refcount, gone, live, busy + {r}, kept)
      decreases Positive(refcount), 2
    {
      hide Books, Progress, OnlyReachable, Effect, EntriesBelow, Grows, SameGone, Positive, Quiet, Spared, Reaches, LostOne, NoneDangling,
           PointerDropped;
      ok, met := false, Cell(r, i);
      ReachesItself(outset, r);
      GrowsSelf(gone, busy);
      if i < gone[r] {
        return; // the cell has been freed before
      }
      var elt := outset[r][i];
      InRange(outset, |refcount|, r, i);
      ghost var good := Valid(busy) && r !in busy && refcount[r] != REG_FREED && gone[r] == i;
      ghost var calm := Calm(r, busy, kept) && gone[r] == i;
      if calm {
        QuietSelf(refcount, gone, live, busy + {r}, kept, r);
      }
      ghost var refcount0, gone0, live0, frees0 := refcount, gone, live, frees;
      if refcount[elt] == REG_FREED {
        if good {
          Begun(refcount, outset, gone, live, frees, busy, r);
        }
        met := Footer(elt);
        ReachesNext(outset, r, elt, elt);
        return; // so has the footer it refers to
      }
      ghost var refcount1, live1;
      ok, met, refcount1, live1 := DropPointer(r, i, elt, busy, kept);
      if !ok {
        return;
      }
      if calm {
        SameGoneAt(gone0, gone, busy + {r}, r);
      }
      if gone[r] != i {
        GoneMore(gone0, gone, r);
        ok, met := false, Cell(r, i);
        return; // the cell has been freed meanwhile
      }
      CellDone(good, calm, refcount0, gone0, live0, refcount1, live1, frees0, refcount, outset, gone, live, frees, busy, kept, r, elt);
      gone := gone[r := i + 1];
    }

    /** The pointer in the cell is given up, and elt freed if it was the last one. */
    method DropPointer(r: nat, i: nat, elt: nat, ghost busy: set<nat>, ghost kept: set<nat>)
      returns (ok: bool, ghost met: Touch, ghost refcount1: seq<int>, ghost live1: Outsets)
      requires Shape() && r < |refcount| && i < |outset[r]| && elt == outset[r][i] && elt < |refcount| && gone[r] == i
      modifies `refcount, `gone, `live, `frees
      ensures Shape() && |refcount| == |old(refcount)| && Grows(old(gone), gone) && Positive(refcount) <= old(Positive(refcount))
      ensures !ok ==> Met(met, refcount, gone) && Reaches(outset, r, met.region)
      ensures ok ==> PointerDropped(old(Valid(busy)) && r !in busy && old(refcount)[r] != REG_FREED, old(Calm(r, busy, kept)),
                                    old(refcount), old(gone), old(live), refcount1, live1, old(frees),
                                    refcount, outset, gone, live, frees, busy, kept, r, elt)
      ensures old(Calm(r, busy, kept)) ==> ok && SameGone(old(gone), gone, busy + {r})
      decreases Positive(refcount), 1
    {
      hide Books, Progress, OnlyReachable, Effect, EntriesBelow, Grows, SameGone, Positive, Quiet, Spared, Reaches, LostOne, NoneDangling;
      if Calm(r, busy, kept) {
        QuietSelf(refcount, gone, live, busy + {r}, kept, r);
      }
      TakeBack(r, i, elt, busy, kept);
      refcount1, live1 := refcount, live;
      ok, met := FreeIfLast(r, elt, busy, kept);
    }

    /** elt, which r points to, has lost a pointer; with the last one it is freed. */
    method FreeIfLast(r: nat, elt: nat, ghost busy: set<nat>, ghost kept: set<nat>) returns (ok: bool, ghost met: Touch)
      requires Shape() && r < |refcount| && elt < |refcount| && elt in outset[r]
      modifies `refcount, `gone, `live, `frees
      ensures Shape() && |refcount| == |old(refcount)| && Grows(old(gone), gone) && Positive(refcount) <= old(Positive(refcount))
      ensures !ok ==> Met(met, refcount, gone) && Reaches(outset, r, met.region)
      ensures ok && old(refcount)[elt] == 0 && outset[elt] != [] ==> old(gone)[elt] == 0 < gone[elt]
      ensures old(Valid(busy + {r})) && ok ==>
                LostOne(old(refcount), old(gone), old(live), old(frees), refcount, outset, gone, live, frees, busy, r, elt)
      ensures old(Valid(busy + {r})) && old(Quiet(refcount, gone, live, busy + {r}, kept))
              && (old(refcount)[elt] == 0 ==>
                    elt !in kept && old(gone)[elt] == 0 && old(Quiet(refcount, gone, live, busy + {r} + {elt}, kept + {elt}))) ==>
                ok && SameGone(old(gone), gone, busy + {r}) && (old(refcount)[elt] == 0 ==> Spared(refcount, kept + {elt}, elt))
      decreases Positive(refcount) + (if refcount[elt] == 0 then 1 else 0), 0
    {
      hide Books, OnlyReachable, Effect, EntriesBelow, Grows, SameGone, Positive, Quiet, Spared, Reaches, NoneDangling;
      ok, met := true, Footer(r);
      GrowsSelf(gone, busy + {r});
      if Quiet(refcount, gone, live, busy + {r}, kept) {
        QuietSelf(refcount, gone, live, busy + {r}, kept, r);
      }
      if refcount[elt] == 0 {
        ok, met := FreeRegion(elt, busy + {r}, kept + {elt});
        if !ok {
          ReachesNext(outset, r, elt, met.region);
        }
      }
    }
  }

  /** What has become of the state when elt has lost a pointer from the cell r is at. */
  ghost predicate LostOne(refcount1: seq<int>, gone1: seq<nat>, live1: Outsets, frees1: seq<nat>, refcount: seq<int>, outset: Outsets,
                          gone: seq<nat>, live: Outsets, frees: seq<nat>, busy: set<nat>, r: nat, elt: nat) {
    && elt < |refcount| == |refcount1|
    && (refcount1[elt] != 0 ==> (refcount, gone, live, frees) == (refcount1, gone1, live1, frees1))
    && (refcount1[elt] == 0 && elt !in busy + {r} && SameGone(gone1, gone, busy + {r}) ==>
          && Books(refcount, outset, gone, live, frees, busy + {r}) && Effect(refcount1, gone1, live1, refcount, gone, live, elt)
          && refcount[elt] == REG_FREED && OnlyReachable(refcount1, outset, elt, refcount))
  }

  /** The entry of a cell has been taken back, and elt is freed if it was the last one. */
  ghost predicate PointerDropped(good: bool, calm: bool, refcount0: seq<int>, gone0: seq<nat>, live0: Outsets, refcount1: seq<int>,
                                 live1: Outsets, frees0: seq<nat>, refcount: seq<int>, outset: Outsets, gone: seq<nat>,
                                 live: Outsets, frees: seq<nat>, busy: set<nat>, kept: set<nat>, r: nat, elt: nat) {
    && |refcount0| == |gone0| == |live0| == |refcount1| == |refcount| == |gone| == |live| == |outset|
    && r < |refcount| && elt < |refcount| && elt in outset[r] && Grows(gone0, gone)
    && refcount1 == refcount0[elt := refcount0[elt] - 1]
    && (refcount1[elt] == 0 && outset[elt] != [] ==> gone0[elt] == 0 < gone[elt])
    && (good ==>
          && r !in busy && refcount0[elt] >= 1 && live0[r] != [] && refcount0[r] != REG_FREED
          && live1 == live0[r := live0[r][1..]] && Books(refcount1, outset, gone0, live1, frees0, busy + {r})
          && LostOne(refcount1, gone0, live1, frees0, refcount, outset, gone, live, frees, busy, r, elt))
    && (calm ==>
          && good && Quiet(refcount1, gone0, live1, busy + {r}, kept) && SameGone(gone0, gone, busy + {r})
          && (refcount1[elt] == 0 ==> elt !in kept && Spared(refcount, kept + {elt}, elt)))
  }

  /** The cell can be deleted. */
  lemma CellDone(good: bool, calm: bool, refcount0: seq<int>, gone0: seq<nat>, live0: Outsets, refcount1: seq<int>, live1: Outsets,
                 frees0: seq<nat>, refcount: seq<int>, outset: Outsets, gone: seq<nat>, live: Outsets, frees: seq<nat>,
                 busy: set<nat>, kept: set<nat>, r: nat, elt: nat)
    requires PointerDropped(good, calm, refcount0, gone0, live0, refcount1, live1, frees0,
                            refcount, outset, gone, live, frees, busy, kept, r, elt)
    requires gone[r] == gone0[r]
    ensures Grows(gone0, gone[r := gone[r] + 1])
    ensures good && SameGone(gone0, gone[r := gone[r] + 1], busy) ==>
              && Books(refcount, outset, gone[r := gone[r] + 1], live, frees, busy)
              && Progress(refcount0, gone0, live0, refcount, gone[r := gone[r] + 1], live, outset, r)
    ensures calm ==> SameGone(gone0, gone[r := gone[r] + 1], busy) && Quiet(refcount, gone[r := gone[r] + 1], live, busy + {r}, kept)
  {
    hide Books, Effect, OnlyReachable, Quiet, Spared, Progress, Grows, SameGone;
    NotReentered(refcount1, outset, gone0, live1, frees0, gone, busy, r, elt);
    OneMore(gone0, gone, busy, r);
    if good && SameGone(gone0, gone, busy) {
      Ended(refcount, outset, gone, live, frees, busy, r);
      Round(refcount0, gone0, live0, outset, r, elt, refcount1, refcount, gone, live);
    }
    if calm {
      QuietSelf(refcount1, gone0, live1, busy + {r}, kept, r);
      QuietLater(refcount1, gone0, live1, refcount, outset, gone, live, frees, busy, kept, r, elt);
    }
  }

  /** Two regions that point at each other: neither can be freed. */
  method FreeCycle() returns (ok: bool)
    ensures !ok
  {
    var regions := new Regions();
    var a := regions.AllocRegion();
    var b := regions.AllocRegion();
    var _ := regions.BumpRefCount(a, b);
    var _ := regions.BumpRefCount(b, a);
    CycleNotHeld(regions.live, a, b);
    ok := regions.FreeRoot(a);
  }

  /** A region that points to one and is pointed to by another: the first call on it takes
      its pointer back and frees the region it pointed to; a second one fails. */
  method FreeMiddle() returns (first: bool, second: bool)
    ensures first && !second
  {
    var regions := new Regions();
    var a := regions.AllocRegion();
    var b := regions.AllocRegion();
    var c := regions.AllocRegion();
    var _ := regions.BumpRefCount(b, a);
    var _ := regions.BumpRefCount(c, b);
    MiddleHeld(regions.live, a, b, c);
    first, second := regions.FreeTwice(b);
  }

  lemma CycleNotHeld(live: Outsets, a: nat, b: nat)
    requires |live| == 2 && a == 0 && b == 1 && live[a] == [b] && live[b] == [a]
    ensures !Held(live, a)
  {
    NamedWho(live, b, a);
    assert OnlyNamedBy(live, a, {}, b) && b in Dropped(live, a, {});
    assert b in Dropped(live, a, Doomed(live, a, {}));
  }

  lemma MiddleHeld(live: Outsets, a: nat, b: nat, c: nat)
    requires |live| == 3 && a == 0 && b == 1 && c == 2 && live[a] == [] && live[b] == [a] && live[c] == [b]
    ensures Held(live, b)
  {
    NamedNobody(live, c);
    NeverDoomed(live, b, {}, c);
  }

  /** A region nobody points to is not freed on the way. */
  lemma {:induction false} NeverDoomed(live: Outsets, r: nat, s: set<nat>, a: nat)
    requires Within(s, |live|, r) && a !in s && Named(live, a) == 0
    ensures a !in Doomed(live, r, s)
    decreases Numbers(|live|) - s
  {
    var t := Dropped(live, r, s);
    if !(t <= s) {
      assert exists x :: x in t && x !in s;
      NeverDoomed(live, r, t, a);
    }
  }

  /** A region that points at itself cannot be freed at all. */
  method FreeLoop() returns (ok: bool)
    ensures !ok
  {
    var regions := new Regions();
    var a := regions.AllocRegion();
    var _ := regions.BumpRefCount(a, a);
    assert regions.outset[a] == [a];
    ok := regions.FreeSelfNamed(a);
  }

  lemma NotNegative(refcount: seq<int>, outset: Outsets, gone: seq<nat>, live: Outsets, frees: seq<nat>, r: nat)
    requires Books(refcount, outset, gone, live, frees, {}) && r < |refcount| && refcount[r] != REG_FREED
    ensures refcount[r] >= 0
  {
    assert CountOk(refcount, live, r);
  }

  lemma {:induction false} NamedLess(live0: Outsets, live: Outsets, a: nat)
    requires |live| == |live0| && forall b :: 0 <= b < |live| ==> live[b] == live0[b] || live[b] == []
    ensures Named(live, a) <= Named(live0, a)
  {
    if live != [] {
      NamedLess(live0[1..], live[1..], a);
    }
  }

  lemma InRange(outset: Outsets, n: nat, r: nat, i: nat)
    requires EntriesBelow(outset, n) && r < |outset| && i < |outset[r]|
    ensures outset[r][i] < n
  {
    assert Below(outset[r], n) && outset[r][i] in outset[r];
  }

  lemma GrowsSelf(gone: seq<nat>, busy: set<nat>)
    ensures Grows(gone, gone) && SameGone(gone, gone, busy)
  {
  }

  lemma GrowsStep(gone0: seq<nat>, gone1: seq<nat>, gone2: seq<nat>, busy: set<nat>)
    requires Grows(gone0, gone1) && Grows(gone1, gone2)
    ensures Grows(gone0, gone2)
    ensures SameGone(gone0, gone2, busy) <==> SameGone(gone0, gone1, busy) && SameGone(gone1, gone2, busy)
  {
  }

  lemma Started(refcount: seq<int>, outset: Outsets, gone: seq<nat>, live: Outsets, busy: set<nat>, r: nat)
    requires |refcount| == |outset| == |gone| == |live| && r < |refcount|
    ensures refcount[r] != REG_FREED ==> Progress(refcount, gone, live, refcount, gone, live, outset, r)
    ensures Grows(gone, gone) && SameGone(gone, gone, busy)
  {
  }

  lemma CellsInRange(refcount: seq<int>, outset: Outsets, gone: seq<nat>, live: Outsets, frees: seq<nat>, busy: set<nat>, r: nat)
    requires Books(refcount, outset, gone, live, frees, busy) && r < |refcount|
    ensures gone[r] <= |outset[r]|
  {
  }

  /** If the region elt was being freed already, its first cell is gone now. */
  lemma NotReentered(refcount: seq<int>, outset: Outsets, gone0: seq<nat>, live: Outsets, frees: seq<nat>, gone: seq<nat>,
                     busy: set<nat>, r: nat, elt: nat)
    requires |gone0| == |gone| == |outset| && elt < |gone|
    ensures Books(refcount, outset, gone0, live, frees, busy + {r}) && elt in busy + {r} ==> outset[elt] != []
    ensures elt in busy && gone0[elt] < gone[elt] ==> !SameGone(gone0, gone, busy)
    ensures r < |gone| ==> (SameGone(gone0, gone, busy) && gone[r] == gone0[r] <==> SameGone(gone0, gone, busy + {r}))
  {
  }

  lemma OneMore(gone0: seq<nat>, gone: seq<nat>, busy: set<nat>, r: nat)
    requires Grows(gone0, gone) && r < |gone|
    ensures Grows(gone0, gone[r := gone[r] + 1])
    ensures r !in busy ==> (SameGone(gone0, gone[r := gone[r] + 1], busy) <==> SameGone(gone0, gone, busy))
  {
  }

  lemma SameGoneAt(gone0: seq<nat>, gone: seq<nat>, s: set<nat>, r: nat)
    requires SameGone(gone0, gone, s) && r in s && r < |gone|
    ensures gone[r] == gone0[r]
  {
  }

  lemma GoneMore(gone0: seq<nat>, gone: seq<nat>, r: nat)
    requires Grows(gone0, gone) && r < |gone| && gone[r] != gone0[r]
    ensures gone0[r] < gone[r]
  {
  }

  lemma QuietSelf(refcount: seq<int>, gone: seq<nat>, live: Outsets, walked: set<nat>, kept: set<nat>, r: nat)
    requires Quiet(refcount, gone, live, walked, kept) && r in walked
    ensures r < |refcount| && refcount[r] != REG_FREED && walked <= kept
  {
  }

  lemma QuietSpares(refcount: seq<int>, gone: seq<nat>, live: Outsets, walked: set<nat>, kept: set<nat>, r: nat)
    requires Quiet(refcount, gone, live, walked, kept) && r < |refcount|
    ensures Spared(refcount, kept, r) && Spared(refcount[r := REG_FREED], kept, r)
  {
  }

  /** In a calm state the region that loses its last pointer is none of kept, and can be
      freed calmly. */
  lemma CalmNext(refcount: seq<int>, outset: Outsets, gone: seq<nat>, live: Outsets, frees: seq<nat>, busy: set<nat>,
                 kept: set<nat>, r: nat)
    requires Books(refcount, outset, gone, live, frees, busy)
    requires r < |refcount| && r !in busy && gone[r] < |outset[r]| && Quiet(refcount, gone, live, busy + {r}, kept)
    ensures var elt := outset[r][gone[r]]; elt < |refcount| && live[r] != []
    ensures var elt := outset[r][gone[r]];
            var refcount', live' := refcount[elt := refcount[elt] - 1], live[r := live[r][1..]];
            && Quiet(refcount', gone, live', busy + {r}, kept)
            && (refcount'[elt] == 0 ==>
                  elt !in kept && gone[elt] == 0 && Quiet(refcount', gone, live', busy + {r} + {elt}, kept + {elt}))
  {
    hide FreedOnce, Named, Supported, Stable, EntriesBelow;
    Begun(refcount, outset, gone, live, frees, busy, r);
    var elt, walked := outset[r][gone[r]], busy + {r};
    var refcount', live' := refcount[elt := refcount[elt] - 1], live[r := live[r][1..]];
    assert CountOk(refcount, live, elt) && CountOk(refcount', live', elt);
    StableLess(live, kept, walked, r, elt);
    if refcount'[elt] == 0 {
      StableMore(live', kept, walked, elt);
    }
  }

  /** An entry of a region that is being walked goes: whoever of kept it names is still
      named by others. */
  lemma StableLess(live: Outsets, kept: set<nat>, walked: set<nat>, r: nat, elt: nat)
    requires Stable(live, kept, walked) && r in walked && r < |live| && live[r] != [] && live[r][0] == elt
    ensures var live' := live[r := live[r][1..]]; Stable(live', kept, walked) && (elt in kept ==> Named(live', elt) != 0)
  {
    hide Named;
    var live' := live[r := live[r][1..]];
    assert live[r] == [elt] + live[r][1..];
    NamedWho(live, elt, r);
    forall a | a in kept
      ensures Named(live', a) == 0 || Supported(live', kept, walked, a)
      ensures a == elt ==> Named(live', a) != 0
    {
      UpdateCounts(live, r, live[r][1..], a);
      if Named(live, a) != 0 {
        var b :| b in kept && b !in walked && b < |live| && a in live[b];
        assert live'[b] == live[b];
        NamedWho(live', a, b);
      }
    }
  }

  lemma StableMore(live: Outsets, kept: set<nat>, walked: set<nat>, elt: nat)
    requires Stable(live, kept, walked) && Named(live, elt) == 0 && elt !in kept
    ensures Stable(live, kept + {elt}, walked + {elt})
  {
    hide Named;
    forall a | a in kept + {elt}
      ensures Named(live, a) == 0 || Supported(live, kept + {elt}, walked + {elt}, a)
    {
      if a != elt && Named(live, a) != 0 {
        var b :| b in kept && b !in walked && b < |live| && a in live[b];
        assert b in kept + {elt} && b !in walked + {elt};
      }
    }
  }

  lemma {:induction false} NamedWho(live: Outsets, a: nat, b: nat)
    requires b < |live| && a in live[b]
    ensures Named(live, a) > 0
  {
    if b > 0 {
      NamedWho(live[1..], a, b - 1);
    } else {
      assert a in multiset(live[0]);
    }
  }

  lemma {:induction false} NamedNobody(live: Outsets, a: nat)
    requires forall b :: 0 <= b < |live| ==> a !in live[b]
    ensures Named(live, a) == 0
  {
    if live != [] {
      assert a !in live[0] && a !in multiset(live[0]);
      forall b | 0 <= b < |live[1..]|
        ensures a !in live[1..][b]
      {
        assert live[1..][b] == live[b + 1];
      }
      NamedNobody(live[1..], a);
    }
  }

  /** A region loses its last pointer and is freed: all stays quiet. */
  lemma QuietLater(refcount1: seq<int>, gone1: seq<nat>, live1: Outsets, refcount: seq<int>, outset: Outsets, gone: seq<nat>,
                   live: Outsets, frees: seq<nat>, busy: set<nat>, kept: set<nat>, r: nat, elt: nat)
    requires Quiet(refcount1, gone1, live1, busy + {r}, kept) && r < |gone| && elt < |refcount|
    requires (refcount, gone, live) == (refcount1, gone1, live1)
             || (Books(refcount, outset, gone, live, frees, busy + {r}) && Effect(refcount1, gone1, live1, refcount, gone, live, elt)
                 && refcount[elt] == REG_FREED && Spared(refcount, kept + {elt}, elt) && elt !in kept)
    ensures Quiet(refcount, gone[r := gone[r] + 1], live, busy + {r}, kept)
  {
    if (refcount, gone, live) != (refcount1, gone1, live1) {
      hide Named;
      forall b | 0 <= b < |live|
        ensures live[b] == live1[b] || live[b] == []
      {
        assert CountOk(refcount, live, b);
      }
      forall a | a in kept
        ensures Named(live, a) == 0 || Supported(live, kept, busy + {r}, a)
      {
        assert a in kept + {elt};
        NamedLess(live1, live, a);
        if Named(live, a) != 0 {
          var b :| b in kept && b !in busy + {r} && b < |live1| && a in live1[b];
          assert b in kept + {elt} && live[b] == live1[b];
        }
      }
    }
  }

  // Which regions a call from outside frees.

  /** Regions that are named, but by none except r and those in s. */
  ghost function Dropped(live: Outsets, r: nat, s: set<nat>): (t: set<nat>)
    ensures forall a :: a in t <==> 0 <= a < |live| && a != r && (a in s || OnlyNamedBy(live, r, s, a))
  {
    set a: nat | a < |live| && a != r && (a in s || OnlyNamedBy(live, r, s, a))
  }

  ghost predicate OnlyNamedBy(live: Outsets, r: nat, s: set<nat>, a: nat) {
    Named(live, a) > 0 && forall b :: 0 <= b < |live| && a in live[b] ==> b == r || b in s
  }

  ghost predicate Within(s: set<nat>, n: nat, r: nat) {
    forall a :: a in s ==> a < n && a != r
  }

  function Numbers(n: nat): (s: set<nat>)
    ensures forall a: nat :: a in s <==> a < n
  {
    if n == 0 then {} else Numbers(n - 1) + {n - 1}
  }

  /** Those whose last pointer goes once r's pointers and those of the regions in s have
      gone, and then the pointers of these, and so on. */
  ghost function Doomed(live: Outsets, r: nat, s: set<nat>): (t: set<nat>)
    requires Within(s, |live|, r)
    ensures s <= t && Within(t, |live|, r) && Dropped(live, r, t) <= t
    decreases Numbers(|live|) - s
  {
    var t := Dropped(live, r, s);
    if t <= s then s
    else
      assert exists a :: a in t && a !in s;
      Doomed(live, r, t)
  }

  /** Somebody points to r whom freeing it would not free. */
  ghost predicate Held(live: Outsets, r: nat) {
    exists b :: 0 <= b < |live| && b != r && b !in Doomed(live, r, {}) && r in live[b]
  }

  /** r, and the regions that will stay. */
  ghost function Others(refcount: seq<int>, live: Outsets, r: nat): (s: set<nat>)
    requires |refcount| == |live|
  {
    (set a: nat | a < |refcount| && refcount[a] != REG_FREED && a !in Doomed(live, r, {})) + {r}
  }

  lemma QuietAtFirst(refcount: seq<int>, outset: Outsets, gone: seq<nat>, live: Outsets, frees: seq<nat>, r: nat)
    requires Books(refcount, outset, gone, live, frees, {}) && NoneDangling(refcount, gone, {})
    requires r < |refcount| && refcount[r] != REG_FREED && (refcount[r] == 0 || Held(live, r))
    ensures Quiet(refcount, gone, live, {} + {r}, Others(refcount, live, r))
  {
    hide Named;
    var kept, doomed := Others(refcount, live, r), Doomed(live, r, {});
    forall a | a in kept
      ensures Named(live, a) == 0 || Supported(live, kept, {} + {r}, a)
    {
      if Named(live, a) != 0 {
        assert CountOk(refcount, live, a);
        if a != r {
          assert a !in Dropped(live, r, doomed);
        }
        var b :| 0 <= b < |live| && a in live[b] && b != r && b !in doomed;
        assert CountOk(refcount, live, b);
        assert b in kept && b !in {} + {r};
      }
    }
  }

  /** When the call has gone well, the pointers of r are gone, and whoever has lost all
      pointers to it is freed. */
  lemma AllTakenBack(refcount0: seq<int>, gone0: seq<nat>, live0: Outsets, frees0: seq<nat>, refcount: seq<int>, outset: Outsets,
                     gone: seq<nat>, live: Outsets, frees: seq<nat>, r: nat)
    requires Books(refcount0, outset, gone0, live0, frees0, {}) && NoneDangling(refcount0, gone0, {})
    requires r < |refcount0| && refcount0[r] != REG_FREED
    requires Books(refcount, outset, gone, live, frees, {}) && Effect(refcount0, gone0, live0, refcount, gone, live, r)
    requires outset[r] != [] ==> gone[r] == |outset[r]|
    requires refcount0[r] == 0 <==> refcount[r] == REG_FREED
    ensures gone[r] == |outset[r]| && live0[r] == outset[r]
    ensures forall b :: 0 <= b < |live| ==> live[b] == if b == r || refcount[b] == REG_FREED then [] else live0[b]
    ensures forall a :: a in Doomed(live0, r, {}) ==> refcount[a] == REG_FREED
    ensures live0[r] != [] && refcount0[r] > 0 ==> Held(live0, r)
  {
    forall b | 0 <= b < |live|
      ensures live[b] == if b == r || refcount[b] == REG_FREED then [] else live0[b]
    {
      assert CountOk(refcount, live, b);
    }
    hide Named;
    DoomedFreed(refcount0, live0, refcount, live, r, {});
    if refcount0[r] > 0 {
      assert CountOk(refcount, live, r) && Named(live, r) > 0;
      if forall b :: 0 <= b < |live| ==> r !in live[b] {
        NamedNobody(live, r);
      }
      var b :| 0 <= b < |live| && r in live[b];
      assert b != r && b !in Doomed(live0, r, {}) && r in live0[b];
    }
  }

  lemma {:induction false} DoomedFreed(refcount0: seq<int>, live0: Outsets, refcount: seq<int>, live: Outsets, r: nat, s: set<nat>)
    requires Conserved(refcount0, live0) && Conserved(refcount, live) && |refcount| == |refcount0| && Within(s, |live0|, r)
    requires forall b :: 0 <= b < |live| ==> live[b] == if b == r || refcount[b] == REG_FREED then [] else live0[b]
    requires forall a :: 0 <= a < |refcount| && refcount[a] == 0 ==> refcount0[a] == 0
    requires forall a :: a in s ==> refcount[a] == REG_FREED
    ensures forall a :: a in Doomed(live0, r, s) ==> refcount[a] == REG_FREED
    decreases Numbers(|live0|) - s
  {
    var t := Dropped(live0, r, s);
    if !(t <= s) {
      assert exists a :: a in t && a !in s;
      forall a | a in t
        ensures refcount[a] == REG_FREED
      {
        if a !in s {
          assert CountOk(refcount0, live0, a) && CountOk(refcount, live, a);
          forall b | 0 <= b < |live|
            ensures a !in live[b]
          {
            assert a in live0[b] ==> b == r || b in s;
          }
          NamedNobody(live, a);
        }
      }
      DoomedFreed(refcount0, live0, refcount, live, r, t);
    }
  }

  lemma FreedExactly(refcount0: seq<int>, gone0: seq<nat>, live0: Outsets, refcount: seq<int>, gone: seq<nat>, live: Outsets, r: nat)
    requires Effect(refcount0, gone0, live0, refcount, gone, live, r) && r < |refcount| && refcount0[r] != REG_FREED
    requires refcount0[r] == 0 <==> refcount[r] == REG_FREED
    requires forall a :: a in Doomed(live0, r, {}) ==> refcount[a] == REG_FREED
    requires forall a :: 0 <= a < |refcount| && a != r && refcount[a] == REG_FREED ==>
               refcount0[a] == REG_FREED || a in Doomed(live0, r, {})
    ensures forall a :: 0 <= a < |refcount| ==>
              (refcount[a] == REG_FREED <==>
               refcount0[a] == REG_FREED || a in Doomed(live0, r, {}) || (a == r && refcount0[r] == 0))
  {
  }

  lemma NoneDoomed(live: Outsets, r: nat)
    requires r < |live| && live[r] == []
    ensures Doomed(live, r, {}) == {}
  {
    forall a | 0 <= a < |live| && a != r
      ensures !OnlyNamedBy(live, r, {}, a)
    {
      if OnlyNamedBy(live, r, {}, a) {
        NamedNobody(live, a);
      }
    }
  }

  lemma SoundAfter(refcount0: seq<int>, gone0: seq<nat>, live0: Outsets, refcount: seq<int>, gone: seq<nat>, live: Outsets, r: nat)
    requires |refcount0| == |gone0| && NoneDangling(refcount0, gone0, {}) && Effect(refcount0, gone0, live0, refcount, gone, live, r)
    requires r < |refcount|
    ensures NoneDangling(refcount, gone, {}) <==> refcount[r] == REG_FREED || gone[r] == 0
  {
  }

  /** Its own pointers do not hold a region. */
  lemma SelfNamed(refcount: seq<int>, outset: Outsets, gone: seq<nat>, live: Outsets, frees: seq<nat>, r: nat)
    requires Books(refcount, outset, gone, live, frees, {}) && NoneDangling(refcount, gone, {})
    requires r < |refcount| && refcount[r] == multiset(outset[r])[r] > 0
    ensures !Held(live, r) && outset[r] != []
  {
    assert live[r] == outset[r] && CountOk(refcount, live, r);
    UpdateCounts(live, r, [], r);
    var others := live[r := []];
    forall b | 0 <= b < |live| && b != r
      ensures r !in live[b]
    {
      if r in live[b] {
        NamedWho(others, r, b);
      }
    }
  }

  /** And nobody else is. */
  lemma NoneElse(refcount0: seq<int>, live0: Outsets, refcount: seq<int>, r: nat)
    requires |refcount| == |refcount0| == |live0| && Spared(refcount, Others(refcount0, live0, r), r)
    ensures forall a :: 0 <= a < |refcount| && a != r && refcount[a] == REG_FREED ==>
              refcount0[a] == REG_FREED || a in Doomed(live0, r, {})
  {
    forall a | 0 <= a < |refcount| && a != r && refcount[a] == REG_FREED
      ensures refcount0[a] == REG_FREED || a in Doomed(live0, r, {})
    {
      assert a !in Others(refcount0, live0, r);
    }
  }

  // One round of the cascade: an entry is taken back, its cell deleted, the region freed.

  lemma Begun(refcount: seq<int>, outset: Outsets, gone: seq<nat>, live: Outsets, frees: seq<nat>, busy: set<nat>, r: nat)
    requires Books(refcount, outset, gone, live, frees, busy)
    requires r < |refcount| && r !in busy && refcount[r] != REG_FREED && gone[r] < |outset[r]|
    ensures var elt := outset[r][gone[r]];
            && elt < |refcount| && refcount[elt] >= 1 && (refcount[r] == 0 ==> elt != r)
            && live[r] != []
            && Books(refcount[elt := refcount[elt] - 1], outset, gone, live[r := live[r][1..]], frees, busy + {r})
  {
    assert live[r] == outset[r][gone[r]..];
    assert live[r][1..] == outset[r][gone[r] + 1..];
    TakenBack(refcount, live, frees, r);
    hide Conserved;
  }

  lemma Ended(refcount: seq<int>, outset: Outsets, gone: seq<nat>, live: Outsets, frees: seq<nat>, busy: set<nat>, r: nat)
    requires Books(refcount, outset, gone, live, frees, busy + {r}) && r !in busy
    ensures r < |refcount| == |gone| && refcount[r] != REG_FREED
    ensures Books(refcount, outset, gone[r := gone[r] + 1], live, frees, busy)
  {
  }

  lemma Finished(refcount: seq<int>, outset: Outsets, gone: seq<nat>, live: Outsets, frees: seq<nat>, busy: set<nat>, r: nat)
    requires Books(refcount, outset, gone, live, frees, busy)
    requires r < |refcount| && r !in busy && refcount[r] != REG_FREED && gone[r] == |outset[r]|
    ensures refcount[r] >= 0
    ensures refcount[r] == 0 ==>
      Books(refcount[r := REG_FREED], outset, gone, live, frees + [r], busy)
  {
    assert live[r] == [];
    assert CountOk(refcount, live, r);
    if refcount[r] == 0 {
      AllGone(refcount, live, frees, r);
    }
  }

  /** What a cascade from r does to the other regions: no freed one comes back, a surviving
      one keeps its cells, and none is left without pointers to it that had some before. */
  ghost predicate Effect(refcount0: seq<int>, gone0: seq<nat>, live0: Outsets,
                         refcount: seq<int>, gone: seq<nat>, live: Outsets, r: nat) {
    && |refcount| == |refcount0| == |gone| == |gone0| == |live| == |live0|
    && forall a :: 0 <= a < |refcount| ==>
         && (refcount0[a] == REG_FREED ==> refcount[a] == REG_FREED)
         && (refcount[a] != REG_FREED && a != r ==> gone[a] == gone0[a] && live[a] == live0[a])
         && (refcount[a] != REG_FREED ==> refcount[a] <= refcount0[a])
         && (refcount[a] == 0 ==> refcount0[a] == 0)
  }

  /** The cascade from r is under way. */
  ghost predicate Progress(refcount0: seq<int>, gone0: seq<nat>, live0: Outsets,
                           refcount: seq<int>, gone: seq<nat>, live: Outsets, outset: Outsets, r: nat) {
    && Effect(refcount0, gone0, live0, refcount, gone, live, r) && OnlyReachable(refcount0, outset, r, refcount)
    && r < |refcount| && refcount[r] != REG_FREED
  }

  lemma ProgressFacts(refcount0: seq<int>, gone0: seq<nat>, live0: Outsets,
                      refcount: seq<int>, gone: seq<nat>, live: Outsets, outset: Outsets, r: nat)
    requires Progress(refcount0, gone0, live0, refcount, gone, live, outset, r)
    ensures r < |refcount| && refcount[r] != REG_FREED && (refcount0[r] == 0 ==> refcount[r] <= 0)
  {
  }

  /** One cell of r: elt loses a pointer and is freed if that was the last. */
  lemma Round(refcount0: seq<int>, gone0: seq<nat>, live0: Outsets, outset: Outsets, r: nat, elt: nat,
              refcount1: seq<int>, refcount2: seq<int>, gone2: seq<nat>, live2: Outsets)
    requires |refcount0| == |gone0| == |live0| && r < |refcount0| && r < |outset| && elt in outset[r]
    requires elt < |refcount0| && refcount0[elt] >= 1 && live0[r] != [] && refcount0[r] != REG_FREED
    requires refcount1 == refcount0[elt := refcount0[elt] - 1]
    requires var live1 := live0[r := live0[r][1..]];
             if refcount1[elt] == 0
             then Effect(refcount1, gone0, live1, refcount2, gone2, live2, elt) && refcount2[elt] == REG_FREED
                  && OnlyReachable(refcount1, outset, elt, refcount2)
             else refcount2 == refcount1 && gone2 == gone0 && live2 == live1
    requires r < |refcount2| && refcount2[r] != REG_FREED
    ensures Progress(refcount0, gone0, live0, refcount2, gone2[r := gone2[r] + 1], live2, outset, r)
  {
    ReachedNext(refcount0, outset, r, refcount0, elt, refcount1, refcount2);
  }

  lemma ProgressStep(refcount0: seq<int>, gone0: seq<nat>, live0: Outsets, refcount1: seq<int>, gone1: seq<nat>, live1: Outsets,
                     refcount2: seq<int>, gone2: seq<nat>, live2: Outsets, outset: Outsets, r: nat)
    requires Progress(refcount0, gone0, live0, refcount1, gone1, live1, outset, r)
    requires Progress(refcount1, gone1, live1, refcount2, gone2, live2, outset, r)
    ensures Progress(refcount0, gone0, live0, refcount2, gone2, live2, outset, r)
  {
  }

  lemma ProgressLast(refcount0: seq<int>, gone0: seq<nat>, live0: Outsets,
                     refcount: seq<int>, gone: seq<nat>, live: Outsets, outset: Outsets, r: nat)
    requires Progress(refcount0, gone0, live0, refcount, gone, live, outset, r) && refcount[r] >= 0
    ensures refcount[r] == 0 <==> refcount0[r] == 0
    ensures var refcount' := if refcount[r] == 0 then refcount[r := REG_FREED] else refcount;
            Effect(refcount0, gone0, live0, refcount', gone, live, r) && OnlyReachable(refcount0, outset, r, refcount')
  {
    ReachedSelf(refcount0, outset, r, refcount);
  }

  // Which regions a cascade can reach.

  ghost predicate Path(outset: Outsets, p: seq<nat>) {
    p != [] && forall i :: 0 <= i < |p| - 1 ==> p[i] < |outset| && p[i + 1] in outset[p[i]]
  }

  ghost predicate Reaches(outset: Outsets, r: nat, a: nat) {
    exists p :: Path(outset, p) && p[0] == r && p[|p| - 1] == a
  }

  lemma ReachesItself(outset: Outsets, r: nat)
    ensures Reaches(outset, r, r)
  {
    assert Path(outset, [r]);
  }

  lemma ReachesNext(outset: Outsets, r: nat, elt: nat, a: nat)
    requires r < |outset| && elt in outset[r] && (a == elt || Reaches(outset, elt, a))
    ensures Reaches(outset, r, a)
  {
    if a == elt {
      ReachesItself(outset, a);
    }
    var p :| Path(outset, p) && p[0] == elt && p[|p| - 1] == a;
    var q := [r] + p;
    assert Path(outset, q) && q[0] == r && q[|q| - 1] == a;
  }

  lemma ReachesMore(outset: Outsets, r: nat, b: nat, a: nat)
    requires Reaches(outset, r, b) && b < |outset| && a in outset[b]
    ensures Reaches(outset, r, a)
  {
    var p :| Path(outset, p) && p[0] == r && p[|p| - 1] == b;
    var q := p + [a];
    assert Path(outset, q) && q[0] == r && q[|q| - 1] == a;
  }

  /** One or more pointers lead from r to a. */
  ghost predicate Leads(live: Outsets, r: nat, a: nat) {
    r < |live| && exists e :: e in live[r] && Reaches(live, e, a)
  }

  lemma {:induction false} DoomedReached(live: Outsets, r: nat, s: set<nat>)
    requires r < |live| && Within(s, |live|, r) && forall a :: a in s ==> Leads(live, r, a)
    ensures forall a :: a in Doomed(live, r, s) ==> Leads(live, r, a)
    decreases Numbers(|live|) - s
  {
    hide Path, Named;
    var t := Dropped(live, r, s);
    if !(t <= s) {
      assert exists a :: a in t && a !in s;
      forall a | a in t
        ensures Leads(live, r, a)
      {
        if a !in s {
          if forall b :: 0 <= b < |live| ==> a !in live[b] {
            NamedNobody(live, a);
          }
          var b :| 0 <= b < |live| && a in live[b];
          if b == r {
            ReachesItself(live, a);
          } else {
            var e :| e in live[r] && Reaches(live, e, b);
            ReachesMore(live, e, b, a);
          }
        }
      }
      DoomedReached(live, r, t);
    }
  }

  /** A region with a count that cannot be reached from itself is held by whoever points
      to it. */
  lemma UnreachedHeld(live: Outsets, r: nat)
    requires r < |live| && Named(live, r) > 0 && !Leads(live, r, r)
    ensures Held(live, r)
  {
    hide Path;
    DoomedReached(live, r, {});
    if forall b :: 0 <= b < |live| ==> r !in live[b] {
      NamedNobody(live, r);
    }
    var b :| 0 <= b < |live| && r in live[b];
    if b == r {
      ReachesItself(live, r);
    } else if b in Doomed(live, r, {}) {
      var e :| e in live[r] && Reaches(live, e, b);
      ReachesMore(live, e, b, r);
    }
  }

  /** Only regions reachable from r have been freed. */
  ghost predicate OnlyReachable(refcount0: seq<int>, outset0: Outsets, r: nat, refcount: seq<int>) {
    |refcount| == |refcount0| &&
    forall a :: 0 <= a < |refcount| && refcount[a] == REG_FREED && refcount0[a] != REG_FREED ==> Reaches(outset0, r, a)
  }

  lemma ReachedSelf(refcount0: seq<int>, outset0: Outsets, r: nat, refcount: seq<int>)
    requires OnlyReachable(refcount0, outset0, r, refcount) && r < |refcount|
    ensures OnlyReachable(refcount0, outset0, r, refcount[r := REG_FREED])
  {
    assert Path(outset0, [r]);
  }

  /** What a cascade reaches from elt is reached from r, which names elt. */
  lemma ReachedNext(refcount0: seq<int>, outset: Outsets, r: nat, refcount1: seq<int>, elt: nat, refcount2: seq<int>, refcount3: seq<int>)
    requires OnlyReachable(refcount0, outset, r, refcount1) && r < |outset| && elt in outset[r]
    requires |refcount2| == |refcount1|
    requires forall a :: 0 <= a < |refcount2| && refcount2[a] == REG_FREED ==> refcount1[a] == REG_FREED
    requires refcount3 == refcount2 || OnlyReachable(refcount2, outset, elt, refcount3)
    ensures OnlyReachable(refcount0, outset, r, refcount3)
  {
    forall a | 0 <= a < |refcount3| && refcount3[a] == REG_FREED && refcount0[a] != REG_FREED
      ensures Reaches(outset, r, a)
    {
      if refcount1[a] != REG_FREED {
        ReachesNext(outset, r, elt, a);
      }
    }
  }

  lemma NewOutset(outset: Outsets, n: nat)
    requires EntriesBelow(outset, n)
    ensures EntriesBelow(outset + [[]], n + 1)
  {
    var outset' := outset + [[]];
    forall b | 0 <= b < |outset'|
      ensures Below(outset'[b], n + 1)
    {
      assert b < |outset| ==> Below(outset[b], n);
    }
  }

  lemma NewEntry(outset: Outsets, n: nat, b: nat, a: nat)
    requires EntriesBelow(outset, n) && b < |outset| && a < n
    ensures EntriesBelow(outset[b := outset[b] + [a]], n)
  {
    var outset' := outset[b := outset[b] + [a]];
    forall x | 0 <= x < |outset'|
      ensures Below(outset'[x], n)
    {
      assert Below(outset[x], n);
    }
  }

  lemma NewRegion(refcount: seq<int>, live: Outsets)
    requires Conserved(refcount, live)
    ensures Conserved(refcount + [0], live + [[]])
  {
    var refcount', live' := refcount + [0], live + [[]];
    NobodyNames(live, |refcount|);
    forall a | 0 <= a < |refcount'|
      ensures CountOk(refcount', live', a)
    {
      AppendCounts(live, a);
      assert a < |refcount| ==> CountOk(refcount, live, a);
    }
    forall b | 0 <= b < |live'|
      ensures Below(live'[b], |refcount'|)
    {
      assert b < |live| ==> Below(live[b], |refcount|);
    }
  }

  lemma NewPointer(refcount: seq<int>, live: Outsets, b: nat, a: nat)
    requires Conserved(refcount, live) && a < |refcount| && b < |refcount|
    requires refcount[a] != REG_FREED && refcount[b] != REG_FREED
    ensures refcount[a] >= 0 && Conserved(refcount[a := refcount[a] + 1], live[b := live[b] + [a]])
  {
    var refcount', live' := refcount[a := refcount[a] + 1], live[b := live[b] + [a]];
    assert CountOk(refcount, live, a);
    forall x | 0 <= x < |refcount|
      ensures CountOk(refcount', live', x)
    {
      UpdateCounts(live, b, live[b] + [a], x);
      assert CountOk(refcount, live, x);
    }
    forall x | 0 <= x < |live'|
      ensures Below(live'[x], |refcount|)
    {
      assert Below(live[x], |refcount|);
    }
  }

  /** Taking back the first live entry of a region: the region it names still has a
      positive count, so it is another one if this one's is 0. */
  lemma TakenBack(refcount: seq<int>, live: Outsets, frees: seq<nat>, r: nat)
    requires Conserved(refcount, live) && FreedOnce(refcount, frees)
    requires r < |refcount| && live[r] != []
    ensures var elt := live[r][0];
            && elt < |refcount| && refcount[elt] >= 1 && (refcount[r] == 0 ==> elt != r)
            && Conserved(refcount[elt := refcount[elt] - 1], live[r := live[r][1..]])
            && FreedOnce(refcount[elt := refcount[elt] - 1], frees)
    ensures Entries(live[r := live[r][1..]]) == Entries(live) - 1
  {
    var elt, rest := live[r][0], live[r][1..];
    assert live[r] == [elt] + rest;
    assert forall x :: x in rest ==> x in live[r];
    assert Below(live[r], |refcount|) && elt in live[r];
    assert CountOk(refcount, live, r) && CountOk(refcount, live, elt);
    UpdateCounts(live, r, rest, r);
    UpdateCounts(live, r, rest, elt);
    var refcount', live' := refcount[elt := refcount[elt] - 1], live[r := rest];
    forall a | 0 <= a < |refcount'|
      ensures CountOk(refcount', live', a)
    {
      assert CountOk(refcount, live, a);
      UpdateCounts(live, r, rest, a);
    }
    forall b | 0 <= b < |live'|
      ensures Below(live'[b], |refcount'|)
    {
      assert Below(live[b], |refcount|);
    }
  }

  lemma AllGone(refcount: seq<int>, live: Outsets, frees: seq<nat>, r: nat)
    requires Conserved(refcount, live) && FreedOnce(refcount, frees)
    requires r < |refcount| && refcount[r] == 0 && live[r] == []
    ensures Conserved(refcount[r := REG_FREED], live) && FreedOnce(refcount[r := REG_FREED], frees + [r])
  {
    var refcount' := refcount[r := REG_FREED];
    forall a | 0 <= a < |refcount'|
      ensures CountOk(refcount', live, a)
    {
      assert CountOk(refcount, live, a);
    }
  }
}

/** The chunks of one region: the redirections that lead through them, and the chain
    of their footers. */
module Chains {
  import opened Memory
  import opened Runtime

  /** The footer a redirection's tagged word announces. */
  function FooterOf(w: Word): int {
    Pointer(w) + Tag(w)
  }

  /** The chunks that redirections lead to. */
  function ChunksOf(ws: seq<Word>): seq<GibChunk> {
    seq(|ws|, i requires 0 <= i < |ws| => GibChunk(Pointer(ws[i]), FooterOf(ws[i])))
  }

  lemma ChunksAppend(ws: seq<Word>, ws': seq<Word>)
    ensures ChunksOf(ws + ws') == ChunksOf(ws) + ChunksOf(ws')
  {
  }

  /** The footer at `end` is followed by the one the redirection w announces, whose
      chunk has the size the growth rule gives. */
  ghost predicate Hop(mem: Mem, end: int, w: Word) {
    && Behind(mem, end, FooterOf(w))
    && ChunkSize(mem, FooterOf(w)) == Tag(w) == GrownPayload(InNursery(end), Payload(mem, end))
  }

  /** Following the footers from `end` meets exactly the chunks that the redirections
      ws lead to, in the same order, and stops at `last`. */
  ghost predicate Chain(mem: Mem, end: int, ws: seq<Word>, last: int)
    decreases |ws|
  {
    if ws == [] then end == last
    else Hop(mem, end, ws[0]) && Chain(mem, FooterOf(ws[0]), ws[1..], last)
  }

  /** The footers of such a chain, the last one excepted, lie outside [lo, hi). */
  predicate FootersClear(end: int, ws: seq<Word>, lo: int, hi: int)
    decreases |ws|
  {
    ws == [] || (Clear(end, FooterSize(end), lo, hi) && FootersClear(FooterOf(ws[0]), ws[1..], lo, hi))
  }

  /** They are untouched; the last one may have got a link. */
  ghost predicate FootersKept(mem: Mem, mem': Mem, end: int, ws: seq<Word>)
    decreases |ws|
  {
    if ws == [] then FooterKept(mem, mem', end)
    else FooterSame(mem, mem', end) && FootersKept(mem, mem', FooterOf(ws[0]), ws[1..])
  }

  /** A writer that has not grown leaves the footer alone; otherwise its last chunk is
      an old-generation one that ends the chain. */
  ghost predicate Ended(mem: Mem, mem': Mem, end: int, ws: seq<Word>, last: int) {
    && FooterKept(mem, mem', end)
    && if ws == [] then FooterSame(mem, mem', end)
       else Allocated(mem', last, FOOTER_SIZE) && !InNursery(last) && NextFooter(mem', last) == 0
  }

  /** The bytes of the chunk a redirection leads to, footer included, apart from [lo, hi). */
  predicate ChunkClear(w: Word, lo: int, hi: int) {
    Clear(Pointer(w), Tag(w) + FOOTER_SIZE, lo, hi)
  }

  ghost predicate NewChunk(mem: Mem, mem': Mem, w: Word) {
    Fresh(mem, Pointer(w), FooterOf(w) + FOOTER_SIZE) && Allocated(mem', Pointer(w), Tag(w) + FOOTER_SIZE)
  }

  /** The chunks did not exist before, and no two of them overlap. */
  ghost predicate NewChunks(mem: Mem, mem': Mem, ws: seq<Word>) {
    && (forall w :: w in ws ==> NewChunk(mem, mem', w))
    && (forall i, j :: 0 <= i < j < |ws| ==> ChunkClear(ws[i], Pointer(ws[j]), FooterOf(ws[j]) + FOOTER_SIZE))
  }

  lemma NewChunksAppend(mem0: Mem, mem1: Mem, mem2: Mem, ws: seq<Word>, ws': seq<Word>)
    requires NewChunks(mem0, mem1, ws) && NewChunks(mem1, mem2, ws')
    requires (forall x :: x in mem0 ==> x in mem1) && forall x :: x in mem1 ==> x in mem2
    ensures NewChunks(mem0, mem2, ws + ws')
  {
    hide Pointer, Tag, FooterOf;
    var all := ws + ws';
    forall i, j | 0 <= i < j < |all|
      ensures ChunkClear(all[i], Pointer(all[j]), FooterOf(all[j]) + FOOTER_SIZE)
    {
      if i < |ws| <= j {
        assert NewChunk(mem0, mem1, all[i]) && NewChunk(mem1, mem2, all[j]);
        ApartFromNew(mem1, all[i], all[j]);
      }
    }
  }

  lemma ApartFromNew(mem: Mem, w: Word, w': Word)
    requires Allocated(mem, Pointer(w), Tag(w) + FOOTER_SIZE)
    requires Fresh(mem, Pointer(w'), FooterOf(w') + FOOTER_SIZE)
    ensures ChunkClear(w, Pointer(w'), FooterOf(w') + FOOTER_SIZE)
  {
    FreshClear(mem, Pointer(w), Tag(w) + FOOTER_SIZE, Pointer(w'), FooterOf(w') + FOOTER_SIZE);
  }

  /** The footer met after i hops. */
  function FooterAt(end: int, ws: seq<Word>, i: nat): int
    requires i <= |ws|
  {
    if i == 0 then end else FooterOf(ws[i - 1])
  }

  lemma {:induction false} HopAt(mem: Mem, end: int, ws: seq<Word>, last: int, i: nat)
    requires Chain(mem, end, ws, last) && i < |ws|
    ensures Hop(mem, FooterAt(end, ws, i), ws[i])
    decreases |ws|
  {
    hide Hop, FooterOf;
    if i > 0 {
      HopAt(mem, FooterOf(ws[0]), ws[1..], last, i - 1);
    }
  }

  /** The chain of a region's footers has no cycle: from the ith one the link leads to
      the next, and none is met twice. */
  lemma ChainAcyclic(mem: Mem, mem': Mem, end: int, ws: seq<Word>, last: int, i: nat, j: nat)
    requires Allocated(mem, end, FooterSize(end))
    requires Chain(mem', end, ws, last) && NewChunks(mem, mem', ws) && i < j <= |ws|
    ensures Behind(mem', FooterAt(end, ws, i), FooterAt(end, ws, i + 1))
    ensures FooterAt(end, ws, i) != FooterAt(end, ws, j)
  {
    hide Pointer, Tag, LoadWord, GrownPayload, Chain, Behind;
    HopAt(mem', end, ws, last, i);
    assert NewChunk(mem, mem', ws[j - 1]);
    if i == 0 {
      assert end in mem && FooterOf(ws[j - 1]) !in mem;
    } else {
      assert ChunkClear(ws[i - 1], Pointer(ws[j - 1]), FooterOf(ws[j - 1]) + FOOTER_SIZE);
    }
  }

  lemma {:induction false} ChainKept(mem: Mem, mem': Mem, end: int, ws: seq<Word>, last: int)
    requires Chain(mem, end, ws, last) && FootersKept(mem, mem', end, ws)
    ensures Chain(mem', end, ws, last)
    decreases |ws|
  {
    hide LoadWord, GrownPayload, FooterOf, Tag;
    if ws != [] {
      ChainKept(mem, mem', FooterOf(ws[0]), ws[1..], last);
      assert FooterKept(mem, mem', FooterOf(ws[0]));
    }
  }

  /** A write that keeps off all footers but the last one. */
  lemma {:induction false} FootersFramed(mem: Mem, mem': Mem, lo: int, hi: int, end: int, ws: seq<Word>, last: int)
    requires Chain(mem, end, ws, last) && FootersClear(end, ws, lo, hi)
    requires Same(mem, mem', lo, hi) && FooterKept(mem, mem', last)
    ensures FootersKept(mem, mem', end, ws)
    decreases |ws|
  {
    hide FooterKept, FooterSame, FooterOf, LoadWord, Same;
    if ws != [] {
      FrameFooter(mem, mem', lo, hi, end);
      FootersFramed(mem, mem', lo, hi, FooterOf(ws[0]), ws[1..], last);
    }
  }

  lemma {:induction false} FootersClearAdvanced(mem: Mem, end: int, ws: seq<Word>, last: int,
                                                loc1: int, end1: int, loc2: int, end2: int)
    requires Chain(mem, end, ws, last) && FootersClear(end, ws, loc1, FootEnd(end1))
    requires Advanced(mem, loc1, end1, loc2, end2) && loc2 < end2
    ensures FootersClear(end, ws, loc2, FootEnd(end2))
    decreases |ws|
  {
    hide Advanced, FooterOf, Clear, FootEnd, LoadWord;
    if ws != [] {
      ClearAdvanced(mem, end, FooterSize(end), loc1, end1, loc2, end2);
      FootersClearAdvanced(mem, FooterOf(ws[0]), ws[1..], last, loc1, end1, loc2, end2);
    }
  }

  lemma {:induction false} Joined(mem: Mem, end: int, ws: seq<Word>, mid: int, ws': seq<Word>, last: int)
    requires Chain(mem, end, ws, mid) && Chain(mem, mid, ws', last)
    ensures Chain(mem, end, ws + ws', last)
    decreases |ws|
  {
    hide Hop, FooterOf;
    if ws == [] {
      assert ws + ws' == ws';
    } else {
      Joined(mem, FooterOf(ws[0]), ws[1..], mid, ws', last);
      assert (ws + ws')[1..] == ws[1..] + ws';
    }
  }

  lemma {:induction false} JoinedClear(mem: Mem, end: int, ws: seq<Word>, mid: int, ws': seq<Word>, lo: int, hi: int)
    requires Chain(mem, end, ws, mid) && FootersClear(end, ws, lo, hi) && FootersClear(mid, ws', lo, hi)
    ensures FootersClear(end, ws + ws', lo, hi)
    decreases |ws|
  {
    hide Hop, FooterOf, Clear;
    if ws == [] {
      assert ws + ws' == ws';
    } else {
      JoinedClear(mem, FooterOf(ws[0]), ws[1..], mid, ws', lo, hi);
      assert (ws + ws')[1..] == ws[1..] + ws';
    }
  }

  /** Two writers in a row: the second one leaves the chain of the first alone and
      continues it. */
  lemma ChainAppend(mem: Mem, mem': Mem, end: int, ws: seq<Word>, loc1: int, end1: int,
                    ws': seq<Word>, loc2: int, end2: int)
    requires Chain(mem, end, ws, end1) && FootersClear(end, ws, loc1, FootEnd(end1))
    requires Same(mem, mem', loc1, FootEnd(end1)) && FooterKept(mem, mem', end1)
    requires Advanced(mem, loc1, end1, loc2, end2) && loc2 < end2
    requires Chain(mem', end1, ws', end2) && FootersClear(end1, ws', loc2, FootEnd(end2))
    ensures Chain(mem', end, ws + ws', end2) && FootersClear(end, ws + ws', loc2, FootEnd(end2))
  {
    hide Chain, FootersClear, FootersKept, FooterKept, Same, Advanced, FootEnd;
    FootersFramed(mem, mem', loc1, FootEnd(end1), end, ws, end1);
    ChainKept(mem, mem', end, ws, end1);
    FootersClearAdvanced(mem, end, ws, end1, loc1, end1, loc2, end2);
    Joined(mem', end, ws, end1, ws', end2);
    JoinedClear(mem', end, ws, end1, ws', loc2, FootEnd(end2));
  }

  /** Without redirections the chain is a single chunk. */
  lemma EndedAppend(mem0: Mem, mem1: Mem, mem2: Mem, end: int, ws: seq<Word>, end1: int, ws': seq<Word>, end2: int)
    requires Ended(mem0, mem1, end, ws, end1) && Ended(mem1, mem2, end1, ws', end2) && FooterKept(mem0, mem2, end)
    requires Chain(mem1, end, ws, end1) && Chain(mem2, end1, ws', end2)
    ensures Ended(mem0, mem2, end, ws + ws', end2)
  {
    hide LoadWord, Hop;
  }
}

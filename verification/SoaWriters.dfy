/** How struct-of-arrays writers compose, astray or not. */
module SoaWriters {
  import opened Memory
  import opened Outcomes
  import opened Runtime
  import opened Chains
  import opened Trees
  import opened SoaTree

  // Steps of one writer.

  lemma SameStep3(mem0: Mem, mem1: Mem, mem2: Mem, w: Writer, w1: Writer)
    requires SameBut(mem0, mem1, w) && SameBut(mem1, mem2, w1) && Inside(mem0, w, w1)
    ensures SameBut(mem0, mem2, w)
  {
    hide Mine;
  }

  lemma MovedStep(mem: Mem, mem': Mem, w: Writer, w1: Writer, w2: Writer)
    requires (forall x :: x in mem ==> x in mem') && Moved(mem, w, w1) && Moved(mem', w1, w2)
    ensures Moved(mem, w, w2)
  {
  }

  lemma SameExtends(mem: Mem, mem': Mem, w: Writer)
    requires SameBut(mem, mem', w)
    ensures forall x :: x in mem ==> x in mem'
  {
  }

  lemma WroteStep(mem0: Mem, mem1: Mem, mem2: Mem, w: Writer, w1: Writer, w2: Writer, l: SoaLayout, g: SoaLayout)
    requires SameBut(mem0, mem1, w) && Moved(mem0, w, w1) && Wrote(mem1, mem2, w1, w2, l, g)
    ensures SameBut(mem0, mem2, w) && Moved(mem0, w, w2)
  {
    hide SameBut, Sound, Moved, At, Avoids, Extended, NewChunks, Inside;
    MovedInside(mem0, w, w1);
    SameExtends(mem0, mem1, w);
    SameStep3(mem0, mem1, mem2, w, w1);
    MovedStep(mem0, mem1, w, w1, w2);
  }

  /** A value outside a writer's windows is still there afterwards, and outside the
      windows it goes on with. */
  lemma InputKept(mem: Mem, mem': Mem, c: Cursors, l: SoaLayout, w: Writer, w': Writer)
    requires At(mem, c, l) && Avoids(c, l, w) && SameBut(mem, mem', w) && Moved(mem, w, w')
    ensures At(mem', c, l) && Avoids(c, l, w')
  {
    hide At, Avoids, SameBut, Moved, Inside;
    MovedInside(mem, w, w');
    FrameAt(mem, mem', w, c, l);
    AvoidsInside(mem, c, l, w, w');
  }

  lemma Survives(mem: Mem, mem': Mem, c: Cursors, l: SoaLayout, w: Writer, w': Writer, l': SoaLayout, g: SoaLayout)
    requires At(mem, c, l) && Avoids(c, l, w) && Wrote(mem, mem', w, w', l', g)
    ensures At(mem', c, l) && Avoids(c, l, w')
  {
    hide At, Avoids, SameBut, Moved, Sound, Extended, NewChunks;
    InputKept(mem, mem', c, l, w, w');
  }

  // Cells.

  ghost predicate Same3(mem: Mem, mem': Mem, lo: Cursors, hi: Cursors) {
    forall x :: x in mem ==> x in mem' && (InWindows(x, lo, hi) || mem'[x] == mem[x])
  }

  /** Room for one node and one redirection in every buffer: the slack the programs check for. */
  predicate Roomy(loc: Cursors, end: Cursors) {
    loc.tags + 34 <= end.tags && loc.leaves + 17 <= end.leaves && loc.inners + 17 <= end.inners
  }

  /** The bytes up to loc' lie before the footers of the writer's own chunks; a writer that
      has not strayed has room for a redirection behind them. */
  predicate Fits(w: Writer, loc': Cursors) {
    && w.loc.tags <= loc'.tags <= w.own.tags && w.loc.leaves <= loc'.leaves <= w.own.leaves
    && w.loc.inners <= loc'.inners <= w.own.inners
    && (!w.Astray() ==>
          loc'.tags + NODE_SIZE <= w.end.tags && loc'.leaves + NODE_SIZE <= w.end.leaves && loc'.inners + NODE_SIZE <= w.end.inners)
  }

  ghost predicate FootersSame3(mem: Mem, mem': Mem, end: Cursors) {
    forall b: Buffer :: FooterSame(mem, mem', end.Of(b))
  }

  /** Cells between loc and loc' have been written; the rest of each chunk is as before. */
  lemma CellsWritten(mem: Mem, mem': Mem, w: Writer, loc': Cursors)
    requires Sound(mem, w) && Fits(w, loc') && Same3(mem, mem', w.loc, loc')
    ensures SameBut(mem, mem', w) && FootersSame3(mem, mem', w.end)
    ensures Sound(mem', w.To(loc')) && Moved(mem, w, w.To(loc'))
  {
    hide Sound, Same3, Moved, SameBut, Stands3, FooterSame, Writable3, Strayed;
    SoundStands(mem, w);
    CellsSame(mem, mem', w, loc');
    FootersOffCells(mem, mem', w, loc');
    SoundOn(mem, mem', w, loc');
  }

  lemma CellsSame(mem: Mem, mem': Mem, w: Writer, loc': Cursors)
    requires Fits(w, loc') && Same3(mem, mem', w.loc, loc')
    ensures SameBut(mem, mem', w) && Moved(mem, w, w.To(loc')) && forall x :: x in mem ==> x in mem'
  {
  }

  lemma FootersOffCells(mem: Mem, mem': Mem, w: Writer, loc': Cursors)
    requires Stands3(mem, w) && Fits(w, loc') && Same3(mem, mem', w.loc, loc')
    ensures FootersSame3(mem, mem', w.end)
  {
    hide LoadWord, FooterSame;
    forall b: Buffer
      ensures FooterSame(mem, mem', w.end.Of(b))
    {
      assert Stands(mem, w, b);
      AgreeFooter(mem, mem', w.end.Of(b));
    }
  }

  lemma SoundOn(mem: Mem, mem': Mem, w: Writer, loc': Cursors)
    requires Sound(mem, w) && Fits(w, loc') && FootersSame3(mem, mem', w.end) && forall x :: x in mem ==> x in mem'
    ensures Sound(mem', w.To(loc'))
  {
    hide Stands, Writable, FooterSame, FootEnd;
    assert FooterSame(mem, mem', w.end.Of(Tags)) && FooterSame(mem, mem', w.end.Of(Leaves)) && FooterSame(mem, mem', w.end.Of(Inners));
    if w.Astray() {
      StandsOn(mem, mem', w, loc', Tags);
      StandsOn(mem, mem', w, loc', Leaves);
      StandsOn(mem, mem', w, loc', Inners);
    } else {
      WritableOn(mem, mem', w.loc.tags, w.end.tags, loc'.tags);
      WritableOn(mem, mem', w.loc.leaves, w.end.leaves, loc'.leaves);
      WritableOn(mem, mem', w.loc.inners, w.end.inners, loc'.inners);
    }
  }

  lemma WritableOn(mem: Mem, mem': Mem, loc: int, end: int, loc': int)
    requires Writable(mem, loc, end) && FooterSame(mem, mem', end) && loc <= loc' && loc' + NODE_SIZE <= end
    requires forall x :: x in mem ==> x in mem'
    ensures Writable(mem', loc', end)
  {
    hide LoadWord;
  }

  lemma StandsOn(mem: Mem, mem': Mem, w: Writer, loc': Cursors, b: Buffer)
    requires Stands(mem, w, b) && Fits(w, loc') && FooterSame(mem, mem', w.end.Of(b)) && forall x :: x in mem ==> x in mem'
    ensures Stands(mem', w.To(loc'), b)
  {
    hide LoadWord;
  }

  lemma LeafWritten(mem: Mem, mem': Mem, w: Writer, v: Word)
    requires Sound(mem, w) && Fits(w, w.loc.AfterLeaf()) && Same3(mem, mem', w.loc, w.loc.AfterLeaf())
    requires TagAt(mem', w.loc.tags, LEAF_TAG) && WordAt(mem', w.loc.leaves, v)
    ensures Wrote(mem, mem', w, w.To(w.loc.AfterLeaf()), LeafCells(v), LeafCells(v))
  {
    LeafCellsOff(mem, w);
    hide Sound, Moved, SameBut, Same3, FootersSame3, Extended, LoadWord, Off;
    CellsWritten(mem, mem', w, w.loc.AfterLeaf());
    NothingExtended(mem, mem', w.end, w.To(w.loc.AfterLeaf()));
  }

  lemma LeafCellsOff(mem: Mem, w: Writer)
    requires Sound(mem, w) && Fits(w, w.loc.AfterLeaf())
    ensures Off(w.loc.tags, 1, w.To(w.loc.AfterLeaf())) && Off(w.loc.leaves, 8, w.To(w.loc.AfterLeaf()))
  {
    hide Sound, Allocated, Sized;
    SoundStands(mem, w);
  }

  lemma InnerCellsOff(mem: Mem, w: Writer)
    requires Sound(mem, w) && Fits(w, w.loc.AfterInner())
    ensures Off(w.loc.tags, 1, w.To(w.loc.AfterInner())) && Off(w.loc.inners, 8, w.To(w.loc.AfterInner()))
  {
    hide Sound, Allocated, Sized;
    SoundStands(mem, w);
  }

  /** Astray or not: the windows are disjoint, and apart from the footers. */
  lemma SoundStands(mem: Mem, w: Writer)
    requires Sound(mem, w)
    ensures Stands3(mem, w) && Apart(w.loc, w.own) && Apart(w.end, w.end.PastFooters())
  {
    hide LoadWord, Sized, Writable, Stands, FootEnd;
    if !w.Astray() {
      HereStands(mem, w, Tags);
      HereStands(mem, w, Leaves);
      HereStands(mem, w, Inners);
      HereApart(mem, w);
    }
  }

  lemma HereStands(mem: Mem, w: Writer, b: Buffer)
    requires !w.Astray() && Writable3(mem, w.loc, w.end)
    ensures Stands(mem, w, b)
  {
    hide LoadWord, Sized, Writable;
    WritableSpan(mem, w.loc.tags, w.end.tags);
    WritableSpan(mem, w.loc.leaves, w.end.leaves);
    WritableSpan(mem, w.loc.inners, w.end.inners);
  }

  lemma HereApart(mem: Mem, w: Writer)
    requires !w.Astray() && Writable3(mem, w.loc, w.end)
    ensures Apart(w.loc, w.own) && Apart(w.end, w.end.PastFooters())
  {
    hide LoadWord;
  }

  lemma WritableSpan(mem: Mem, loc: int, end: int)
    requires Writable(mem, loc, end)
    ensures Sized(mem, end) && Allocated(mem, loc, FootEnd(end) - loc) && loc + NODE_SIZE <= end
  {
    GrowableHere(mem, loc, end);
  }

  /** mem0 -header-> memH -left-> mem1 -right-> mem2 */
  lemma NodeWritten(mem0: Mem, memH: Mem, mem1: Mem, mem2: Mem, w: Writer, v: Word,
                    w1: Writer, left: SoaLayout, left': SoaLayout, w2: Writer, right: SoaLayout, right': SoaLayout)
    requires Sound(mem0, w) && Fits(w, w.loc.AfterInner()) && Same3(mem0, memH, w.loc, w.loc.AfterInner())
    requires TagAt(memH, w.loc.tags, INNER_TAG) && WordAt(memH, w.loc.inners, v)
    requires Wrote(memH, mem1, w.To(w.loc.AfterInner()), w1, left, left')
    requires Wrote(mem1, mem2, w1, w2, right, right')
    ensures Wrote(mem0, mem2, w, w2, NodeCells(v, left, right), NodeCells(v, left', right'))
  {
    hide Same3, TagAt, WordAt, Sound, Moved, SameBut, Off, Extended, NewChunks, FootersSame3, LoadWord, Inside;
    InnerCellsOff(mem0, w);
    CellsWritten(mem0, memH, w, w.loc.AfterInner());
    SameExtends(mem0, memH, w);
    WroteStep(mem0, memH, mem1, w, w.To(w.loc.AfterInner()), w1, left, left');
    WroteStep(mem0, mem1, mem2, w, w1, w2, right, right');
    Survives(mem1, mem2, w.loc.AfterInner(), left, w1, w2, right, right');
    CellsKept(memH, mem1, w.loc, v, w.To(w.loc.AfterInner()), w1, left, left');
    CellsKept(mem1, mem2, w.loc, v, w1, w2, right, right');
    NodeExtended(mem0, memH, mem1, mem2, w.end, w.To(w.loc.AfterInner()), w1, left, left', w2, right, right');
  }

  lemma CellsKept(mem: Mem, mem': Mem, c: Cursors, v: Word, w: Writer, w': Writer, l: SoaLayout, g: SoaLayout)
    requires TagAt(mem, c.tags, INNER_TAG) && WordAt(mem, c.inners, v) && Off(c.tags, 1, w) && Off(c.inners, 8, w)
    requires Wrote(mem, mem', w, w', l, g)
    ensures TagAt(mem', c.tags, INNER_TAG) && WordAt(mem', c.inners, v) && Off(c.tags, 1, w') && Off(c.inners, 8, w')
  {
    hide LoadWord, Off, SameBut, Sound, Moved, At, Avoids, Extended, NewChunks, Inside;
    FrameCells(mem, mem', w, c.tags, INNER_TAG, c.inners, v);
    MovedInside(mem, w, w');
    OffInside(mem, c.tags, 1, w, w');
    OffInside(mem, c.inners, 8, w, w');
  }

  // The chunks of each buffer.

  lemma {:induction false} FootersFramed3(mem: Mem, mem': Mem, w: Writer, end: int, ws: seq<Word>, last: int)
    requires Chain(mem, end, ws, last) && FootersOff(end, ws, w)
    requires SameBut(mem, mem', w) && FooterKept(mem, mem', last)
    ensures FootersKept(mem, mem', end, ws)
    decreases |ws|
  {
    hide FooterKept, FooterSame, FooterOf, LoadWord, SameBut, Off;
    if ws != [] {
      OffAgree(mem, mem', end, FooterSize(end), w);
      AgreeFooter(mem, mem', end);
      FootersFramed3(mem, mem', w, FooterOf(ws[0]), ws[1..], last);
    }
  }

  lemma {:induction false} FootersInside(mem: Mem, end: int, ws: seq<Word>, last: int, w: Writer, w': Writer)
    requires Chain(mem, end, ws, last) && FootersOff(end, ws, w) && Inside(mem, w, w')
    ensures FootersOff(end, ws, w')
    decreases |ws|
  {
    hide Inside, Off, FooterOf, LoadWord;
    if ws != [] {
      OffInside(mem, end, FooterSize(end), w, w');
      FootersInside(mem, FooterOf(ws[0]), ws[1..], last, w, w');
    }
  }

  lemma {:induction false} JoinedOff(mem: Mem, end: int, ws: seq<Word>, mid: int, ws': seq<Word>, w: Writer)
    requires Chain(mem, end, ws, mid) && FootersOff(end, ws, w) && FootersOff(mid, ws', w)
    ensures FootersOff(end, ws + ws', w)
    decreases |ws|
  {
    hide Off, FooterOf, Hop;
    if ws == [] {
      assert ws + ws' == ws';
    } else {
      JoinedOff(mem, FooterOf(ws[0]), ws[1..], mid, ws', w);
      assert (ws + ws')[1..] == ws[1..] + ws';
    }
  }

  /** Two writers in a row: the second one leaves the chain of the first alone in every
      buffer, and continues it. */
  lemma ExtendedAppend(mem0: Mem, mem1: Mem, mem2: Mem, end: int, ws: seq<Word>, mid: int, ws': seq<Word>, last: int,
                       w1: Writer, w2: Writer)
    requires Extended(mem0, mem1, end, ws, mid, w1) && Extended(mem1, mem2, mid, ws', last, w2)
    requires (forall x :: x in mem0 ==> x in mem1) && SameBut(mem1, mem2, w1) && Inside(mem1, w1, w2)
    ensures Extended(mem0, mem2, end, ws + ws', last, w2)
  {
    hide Chain, FootersOff, FootersKept, FooterKept, FooterSame, NewChunks, Inside, Mine, LoadWord;
    FootersFramed3(mem1, mem2, w1, end, ws, mid);
    ChainKept(mem1, mem2, end, ws, mid);
    Joined(mem2, end, ws, mid, ws', last);
    FootersInside(mem1, end, ws, mid, w1, w2);
    JoinedOff(mem1, end, ws, mid, ws', w2);
    NewChunksAppend(mem0, mem1, mem2, ws, ws');
    FirstFooterKept(mem0, mem1, mem2, end, ws);
    EndedAppend(mem0, mem1, mem2, end, ws, mid, ws', last);
  }

  lemma FirstFooterKept(mem0: Mem, mem1: Mem, mem2: Mem, end: int, ws: seq<Word>)
    requires FooterKept(mem0, mem1, end) && FootersKept(mem1, mem2, end, ws)
    ensures FooterKept(mem0, mem2, end)
  {
    hide LoadWord;
  }

  /** What a reader is left with. */
  lemma WroteReads(mem: Mem, mem': Mem, w: Writer, w': Writer, l: SoaLayout, g: SoaLayout)
    requires Wrote(mem, mem', w, w', l, g)
    ensures At(mem', w.loc, l) && EndOf(w.loc, l) == w'.loc && Avoids(w.loc, l, w') && Unshared(l) && Sound(mem', w')
  {
    hide At, Avoids, SameBut, Moved, Sound, Extended, NewChunks;
  }

  lemma WroteInside(mem: Mem, mem': Mem, w: Writer, w': Writer, l: SoaLayout, g: SoaLayout)
    requires Wrote(mem, mem', w, w', l, g)
    ensures SameBut(mem, mem', w) && Inside(mem, w, w') && forall x :: x in mem ==> x in mem'
  {
    hide At, Avoids, Sound, Moved, Extended, NewChunks, Inside, Mine;
    MovedInside(mem, w, w');
  }

  lemma NodeExtended(mem0: Mem, memH: Mem, mem1: Mem, mem2: Mem, end: Cursors, wH: Writer,
                     w1: Writer, left: SoaLayout, left': SoaLayout, w2: Writer, right: SoaLayout, right': SoaLayout)
    requires wH.end == end && FootersSame3(mem0, memH, end) && (forall x :: x in mem0 ==> x in memH)
    requires Wrote(memH, mem1, wH, w1, left, left') && Wrote(mem1, mem2, w1, w2, right, right')
    ensures forall b: Buffer ::
              Extended(mem0, mem2, end.Of(b), WordsOf(left', b) + WordsOf(right', b), w2.end.Of(b), w2)
    ensures NewChunks(mem0, mem2, AllWords(left') + AllWords(right'))
  {
    hide Extended, NewChunks, At, Avoids, WordsOf, AllWords, Moved, FootersSame3, Sound, SameBut, Inside;
    NothingExtended(mem0, memH, end, wH);
    WroteInside(memH, mem1, wH, w1, left, left');
    WroteInside(mem1, mem2, w1, w2, right, right');
    forall b: Buffer
      ensures Extended(mem0, mem2, end.Of(b), WordsOf(left', b) + WordsOf(right', b), w2.end.Of(b), w2)
    {
      ExtendedAppend(mem0, memH, mem1, end.Of(b), [], end.Of(b), WordsOf(left', b), w1.end.Of(b), wH, w1);
      assert [] + WordsOf(left', b) == WordsOf(left', b);
      ExtendedAppend(mem0, mem1, mem2, end.Of(b), WordsOf(left', b), w1.end.Of(b), WordsOf(right', b), w2.end.Of(b), w1, w2);
    }
    NewChunksAppend(mem0, memH, mem1, [], AllWords(left'));
    assert [] + AllWords(left') == AllWords(left');
    NewChunksAppend(mem0, mem1, mem2, AllWords(left'), AllWords(right'));
  }

  lemma NothingExtended(mem: Mem, mem': Mem, end: Cursors, w: Writer)
    requires FootersSame3(mem, mem', end)
    ensures forall b: Buffer :: Extended(mem, mem', end.Of(b), [], end.Of(b), w)
    ensures NewChunks(mem, mem', [])
  {
    hide FooterSame;
    forall b: Buffer
      ensures Extended(mem, mem', end.Of(b), [], end.Of(b), w)
    {
      SameEnds(mem, mem', end.Of(b));
    }
  }

  lemma SameEnds(mem: Mem, mem': Mem, end: int)
    requires FooterSame(mem, mem', end)
    ensures Ended(mem, mem', end, [], end)
  {
  }

  // Growth of all three buffers.

  /** Three chunks that tagged pointers can name. */
  predicate Redirectable(start: Cursors, end: Cursors) {
    && 0 <= start.tags < POINTER_LIMIT && start.tags <= end.tags < start.tags + 0x1_0000
    && 0 <= start.leaves < POINTER_LIMIT && start.leaves <= end.leaves < start.leaves + 0x1_0000
    && 0 <= start.inners < POINTER_LIMIT && start.inners <= end.inners < start.inners + 0x1_0000
  }

  /** The tagged words of the three redirections, in the order in which they are written. */
  function NewWords(start: Cursors, end: Cursors): seq<Word>
    requires Redirectable(start, end)
  {
    [RedirectionWord(start.inners, end.inners), RedirectionWord(start.leaves, end.leaves), RedirectionWord(start.tags, end.tags)]
  }

  ghost predicate Fresh3(mem: Mem, loc: Cursors, end: Cursors) {
    && Fresh(mem, loc.tags, FootEnd(end.tags))
    && Fresh(mem, loc.leaves, FootEnd(end.leaves))
    && Fresh(mem, loc.inners, FootEnd(end.inners))
  }

  function CellEnds(loc: Cursors): Cursors {
    loc.Plus(NODE_SIZE, NODE_SIZE, NODE_SIZE)
  }

  /** Room for a redirection in the chunks the cursors stand in. */
  predicate RedirectRoom(loc: Cursors, own: Cursors) {
    loc.tags + NODE_SIZE <= own.tags && loc.leaves + NODE_SIZE <= own.leaves && loc.inners + NODE_SIZE <= own.inners
  }

  /** Three cells and three footers, all apart. */
  ghost predicate GrowReady(mem: Mem, loc: Cursors, end: Cursors) {
    && Apart(loc, CellEnds(loc)) && Apart(end, end.PastFooters())
    && forall b: Buffer ::
         && Sized(mem, end.Of(b)) && Allocated(mem, loc.Of(b), NODE_SIZE)
         && Clear3(end.Of(b), FooterSize(end.Of(b)), loc, CellEnds(loc))
  }

  lemma SoundReady(mem: Mem, w: Writer)
    requires Sound(mem, w) && RedirectRoom(w.loc, w.own)
    ensures GrowReady(mem, w.loc, w.end)
  {
    hide Sized, Sound, Stands, FootEnd, FooterSize, Apart;
    SoundStands(mem, w);
    CellsApart(w);
    forall b: Buffer
      ensures Sized(mem, w.end.Of(b)) && Allocated(mem, w.loc.Of(b), NODE_SIZE)
      ensures Clear3(w.end.Of(b), FooterSize(w.end.Of(b)), w.loc, CellEnds(w.loc))
    {
      OneStands(mem, w, b);
      CellStands(mem, w, b);
    }
  }

  lemma CellsApart(w: Writer)
    requires Apart(w.loc, w.own) && RedirectRoom(w.loc, w.own)
    ensures Apart(w.loc, CellEnds(w.loc))
  {
  }

  lemma CellStands(mem: Mem, w: Writer, b: Buffer)
    requires Stands(mem, w, b) && RedirectRoom(w.loc, w.own)
    ensures Sized(mem, w.end.Of(b)) && Allocated(mem, w.loc.Of(b), NODE_SIZE)
    ensures Clear3(w.end.Of(b), FooterSize(w.end.Of(b)), w.loc, CellEnds(w.loc))
  {
    hide Sized;
  }

  /** The least a new chunk offers. */
  predicate Spacious(loc: Cursors, end: Cursors) {
    loc.tags + 34 <= end.tags && loc.leaves + 34 <= end.leaves && loc.inners + 34 <= end.inners
  }

  /** What growing the three regions does. */
  ghost predicate GrownFrom3(mem: Mem, mem': Mem, loc: Cursors, end: Cursors, loc': Cursors, end': Cursors) {
    && SameBut(mem, mem', Writer(loc, end, CellEnds(loc)))
    && Fresh3(mem, loc', end')
    && Writable3(mem', loc', end') && Spacious(loc', end') && Redirectable(loc', end')
    && (forall b: Buffer :: Grown(mem, mem', loc.Of(b), end.Of(b), loc'.Of(b), end'.Of(b)))
    && NewChunks(mem, mem', NewWords(loc', end'))
  }

  /** Growth of one buffer is not undone by what keeps off both its chunks, */
  lemma GrownLater(mem: Mem, mem1: Mem, mem2: Mem, loc: int, end: int, loc': int, end': int)
    requires Grown(mem, mem1, loc, end, loc', end')
    requires Agree(mem1, mem2, loc, NODE_SIZE) && Agree(mem1, mem2, end, FooterSize(end))
    requires Agree(mem1, mem2, loc', FootEnd(end') - loc')
    ensures Grown(mem, mem2, loc, end, loc', end')
  {
    hide LoadWord, GrownPayload, RedirectionWord;
    AgreeHeader(mem1, mem2, loc, GIB_REDIRECTION_TAG, RedirectionWord(loc', end'));
    AgreeFooter(mem1, mem2, end);
    AgreeFooter(mem1, mem2, end');
  }

  /** and does not depend on what keeps off its footer before it. */
  lemma GrownEarlier(mem0: Mem, mem: Mem, mem': Mem, loc: int, end: int, loc': int, end': int)
    requires Agree(mem0, mem, end, FooterSize(end)) && Grown(mem, mem', loc, end, loc', end')
    ensures Grown(mem0, mem', loc, end, loc', end')
  {
    hide LoadWord, GrownPayload, RedirectsTo;
    AgreeFooter(mem0, mem, end);
  }

  /** What one growth leaves alone. */
  lemma GrownAgree(mem: Mem, mem': Mem, loc: int, end: int, loc': int, end': int, a: int, n: nat)
    requires GrownAt(mem, mem', loc, end, loc', end') && Allocated(mem, a, n)
    requires Clear(a, n, loc, loc + NODE_SIZE) && Clear(a, n, end, FootEnd(end))
    ensures Agree(mem, mem', a, n)
  {
    hide Header, Behind, FooterKept, GrownPayload, LoadWord;
  }

  lemma SizedKept(mem: Mem, mem': Mem, end: int)
    requires Sized(mem, end) && Agree(mem, mem', end, FooterSize(end))
    ensures Sized(mem', end)
  {
    hide LoadWord;
    AgreeFooter(mem, mem', end);
  }

  // mem0 -inners-> mem1 -leaves-> mem2 -tags-> mem3, growing (loc, end) to (loc', end').

  /** After a growth elsewhere, buffer b is as ready as before. */
  lemma StillReady(mem: Mem, mem': Mem, loc: Cursors, end: Cursors, a: Buffer, loc': int, end': int, b: Buffer)
    requires GrowReady(mem, loc, end) && a != b
    requires GrownAt(mem, mem', loc.Of(a), end.Of(a), loc', end')
    ensures Agree(mem, mem', end.Of(b), FooterSize(end.Of(b))) && Agree(mem, mem', loc.Of(b), NODE_SIZE)
    ensures Sized(mem', end.Of(b)) && Allocated(mem', loc.Of(b), NODE_SIZE)
  {
    hide GrownAt, LoadWord;
    assert Sized(mem, end.Of(a)) && Sized(mem, end.Of(b));
    GrownAgree(mem, mem', loc.Of(a), end.Of(a), loc', end', end.Of(b), FooterSize(end.Of(b)));
    GrownAgree(mem, mem', loc.Of(a), end.Of(a), loc', end', loc.Of(b), NODE_SIZE);
    SizedKept(mem, mem', end.Of(b));
  }

  lemma GrownExtends(mem: Mem, mem': Mem, loc: int, end: int, loc': int, end': int)
    requires GrownAt(mem, mem', loc, end, loc', end')
    ensures (forall x :: x in mem ==> x in mem') && Allocated(mem', loc', FootEnd(end') - loc') && loc' < FootEnd(end')
    ensures Fresh(mem, loc', FootEnd(end')) && !InNursery(end') && 0 <= FootEnd(end') - loc'
  {
    hide Header, FooterKept, GrownPayload, LoadWord;
  }

  /** A cell that existed before the first growth, and a chunk from it, after a second one. */
  lemma ChunkAgree(mem0: Mem, mem: Mem, mem': Mem, loc: Cursors, end: Cursors, b: Buffer, loc': int, end': int, a: int, n: nat)
    requires GrowReady(mem0, loc, end) && (forall x :: x in mem0 ==> x in mem)
    requires GrownAt(mem, mem', loc.Of(b), end.Of(b), loc', end')
    requires Allocated(mem, a, n) && Fresh(mem0, a, a + n) && n > 0
    ensures Agree(mem, mem', a, n) && Clear(a, n, loc', FootEnd(end'))
  {
    hide GrownAt, LoadWord;
    assert Sized(mem0, end.Of(b));
    FreshClear(mem0, loc.Of(b), NODE_SIZE, a, a + n);
    FreshClear(mem0, end.Of(b), FooterSize(end.Of(b)), a, a + n);
    GrownAgree(mem, mem', loc.Of(b), end.Of(b), loc', end', a, n);
    GrownExtends(mem, mem', loc.Of(b), end.Of(b), loc', end');
    FreshClear(mem, a, n, loc', FootEnd(end'));
  }

  ghost predicate ThreeGrowths(mem0: Mem, mem1: Mem, mem2: Mem, mem3: Mem, loc: Cursors, end: Cursors, loc': Cursors, end': Cursors) {
    && GrowReady(mem0, loc, end)
    && GrownAt(mem0, mem1, loc.inners, end.inners, loc'.inners, end'.inners)
    && GrownAt(mem1, mem2, loc.leaves, end.leaves, loc'.leaves, end'.leaves)
    && GrownAt(mem2, mem3, loc.tags, end.tags, loc'.tags, end'.tags)
    && Agree(mem0, mem1, end.leaves, FooterSize(end.leaves)) && Agree(mem0, mem1, loc.leaves, NODE_SIZE)
    && Agree(mem0, mem1, end.tags, FooterSize(end.tags)) && Agree(mem1, mem2, end.tags, FooterSize(end.tags))
  }

  lemma InnersGrown(mem0: Mem, mem1: Mem, mem2: Mem, mem3: Mem, loc: Cursors, end: Cursors, loc': Cursors, end': Cursors)
    requires ThreeGrowths(mem0, mem1, mem2, mem3, loc, end, loc', end')
    requires Grown(mem0, mem1, loc.inners, end.inners, loc'.inners, end'.inners)
    ensures Grown(mem0, mem3, loc.inners, end.inners, loc'.inners, end'.inners)
    ensures Clear(loc'.inners, FootEnd(end'.inners) - loc'.inners, loc'.leaves, FootEnd(end'.leaves))
    ensures Clear(loc'.inners, FootEnd(end'.inners) - loc'.inners, loc'.tags, FootEnd(end'.tags))
  {
    hide Grown, GrownAt, Sized, LoadWord, FootEnd;
    var n := FootEnd(end'.inners) - loc'.inners;
    GrownExtends(mem0, mem1, loc.inners, end.inners, loc'.inners, end'.inners);
    GrownExtends(mem1, mem2, loc.leaves, end.leaves, loc'.leaves, end'.leaves);
    ChunkAgree(mem0, mem1, mem2, loc, end, Leaves, loc'.leaves, end'.leaves, loc'.inners, n);
    ChunkAgree(mem0, mem2, mem3, loc, end, Tags, loc'.tags, end'.tags, loc'.inners, n);
    OldAgree(mem0, mem1, mem2, loc, end, Inners, Leaves, loc'.leaves, end'.leaves);
    OldAgree(mem0, mem2, mem3, loc, end, Inners, Tags, loc'.tags, end'.tags);
    GrownLater(mem0, mem1, mem2, loc.inners, end.inners, loc'.inners, end'.inners);
    GrownLater(mem0, mem2, mem3, loc.inners, end.inners, loc'.inners, end'.inners);
  }

  lemma LeavesGrown(mem0: Mem, mem1: Mem, mem2: Mem, mem3: Mem, loc: Cursors, end: Cursors, loc': Cursors, end': Cursors)
    requires ThreeGrowths(mem0, mem1, mem2, mem3, loc, end, loc', end')
    requires Grown(mem1, mem2, loc.leaves, end.leaves, loc'.leaves, end'.leaves)
    ensures Grown(mem0, mem3, loc.leaves, end.leaves, loc'.leaves, end'.leaves)
    ensures Clear(loc'.leaves, FootEnd(end'.leaves) - loc'.leaves, loc'.tags, FootEnd(end'.tags))
  {
    hide Grown, GrownAt, Sized, LoadWord, FootEnd;
    GrownExtends(mem0, mem1, loc.inners, end.inners, loc'.inners, end'.inners);
    GrownExtends(mem1, mem2, loc.leaves, end.leaves, loc'.leaves, end'.leaves);
    ChunkAgree(mem0, mem2, mem3, loc, end, Tags, loc'.tags, end'.tags, loc'.leaves, FootEnd(end'.leaves) - loc'.leaves);
    OldAgree(mem0, mem2, mem3, loc, end, Leaves, Tags, loc'.tags, end'.tags);
    GrownEarlier(mem0, mem1, mem2, loc.leaves, end.leaves, loc'.leaves, end'.leaves);
    GrownLater(mem0, mem2, mem3, loc.leaves, end.leaves, loc'.leaves, end'.leaves);
  }

  lemma TagsGrown(mem0: Mem, mem1: Mem, mem2: Mem, mem3: Mem, loc: Cursors, end: Cursors, loc': Cursors, end': Cursors)
    requires ThreeGrowths(mem0, mem1, mem2, mem3, loc, end, loc', end')
    requires Grown(mem2, mem3, loc.tags, end.tags, loc'.tags, end'.tags)
    ensures Grown(mem0, mem3, loc.tags, end.tags, loc'.tags, end'.tags)
  {
    hide Grown, GrownAt, GrowReady, LoadWord;
    GrownEarlier(mem1, mem2, mem3, loc.tags, end.tags, loc'.tags, end'.tags);
    GrownEarlier(mem0, mem1, mem3, loc.tags, end.tags, loc'.tags, end'.tags);
  }

  /** The old cell and footer of a, across the growth of b in a later state. */
  lemma OldAgree(mem0: Mem, mem: Mem, mem': Mem, loc: Cursors, end: Cursors, a: Buffer, b: Buffer, loc': int, end': int)
    requires GrowReady(mem0, loc, end) && a != b && (forall x :: x in mem0 ==> x in mem)
    requires GrownAt(mem, mem', loc.Of(b), end.Of(b), loc', end')
    ensures Agree(mem, mem', loc.Of(a), NODE_SIZE) && Agree(mem, mem', end.Of(a), FooterSize(end.Of(a)))
  {
    hide GrownAt, LoadWord;
    assert Sized(mem0, end.Of(a)) && Sized(mem0, end.Of(b));
    GrownAgree(mem, mem', loc.Of(b), end.Of(b), loc', end', end.Of(a), FooterSize(end.Of(a)));
    GrownAgree(mem, mem', loc.Of(b), end.Of(b), loc', end', loc.Of(a), NODE_SIZE);
  }

  lemma SameByThree(mem0: Mem, mem1: Mem, mem2: Mem, mem3: Mem, loc: Cursors, end: Cursors, loc': Cursors, end': Cursors)
    requires GrownAt(mem0, mem1, loc.inners, end.inners, loc'.inners, end'.inners)
    requires GrownAt(mem1, mem2, loc.leaves, end.leaves, loc'.leaves, end'.leaves)
    requires GrownAt(mem2, mem3, loc.tags, end.tags, loc'.tags, end'.tags)
    ensures SameBut(mem0, mem3, Writer(loc, end, CellEnds(loc))) && Fresh3(mem0, loc', end')
  {
    hide Header, Behind, FooterKept, GrownPayload, LoadWord;
    GrownExtends(mem0, mem1, loc.inners, end.inners, loc'.inners, end'.inners);
    GrownExtends(mem1, mem2, loc.leaves, end.leaves, loc'.leaves, end'.leaves);
    GrownExtends(mem2, mem3, loc.tags, end.tags, loc'.tags, end'.tags);
  }

  lemma ChunksNew(mem0: Mem, mem1: Mem, mem2: Mem, mem3: Mem, loc: Cursors, end: Cursors, loc': Cursors, end': Cursors)
    requires GrownAt(mem0, mem1, loc.inners, end.inners, loc'.inners, end'.inners)
    requires GrownAt(mem1, mem2, loc.leaves, end.leaves, loc'.leaves, end'.leaves)
    requires GrownAt(mem2, mem3, loc.tags, end.tags, loc'.tags, end'.tags)
    requires Redirectable(loc', end')
    ensures NewChunks(mem0, mem3, NewWords(loc', end'))
  {
    hide GrownAt, RedirectionWord, NewChunks, FootEnd;
    var ws := NewWords(loc', end');
    GrownExtends(mem0, mem1, loc.inners, end.inners, loc'.inners, end'.inners);
    GrownExtends(mem1, mem2, loc.leaves, end.leaves, loc'.leaves, end'.leaves);
    GrownExtends(mem2, mem3, loc.tags, end.tags, loc'.tags, end'.tags);
    OneNewChunk(mem0, mem1, loc.inners, end.inners, loc'.inners, end'.inners);
    OneNewChunk(mem1, mem2, loc.leaves, end.leaves, loc'.leaves, end'.leaves);
    OneNewChunk(mem2, mem3, loc.tags, end.tags, loc'.tags, end'.tags);
    NewChunksAppend(mem0, mem1, mem2, [ws[0]], [ws[1]]);
    NewChunksAppend(mem0, mem2, mem3, [ws[0]] + [ws[1]], [ws[2]]);
    assert ws == [ws[0]] + [ws[1]] + [ws[2]];
  }

  lemma OneNewChunk(mem: Mem, mem': Mem, loc: int, end: int, loc': int, end': int)
    requires GrownAt(mem, mem', loc, end, loc', end')
    requires 0 <= loc' < POINTER_LIMIT && loc' <= end' < loc' + 0x1_0000
    ensures NewChunks(mem, mem', [RedirectionWord(loc', end')])
  {
    hide LoadWord, GrownPayload, RedirectionWord, Pointer, Tag;
    assert NewChunk(mem, mem', RedirectionWord(loc', end'));
  }

  lemma GrownThrice(mem0: Mem, mem1: Mem, mem2: Mem, mem3: Mem, loc: Cursors, end: Cursors, loc': Cursors, end': Cursors)
    requires ThreeGrowths(mem0, mem1, mem2, mem3, loc, end, loc', end')
    requires Grown(mem0, mem1, loc.inners, end.inners, loc'.inners, end'.inners)
    requires Grown(mem1, mem2, loc.leaves, end.leaves, loc'.leaves, end'.leaves)
    requires Grown(mem2, mem3, loc.tags, end.tags, loc'.tags, end'.tags)
    requires Spacious(loc', end') && Redirectable(loc', end')
    ensures GrownFrom3(mem0, mem3, loc, end, loc', end')
  {
    hide Grown, GrownAt, GrowReady, Agree, Writable, SameBut, Fresh3, NewChunks, FootEnd;
    InnersGrown(mem0, mem1, mem2, mem3, loc, end, loc', end');
    LeavesGrown(mem0, mem1, mem2, mem3, loc, end, loc', end');
    TagsGrown(mem0, mem1, mem2, mem3, loc, end, loc', end');
    SameByThree(mem0, mem1, mem2, mem3, loc, end, loc', end');
    ChunksNew(mem0, mem1, mem2, mem3, loc, end, loc', end');
    GrownWritable(mem0, mem3, loc, end, loc', end');
  }

  lemma GrownWritable(mem: Mem, mem': Mem, loc: Cursors, end: Cursors, loc': Cursors, end': Cursors)
    requires forall b: Buffer :: Grown(mem, mem', loc.Of(b), end.Of(b), loc'.Of(b), end'.Of(b))
    ensures Writable(mem', loc'.tags, end'.tags) && Writable(mem', loc'.leaves, end'.leaves) && Writable(mem', loc'.inners, end'.inners)
  {
    hide Writable, RedirectsTo, Behind, FooterKept, LoadWord, GrownPayload;
    assert Grown(mem, mem', loc.Of(Tags), end.Of(Tags), loc'.Of(Tags), end'.Of(Tags));
    assert Grown(mem, mem', loc.Of(Leaves), end.Of(Leaves), loc'.Of(Leaves), end'.Of(Leaves));
    assert Grown(mem, mem', loc.Of(Inners), end.Of(Inners), loc'.Of(Inners), end'.Of(Inners));
  }

  lemma ReadyAt(mem: Mem, loc: Cursors, end: Cursors, b: Buffer)
    requires GrowReady(mem, loc, end)
    ensures Sized(mem, end.Of(b)) && Growable(mem, end.Of(b)) && Allocated(mem, loc.Of(b), NODE_SIZE)
    ensures Clear(loc.Of(b), NODE_SIZE, end.Of(b), FootEnd(end.Of(b)))
  {
    hide LoadWord;
    assert Sized(mem, end.Of(b));
  }

  lemma SizedGrowable(mem: Mem, end: int)
    requires Sized(mem, end)
    ensures Growable(mem, end)
  {
    hide LoadWord;
  }

  /** A new chunk in each buffer: starts and footers. */
  type Chunks = (Cursors, Cursors)

  /** Its parts, in the order they are allocated. */
  function PartsOf(c: Chunks): seq<GibChunk> {
    [GibChunk(c.0.inners, c.1.inners), GibChunk(c.0.leaves, c.1.leaves), GibChunk(c.0.tags, c.1.tags)]
  }

  /** The three gib_grow_region calls that the programs make together. */
  method GrowAll(rt: Runtime, loc: Cursors, end: Cursors) returns (r: Outcome<Chunks>)
    requires rt.Valid() && GrowReady(rt.mem, loc, end)
    modifies rt`mem, rt`failedAllocs, rt`grown
    ensures rt.failedAllocs == old(rt.failedAllocs) + (if r.Exit? then 1 else 0)
    ensures if r.Done? then rt.grown == old(rt.grown) + PartsOf(r.value)
            else old(rt.grown) <= rt.grown && |rt.grown| < |old(rt.grown)| + 3
    ensures forall x :: x in old(rt.mem) ==> x in rt.mem
    ensures r.Done? ==> rt.Valid() && GrownFrom3(old(rt.mem), rt.mem, loc, end, r.value.0, r.value.1)
    ensures r.Done? ==> Writable3(rt.mem, r.value.0, r.value.1) && Roomy(r.value.0, r.value.1)
    ensures r.Done? ==> Redirectable(r.value.0, r.value.1)
  {
    hide LoadWord, GrownFrom, GrownAt, GrowReady, Writable, SameBut, Grown, NewChunks, Fresh3, Sized, Growable, Agree, FootEnd, FooterSize;
    ghost var mem0 := rt.mem;
    ReadyAt(mem0, loc, end, Inners);
    ReadyAt(mem0, loc, end, Leaves);
    ReadyAt(mem0, loc, end, Tags);
    var i :- rt.GrowRegion(loc.inners, end.inners);
    ghost var mem1 := rt.mem;
    StillReady(mem0, mem1, loc, end, Inners, i.start, i.end, Leaves);
    StillReady(mem0, mem1, loc, end, Inners, i.start, i.end, Tags);
    GrownExtends(mem0, mem1, loc.inners, end.inners, i.start, i.end);
    SizedGrowable(mem1, end.leaves);
    var l :- rt.GrowRegion(loc.leaves, end.leaves);
    ghost var mem2 := rt.mem;
    OldAgree(mem0, mem1, mem2, loc, end, Tags, Leaves, l.start, l.end);
    SizedKept(mem1, mem2, end.tags);
    SizedGrowable(mem2, end.tags);
    GrownExtends(mem1, mem2, loc.leaves, end.leaves, l.start, l.end);
    var t :- rt.GrowRegion(loc.tags, end.tags);
    var loc', end' := Cursors(t.start, l.start, i.start), Cursors(t.end, l.end, i.end);
    GrownThrice(mem0, mem1, mem2, rt.mem, loc, end, loc', end');
    r := Done((loc', end'));
  }

  function Redirected(start: Cursors, end: Cursors, l: SoaLayout): (g: SoaLayout)
    requires Redirectable(start, end)
    ensures g.AllRedirected? && Targets(g) == start && TreeOf(g) == TreeOf(l)
  {
    AllRedirected(RedirectionWord(start.tags, end.tags), RedirectionWord(start.leaves, end.leaves),
                  RedirectionWord(start.inners, end.inners), l)
  }

  lemma CellsMine(mem: Mem, mem': Mem, w: Writer)
    requires RedirectRoom(w.loc, w.own) && SameBut(mem, mem', Writer(w.loc, w.end, CellEnds(w.loc)))
    ensures SameBut(mem, mem', w)
  {
  }

  /** Growth as a step of the writer: it may go on in the new chunks, or stay where it is
      although it is told to grow from the new ones. */
  lemma GrownStep(mem: Mem, mem': Mem, w: Writer, loc': Cursors, end': Cursors)
    requires Sound(mem, w) && RedirectRoom(w.loc, w.own) && GrownFrom3(mem, mem', w.loc, w.end, loc', end')
    ensures SameBut(mem, mem', w) && Moved(mem, w, Here(loc', end')) && Moved(mem, w, Writer(w.loc, end', w.own))
    ensures forall b: Buffer :: Off(w.end.Of(b), FooterSize(w.end.Of(b)), Here(loc', end'))
    ensures forall b: Buffer :: Off(w.end.Of(b), FooterSize(w.end.Of(b)), Writer(w.loc, end', w.own))
    ensures PointersOff(w.loc, Here(loc', end'))
  {
    hide Sound, Writable, SameBut, Fresh3, Grown, NewChunks, Sized, LoadWord, Off, Moved, FootEnd, FooterSize, Stands;
    CellsMine(mem, mem', w);
    SoundStands(mem, w);
    FreshMoved(mem, w, loc', end');
    ChunkNonEmpty(mem', loc', end');
    forall b: Buffer
      ensures Off(w.end.Of(b), FooterSize(w.end.Of(b)), Here(loc', end'))
      ensures Off(w.end.Of(b), FooterSize(w.end.Of(b)), Writer(w.loc, end', w.own))
    {
      OneStands(mem, w, b);
      FooterOffNew(mem, w, b, loc', end');
    }
    StandsCells(mem, w);
    FreshOff(mem, w.loc.tags, NODE_SIZE, loc', end');
    FreshOff(mem, w.loc.leaves, NODE_SIZE, loc', end');
    FreshOff(mem, w.loc.inners, NODE_SIZE, loc', end');
  }

  lemma ChunkNonEmpty(mem: Mem, loc: Cursors, end: Cursors)
    requires Writable3(mem, loc, end)
    ensures loc.tags <= end.tags && loc.leaves <= end.leaves && loc.inners <= end.inners
  {
    hide LoadWord;
  }

  lemma StandsCells(mem: Mem, w: Writer)
    requires Stands3(mem, w) && RedirectRoom(w.loc, w.own)
    ensures Allocated(mem, w.loc.tags, NODE_SIZE) && Allocated(mem, w.loc.leaves, NODE_SIZE) && Allocated(mem, w.loc.inners, NODE_SIZE)
    ensures w.own.tags in mem && w.own.leaves in mem && w.own.inners in mem
  {
  }

  lemma FreshMoved(mem: Mem, w: Writer, loc': Cursors, end': Cursors)
    requires Fresh3(mem, loc', end') && loc'.tags <= end'.tags && loc'.leaves <= end'.leaves && loc'.inners <= end'.inners
    ensures Moved(mem, w, Here(loc', end')) && Moved(mem, w, Writer(w.loc, end', w.own))
  {
  }

  lemma FreshOff(mem: Mem, a: int, n: nat, loc': Cursors, end': Cursors)
    requires Allocated(mem, a, n) && Fresh3(mem, loc', end')
    requires loc'.tags <= end'.tags && loc'.leaves <= end'.leaves && loc'.inners <= end'.inners
    ensures Off(a, n, Here(loc', end'))
  {
    forall x | a <= x < a + n
      ensures !Mine(x, Here(loc', end'))
    {
      assert x in mem;
    }
  }

  lemma OneStands(mem: Mem, w: Writer, b: Buffer)
    requires Stands3(mem, w)
    ensures Stands(mem, w, b)
  {
    hide Stands;
    match b {
      case Tags =>
      case Leaves =>
      case Inners =>
    }
  }

  lemma FooterOffNew(mem: Mem, w: Writer, b: Buffer, loc': Cursors, end': Cursors)
    requires Stands(mem, w, b) && Fresh3(mem, loc', end')
    requires loc'.tags <= end'.tags && loc'.leaves <= end'.leaves && loc'.inners <= end'.inners
    ensures Off(w.end.Of(b), FooterSize(w.end.Of(b)), Here(loc', end'))
    ensures Off(w.end.Of(b), FooterSize(w.end.Of(b)), Writer(w.loc, end', w.own))
  {
    hide Payload, LoadWord;
    var e, n := w.end.Of(b), FooterSize(w.end.Of(b));
    FreshOff(mem, e, n, loc', end');
    forall x | e <= x < e + n
      ensures !Mine(x, Writer(w.loc, end', w.own))
    {
      assert !Mine(x, Here(loc', end'));
    }
  }

  /** Astray: the old cursors, the new footers. */
  lemma StrayedSound(mem: Mem, mem': Mem, w: Writer, loc': Cursors, end': Cursors)
    requires Sound(mem, w) && RedirectRoom(w.loc, w.own) && GrownFrom3(mem, mem', w.loc, w.end, loc', end')
    ensures Sound(mem', Writer(w.loc, end', w.own)) && Writer(w.loc, end', w.own).Astray()
  {
    hide Sound, Writable, Grown, NewChunks, Sized, LoadWord, SameBut, Stands;
    SoundStands(mem, w);
    StandsCells(mem, w);
    SameExtends(mem, mem', Writer(w.loc, w.end, CellEnds(w.loc)));
    WritableSpan(mem', loc'.tags, end'.tags);
    WritableSpan(mem', loc'.leaves, end'.leaves);
    WritableSpan(mem', loc'.inners, end'.inners);
    assert end'.tags !in mem;
    StandsStrayed(mem, mem', w, loc', end', Tags);
    StandsStrayed(mem, mem', w, loc', end', Leaves);
    StandsStrayed(mem, mem', w, loc', end', Inners);
    assert Strayed(mem', Writer(w.loc, end', w.own));
    StrayedIsSound(mem', Writer(w.loc, end', w.own));
  }

  lemma StrayedIsSound(mem: Mem, w: Writer)
    requires w.Astray() && Strayed(mem, w)
    ensures Sound(mem, w)
  {
  }

  lemma StandsStrayed(mem: Mem, mem': Mem, w: Writer, loc': Cursors, end': Cursors, b: Buffer)
    requires Stands3(mem, w) && (forall x :: x in mem ==> x in mem')
    requires Fresh3(mem, loc', end') && Sized(mem', end'.Of(b)) && loc'.Of(b) <= end'.Of(b)
    ensures Stands(mem', Writer(w.loc, end', w.own), b)
  {
    hide Sized, FootEnd, FooterSize;
    FreshFooter(mem, w.loc.tags, w.own.tags, loc'.Of(b), end'.Of(b));
    FreshFooter(mem, w.loc.leaves, w.own.leaves, loc'.Of(b), end'.Of(b));
    FreshFooter(mem, w.loc.inners, w.own.inners, loc'.Of(b), end'.Of(b));
  }

  lemma FreshFooter(mem: Mem, loc: int, own: int, loc': int, end': int)
    requires loc <= own && Allocated(mem, loc, FootEnd(own) - loc) && Fresh(mem, loc', FootEnd(end')) && loc' <= end'
    ensures Clear(end', FooterSize(end'), loc, own)
  {
    FreshClear(mem, loc, FootEnd(own) - loc, loc', FootEnd(end'));
  }

  /** In every buffer growing adds one chunk to the chain; w1 writes on somewhere else. */
  lemma GrownExtended(mem: Mem, mem': Mem, loc: Cursors, end: Cursors, loc': Cursors, end': Cursors, w1: Writer, b: Buffer)
    requires GrownFrom3(mem, mem', loc, end, loc', end') && Off(end.Of(b), FooterSize(end.Of(b)), w1)
    ensures 0 <= loc'.Of(b) < POINTER_LIMIT && loc'.Of(b) <= end'.Of(b) < loc'.Of(b) + 0x1_0000
    ensures Extended(mem, mem', end.Of(b), [RedirectionWord(loc'.Of(b), end'.Of(b))], end'.Of(b), w1)
  {
    hide LoadWord, GrownPayload, RedirectionWord, SameBut, Apart, Pointer, Tag, FootEnd, Off;
    var e, w := end.Of(b), RedirectionWord(loc'.Of(b), end'.Of(b));
    assert Grown(mem, mem', loc.Of(b), e, loc'.Of(b), end'.Of(b));
    assert Hop(mem', e, w);
    OneHop(mem', e, w);
    SubChunks(mem, mem', loc', end', b);
    OneFooterOff(e, w, w1);
  }

  lemma SubChunks(mem: Mem, mem': Mem, loc: Cursors, end: Cursors, b: Buffer)
    requires Redirectable(loc, end) && NewChunks(mem, mem', NewWords(loc, end))
    ensures NewChunks(mem, mem', [RedirectionWord(loc.Of(b), end.Of(b))])
  {
    hide RedirectionWord, NewChunk;
    var ws := NewWords(loc, end);
    assert ws[0] in ws && ws[1] in ws && ws[2] in ws;
  }

  lemma OneHop(mem: Mem, end: int, w: Word)
    requires Hop(mem, end, w)
    ensures Chain(mem, end, [w], FooterOf(w))
  {
    assert [w][1..] == [];
  }

  lemma OneFooterOff(end: int, w: Word, w1: Writer)
    requires Off(end, FooterSize(end), w1)
    ensures FootersOff(end, [w], w1)
  {
    assert [w][1..] == [];
  }

  /** Growing extends every buffer's chain by one chunk; what is written then goes on there. */
  lemma GrownChunks(mem0: Mem, memG: Mem, mem': Mem, w: Writer, locG: Cursors, endG: Cursors, w1: Writer,
                    w': Writer, l: SoaLayout, g: SoaLayout)
    requires Sound(mem0, w) && RedirectRoom(w.loc, w.own) && GrownFrom3(mem0, memG, w.loc, w.end, locG, endG)
    requires w1.end == endG && Wrote(memG, mem', w1, w', l, g)
    requires forall b: Buffer :: Off(w.end.Of(b), FooterSize(w.end.Of(b)), w1)
    ensures forall b: Buffer ::
              Extended(mem0, mem', w.end.Of(b), WordsOf(Redirected(locG, endG, g), b), w'.end.Of(b), w')
    ensures NewChunks(mem0, mem', AllWords(Redirected(locG, endG, g)))
  {
    hide LoadWord, RedirectionWord, At, Avoids, SameBut, Moved, Sound, Extended, NewChunks, Fresh3, Grown, Writable, Off, Inside;
    WroteInside(memG, mem', w1, w', l, g);
    SameExtends(mem0, memG, Writer(w.loc, w.end, CellEnds(w.loc)));
    forall b: Buffer
      ensures Extended(mem0, mem', w.end.Of(b), WordsOf(Redirected(locG, endG, g), b), w'.end.Of(b), w')
    {
      GrownExtended(mem0, memG, w.loc, w.end, locG, endG, w1, b);
      var word := RedirectionWord(locG.Of(b), endG.Of(b));
      ExtendedAppend(mem0, memG, mem', w.end.Of(b), [word], endG.Of(b), WordsOf(g, b), w'.end.Of(b), w1, w');
    }
    NewChunksAppend(mem0, memG, mem', NewWords(locG, endG), AllWords(g));
  }

  /** A value written after all three regions have grown: the old cursors hold
      redirections to it. */
  lemma GrownWritten(mem0: Mem, memG: Mem, mem': Mem, w: Writer, locG: Cursors, endG: Cursors,
                     w': Writer, l: SoaLayout, g: SoaLayout)
    requires Sound(mem0, w) && RedirectRoom(w.loc, w.own) && GrownFrom3(mem0, memG, w.loc, w.end, locG, endG)
    requires Wrote(memG, mem', Here(locG, endG), w', l, g)
    ensures Wrote(mem0, mem', w, w', Redirected(locG, endG, l), Redirected(locG, endG, g))
  {
    hide LoadWord, RedirectionWord, Sound, SameBut, Moved, Off, Grown, Extended, NewChunks, Fresh3, Writable, PointersOff, Pointers, Inside;
    GrownStep(mem0, memG, w, locG, endG);
    WroteStep(mem0, memG, mem', w, Here(locG, endG), w', l, g);
    GrownPointers(mem0, memG, w.loc, w.end, locG, endG, Redirected(locG, endG, l));
    WroteInside(memG, mem', Here(locG, endG), w', l, g);
    FramePointers(memG, mem', Here(locG, endG), w.loc, Redirected(locG, endG, l), GIB_REDIRECTION_TAG);
    PointersInside(memG, w.loc, Redirected(locG, endG, l), GIB_REDIRECTION_TAG, Here(locG, endG), w');
    GrownChunks(mem0, memG, mem', w, locG, endG, Here(locG, endG), w', l, g);
  }

  /** A value written after growth at the cursors before it: no redirection leads to the
      chunks added. */
  lemma StrayWritten(mem0: Mem, memG: Mem, mem': Mem, w: Writer, locG: Cursors, endG: Cursors,
                     w': Writer, l: SoaLayout, g: SoaLayout)
    requires Sound(mem0, w) && RedirectRoom(w.loc, w.own) && GrownFrom3(mem0, memG, w.loc, w.end, locG, endG)
    requires Wrote(memG, mem', Writer(w.loc, endG, w.own), w', l, g)
    ensures Wrote(mem0, mem', w, w', l, Redirected(locG, endG, g))
  {
    hide LoadWord, RedirectionWord, Sound, SameBut, Moved, Off, Grown, Extended, NewChunks, Fresh3, Writable, At, Avoids;
    GrownStep(mem0, memG, w, locG, endG);
    WroteStep(mem0, memG, mem', w, Writer(w.loc, endG, w.own), w', l, g);
    GrownChunks(mem0, memG, mem', w, locG, endG, Writer(w.loc, endG, w.own), w', l, g);
  }

  lemma GrownPointers(mem: Mem, mem': Mem, loc: Cursors, end: Cursors, loc': Cursors, end': Cursors, g: SoaLayout)
    requires Redirectable(loc', end') && g.AllRedirected? && g == Redirected(loc', end', g.rest)
    requires forall b: Buffer :: Grown(mem, mem', loc.Of(b), end.Of(b), loc'.Of(b), end'.Of(b))
    ensures Pointers(mem', loc, g, GIB_REDIRECTION_TAG)
  {
    hide Writable, Behind, FooterKept, LoadWord, GrownPayload, RedirectionWord;
    assert Grown(mem, mem', loc.Of(Tags), end.Of(Tags), loc'.Of(Tags), end'.Of(Tags));
    assert Grown(mem, mem', loc.Of(Leaves), end.Of(Leaves), loc'.Of(Leaves), end'.Of(Leaves));
    assert Grown(mem, mem', loc.Of(Inners), end.Of(Inners), loc'.Of(Inners), end'.Of(Inners));
  }

  // The chunks growth has handed out are those the redirections name, in this order.

  lemma LeafLog(log: seq<GibChunk>, v: Word)
    ensures log + ChunksOf(AllWords(LeafCells(v))) == log
  {
  }

  lemma NodeLog(log: seq<GibChunk>, left: SoaLayout, right: SoaLayout, v: Word)
    ensures log + ChunksOf(AllWords(left)) + ChunksOf(AllWords(right)) == log + ChunksOf(AllWords(NodeCells(v, left, right)))
  {
    ChunksAppend(AllWords(left), AllWords(right));
  }

  lemma GrownLog(log: seq<GibChunk>, start: Cursors, end: Cursors, l: SoaLayout)
    requires Redirectable(start, end)
    ensures log + PartsOf((start, end)) + ChunksOf(AllWords(l)) == log + ChunksOf(AllWords(Redirected(start, end, l)))
    ensures Footers(Redirected(start, end, l)) == end
  {
    hide RedirectionWord, Pointer, Tag;
    var i, f, t := RedirectionWord(start.inners, end.inners), RedirectionWord(start.leaves, end.leaves), RedirectionWord(start.tags, end.tags);
    ChunksAppend([i, f, t], AllWords(l));
    assert ChunksOf([i, f, t]) == PartsOf((start, end));
  }
}

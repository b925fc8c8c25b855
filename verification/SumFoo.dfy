/** The parallel-sum benchmark: mkFoo packs a tree and records random-access pointers
    at big nodes, sumFoo jumps through them. */
module SumFoo {
  import opened Memory
  import opened Outcomes
  import opened Runtime
  import opened FooTrees
  import opened PackedFoo
  import opened FooWriters
  import Trees

  /** The chunk behind the one with footer end, and the last one. */
  ghost predicate ChunkLinked(mem: Mem, mem': Mem, end: int, start: int, end': int)
    requires Allocated(mem, end, REGION_FOOTER_SIZE)
  {
    && Changed(mem, mem', Range(end + NEXT, end + NEXT + 8))
    && Follows(mem', end, end', start) && FooterWord(mem', end', NEXT) == 0
  }

  /** A new chunk that did not exist before. */
  ghost predicate NewChunk(mem: Mem, mem': Mem, start: int, end: int) {
    && 0 < start < end && end + REGION_FOOTER_SIZE <= POINTER_LIMIT
    && Fresh(mem, start, end + REGION_FOOTER_SIZE)
    && Allocated(mem', start, end + REGION_FOOTER_SIZE - start)
  }

  /** Fills in a footer, field by field. */
  method WriteFooter(rt: Runtime, end: int, seqNo: Word, size: Word, refcountPtr: Word, outsetPtr: Word, prev: Word)
    requires Allocated(rt.mem, end, REGION_FOOTER_SIZE)
    modifies rt`mem
    ensures Changed(old(rt.mem), rt.mem, Range(end, end + REGION_FOOTER_SIZE)) && rt.mem.Keys == old(rt.mem).Keys
    ensures FooterWord(rt.mem, end, SEQ_NO) == seqNo && FooterWord(rt.mem, end, SIZE) == size
    ensures FooterWord(rt.mem, end, REFCOUNT_PTR) == refcountPtr && FooterWord(rt.mem, end, OUTSET_PTR) == outsetPtr
    ensures FooterWord(rt.mem, end, NEXT) == 0 && FooterWord(rt.mem, end, PREV) == prev
  {
    var mem1 := StoreWord(rt.mem, end, seqNo);
    var mem2 := StoreWord(mem1, end + SIZE, size);
    var mem3 := StoreWord(mem2, end + REFCOUNT_PTR, refcountPtr);
    var mem4 := StoreWord(mem3, end + OUTSET_PTR, outsetPtr);
    var mem5 := StoreWord(mem4, end + NEXT, 0);
    rt.mem := StoreWord(mem5, end + PREV, prev);
    hide LoadWord, StoreWord, Same;
    var mem6 := rt.mem;
    FieldStored(mem5, mem6, mem6, end + PREV, end + 48, prev);
    FieldStored(mem4, mem5, mem6, end + NEXT, end + 48, 0);
    FieldStored(mem3, mem4, mem6, end + OUTSET_PTR, end + 48, outsetPtr);
    FieldStored(mem2, mem3, mem6, end + REFCOUNT_PTR, end + 48, refcountPtr);
    FieldStored(mem1, mem2, mem6, end + SIZE, end + 48, size);
    FieldStored(old(rt.mem), mem1, mem6, end, end + 48, seqNo);
    SameChanged(old(rt.mem), mem6, end, end + 48);
  }

  /** A field stored before the ones behind it keeps its value. */
  lemma FieldStored(mem: Mem, mem': Mem, last: Mem, a: int, hi: int, w: Word)
    requires Allocated(mem, a, 8) && mem' == StoreWord(mem, a, w) && a + 8 <= hi
    requires Same(mem', last, a + 8, hi) || last == mem'
    ensures Same(mem, last, a, hi) && Allocated(last, a, 8) && LoadWord(last, a) == w
  {
    hide LoadWord, StoreWord;
    if last != mem' {
      FrameWord(mem', last, a + 8, hi, a);
    }
  }

  lemma SameChanged(mem: Mem, mem': Mem, lo: int, hi: int)
    requires Same(mem, mem', lo, hi)
    ensures Changed(mem, mem', Range(lo, hi))
  {
  }

  method AllocChunk(rt: Runtime, end: int) returns (r: Outcome<GibChunk>)
    requires Allocated(rt.mem, end, REGION_FOOTER_SIZE) && 0 <= end < POINTER_LIMIT
    requires 16 <= FooterWord(rt.mem, end, SIZE)
    modifies rt`mem, rt`failedAllocs
    ensures rt.failedAllocs == old(rt.failedAllocs) + (if r.Exit? then 1 else 0)
    ensures r.Done? ==> ChunkLinked(old(rt.mem), rt.mem, end, r.value.start, r.value.end)
    ensures r.Done? ==> NewChunk(old(rt.mem), rt.mem, r.value.start, r.value.end)
  {
    hide LoadWord, FooterWord, Stays, ChunkLinked, NewChunk, Range, Same, Fresh, Allocated;
    var size := NextChunkSize(FooterWord(rt.mem, end, SIZE));
    var start :- rt.Malloc(size + REGION_FOOTER_SIZE);
    FooterApart(old(rt.mem), rt.mem, end, start, start + size);
    LinkChunk(rt, end, start, start + size, old(rt.mem));
    r := Done(GibChunk(start, start + size));
  }

  /** Links a chunk just allocated behind the one with footer end. */
  method LinkChunk(rt: Runtime, end: int, start: int, end': int, ghost mem0: Mem)
    requires Stays(mem0, rt.mem, end) && Same(mem0, rt.mem, 0, 0)
    requires NewChunk(mem0, rt.mem, start, end') && end' - start == NextChunkSize(FooterWord(mem0, end, SIZE))
    requires 0 <= end < POINTER_LIMIT && Range(end, end + REGION_FOOTER_SIZE) !! Range(end', end' + REGION_FOOTER_SIZE)
    modifies rt`mem
    ensures ChunkLinked(mem0, rt.mem, end, start, end') && NewChunk(mem0, rt.mem, start, end')
  {
    hide LoadWord, ChunkLinked, NextChunkSize, Fresh, Same, Allocated, Changed, Range;
    ghost var mem1 := rt.mem;
    StoreNext(rt, end, end');
    ghost var mem2 := rt.mem;
    NewFooterThere(mem0, mem1, mem2, start, end');
    NextStored(mem1, mem2, end);
    WriteFooter(rt, end', Trees.Wrap(FooterWord(rt.mem, end, SEQ_NO) + 1), end' - start,
                FooterWord(rt.mem, end, REFCOUNT_PTR), FooterWord(rt.mem, end, OUTSET_PTR), end);
    FooterOutside(mem2, rt.mem, Range(end', end' + REGION_FOOTER_SIZE), end);
    ChunkDone(mem0, mem1, mem2, rt.mem, end, start, end');
  }

  method StoreNext(rt: Runtime, end: int, next: Word)
    requires Allocated(rt.mem, end, REGION_FOOTER_SIZE)
    modifies rt`mem
    ensures Changed(old(rt.mem), rt.mem, Range(end + NEXT, end + NEXT + 8)) && rt.mem.Keys == old(rt.mem).Keys
    ensures Allocated(rt.mem, end, REGION_FOOTER_SIZE) && FooterWord(rt.mem, end, NEXT) == next
  {
    hide LoadWord;
    rt.mem := StoreWord(rt.mem, end + NEXT, next);
  }

  lemma NewFooterThere(mem0: Mem, mem1: Mem, mem2: Mem, start: int, end': int)
    requires NewChunk(mem0, mem1, start, end') && mem2.Keys == mem1.Keys
    ensures Allocated(mem2, end', REGION_FOOTER_SIZE) && 0 < end' - start && 0 < end' && end' + REGION_FOOTER_SIZE <= POINTER_LIMIT
    ensures Fresh(mem0, start, end' + REGION_FOOTER_SIZE) && Allocated(mem1, start, end' + REGION_FOOTER_SIZE - start)
    ensures 0 < start < end'
  {
  }

  /** mem0 -malloc-> mem1 -next link-> mem2 -new footer-> mem3 */
  lemma ChunkDone(mem0: Mem, mem1: Mem, mem2: Mem, mem3: Mem, end: int, start: int, end': int)
    requires Stays(mem0, mem1, end) && Stays(mem1, mem2, end) && Stays(mem2, mem3, end)
    requires Fresh(mem0, start, end' + REGION_FOOTER_SIZE) && Allocated(mem1, start, end' + REGION_FOOTER_SIZE - start)
    requires 0 < start < end' && end' + REGION_FOOTER_SIZE <= POINTER_LIMIT
    requires Same(mem0, mem1, 0, 0) && mem2.Keys == mem1.Keys && mem3.Keys == mem2.Keys
    requires Changed(mem1, mem2, Range(end + NEXT, end + NEXT + 8))
    requires Changed(mem2, mem3, Range(end', end' + REGION_FOOTER_SIZE))
    requires FooterWord(mem2, end, NEXT) == end' == FooterWord(mem3, end, NEXT)
    requires FooterWord(mem3, end', SIZE) == end' - start == NextChunkSize(FooterWord(mem0, end, SIZE))
    requires FooterWord(mem3, end', SEQ_NO) == Trees.Wrap(FooterWord(mem2, end, SEQ_NO) + 1)
    requires FooterWord(mem3, end', REFCOUNT_PTR) == FooterWord(mem2, end, REFCOUNT_PTR)
    requires FooterWord(mem3, end', OUTSET_PTR) == FooterWord(mem2, end, OUTSET_PTR)
    requires FooterWord(mem3, end', NEXT) == 0 && FooterWord(mem3, end', PREV) == end
    ensures ChunkLinked(mem0, mem3, end, start, end') && NewChunk(mem0, mem3, start, end')
  {
    hide LoadWord;
  }

  lemma NextStored(mem: Mem, mem': Mem, end: int)
    requires Allocated(mem, end, REGION_FOOTER_SIZE) && Changed(mem, mem', Range(end + NEXT, end + NEXT + 8))
    ensures Stays(mem, mem', end)
  {
    hide LoadWord;
    forall d | 0 <= d <= 24 || d == PREV
      ensures FooterWord(mem', end, d) == FooterWord(mem, end, d)
    {
      FrameWordIn(mem, mem', Range(end + NEXT, end + NEXT + 8), end + d);
    }
  }

  lemma FooterApart(mem: Mem, mem': Mem, end: int, start: int, end': int)
    requires Allocated(mem, end, REGION_FOOTER_SIZE) && Fresh(mem, start, end' + REGION_FOOTER_SIZE)
    requires 0 < start < end' && end' + REGION_FOOTER_SIZE <= POINTER_LIMIT
    requires Allocated(mem', start, end' - start + REGION_FOOTER_SIZE) && Same(mem, mem', 0, 0)
    ensures Range(end, end + REGION_FOOTER_SIZE) !! Range(end', end' + REGION_FOOTER_SIZE)
    ensures Stays(mem, mem', end) && NewChunk(mem, mem', start, end')
  {
    FooterOutside(mem, mem', {}, end);
  }

  /** The bounds check: less than 31 bytes left, so the data goes on in a new chunk. */
  method GrowFoo(rt: Runtime, end: int, out: int, ghost w: Window) returns (r: Outcome<GibChunk>)
    requires w.end == end && w.out == out && Room(rt.mem, w)
    modifies rt`mem, rt`failedAllocs
    ensures rt.failedAllocs == old(rt.failedAllocs) + (if r.Exit? then 1 else 0)
    ensures r.Done? ==> var wG := w.(out := r.value.start, end := r.value.end);
                        && Piece(old(rt.mem), rt.mem, w, wG, Range(out, out + 9))
                        && Header(rt.mem, out, FOO_REDIRECTION_TAG, wG.out)
                        && wG.out + 31 <= wG.end && 0 <= wG.out < POINTER_LIMIT
                        && Chained(old(rt.mem), rt.mem, w, wG, [wG.out])
  {
    hide LoadWord, Range, Fresh;
    var chunk :- AllocChunk(rt, end);
    ghost var mem1 := rt.mem;
    rt.WriteNode(out, FOO_REDIRECTION_TAG, chunk.start);
    GrownPiece(old(rt.mem), mem1, rt.mem, w, chunk.start, chunk.end);
    GrownChained(old(rt.mem), mem1, rt.mem, w, chunk.start, chunk.end);
    r := Done(chunk);
  }

  /** The chain goes on with the chunk the redirection names. */
  lemma GrownChained(mem0: Mem, mem1: Mem, mem2: Mem, w: Window, start: int, end: int)
    requires Room(mem0, w) && ChunkLinked(mem0, mem1, w.end, start, end) && NewChunk(mem0, mem1, start, end)
    requires Same(mem1, mem2, w.out, w.out + 9)
    ensures 0 < start < POINTER_LIMIT && Chained(mem0, mem2, w, w.(out := start, end := end), [start])
  {
    hide LoadWord, Range, Fresh, Span, Allocated, Same, Changed;
    RoomAllocated(mem0, w);
    SameChanged(mem1, mem2, w.out, w.out + 9);
    LinkFacts(mem0, mem1, w.end, start, end);
    FootersApart(mem0, w, start, end);
    NextStored(mem0, mem1, w.end);
    FooterOutside(mem1, mem2, Range(w.out, w.out + 9), w.end);
    FooterOutside(mem1, mem2, Range(w.out, w.out + 9), end);
    NewFooter(mem0, start, end);
    assert Follows(mem2, w.end, end, start);
    assert [start][1..] == [] && Links(mem0, mem2, end, [], end, Span(w.(out := start, end := end)));
  }

  lemma NewFooter(mem: Mem, start: int, end: int)
    requires Fresh(mem, start, end + REGION_FOOTER_SIZE) && start < end
    ensures Absent(mem, end)
  {
  }

  /** The footer left behind and the new one are apart from the redirection, and the
      former from the new window. */
  lemma FootersApart(mem: Mem, w: Window, start: int, end: int)
    requires Room(mem, w) && Fresh(mem, start, end + REGION_FOOTER_SIZE) && start < end
    ensures var redir, foot := Range(w.out, w.out + 9), Range(w.end, w.end + REGION_FOOTER_SIZE);
            && foot !! redir && Range(end, end + REGION_FOOTER_SIZE) !! redir
            && foot !! Span(w.(out := start, end := end))
  {
    hide LoadWord;
    GrownSpans(mem, w, start, end);
    FreshApart(mem, start, end + REGION_FOOTER_SIZE, w.end, w.end + REGION_FOOTER_SIZE);
    assert Range(w.end, w.end + REGION_FOOTER_SIZE) <= Range(w.out, w.end + REGION_FOOTER_SIZE);
  }

  lemma GrownPiece(mem0: Mem, mem1: Mem, mem2: Mem, w: Window, start: int, end: int)
    requires Room(mem0, w)
    requires ChunkLinked(mem0, mem1, w.end, start, end) && NewChunk(mem0, mem1, start, end)
    requires Same(mem1, mem2, w.out, w.out + 9)
    ensures var wG := w.(out := start, end := end);
            && Piece(mem0, mem2, w, wG, Range(w.out, w.out + 9)) && wG.out + 31 <= wG.end
  {
    hide LoadWord, FooterWord, Range, Span, Fresh, Same, ChunkLinked, NewChunk, Room, Within, Changed;
    RoomAllocated(mem0, w);
    LinkFacts(mem0, mem1, w.end, start, end);
    GrownSpans(mem0, w, start, end);
    SameChanged(mem1, mem2, w.out, w.out + 9);
    GrownRoom(mem0, mem1, mem2, w, start, end);
    BothChanged(mem0, mem1, mem2, Span(w), Range(w.end + NEXT, w.end + NEXT + 8), Range(w.out, w.out + 9));
  }

  lemma LinkFacts(mem: Mem, mem': Mem, end: int, start: int, end': int)
    requires Allocated(mem, end, REGION_FOOTER_SIZE) && ChunkLinked(mem, mem', end, start, end')
    requires NewChunk(mem, mem', start, end')
    ensures Changed(mem, mem', Range(end + NEXT, end + NEXT + 8))
    ensures Fresh(mem, start, end' + REGION_FOOTER_SIZE) && start <= end'
  {
    hide LoadWord, Range;
  }

  lemma BothChanged(mem0: Mem, mem1: Mem, mem2: Mem, s: set<int>, s1: set<int>, s2: set<int>)
    requires Changed(mem0, mem1, s1) && Changed(mem1, mem2, s2) && s1 <= s && s2 <= s
    ensures Changed(mem0, mem2, s) && forall x :: x in mem0 ==> x in mem2
  {
  }

  lemma RoomAllocated(mem: Mem, w: Window)
    requires Room(mem, w)
    ensures Allocated(mem, w.end, REGION_FOOTER_SIZE)
    ensures forall x :: x in Range(w.out, w.out + 9) ==> x in mem
  {
  }

  lemma GrownRoom(mem0: Mem, mem1: Mem, mem2: Mem, w: Window, start: int, end: int)
    requires Room(mem0, w)
    requires ChunkLinked(mem0, mem1, w.end, start, end) && NewChunk(mem0, mem1, start, end)
    requires Changed(mem1, mem2, Range(w.out, w.out + 9))
    requires Range(end, end + REGION_FOOTER_SIZE) !! Range(w.out, w.out + 9)
    requires Range(start, end + REGION_FOOTER_SIZE) !! Range(w.ran, w.ranEnd)
    ensures Room(mem2, w.(out := start, end := end)) && start + 31 <= end
  {
    hide Range, LoadWord, Fresh;
    NextStored(mem0, mem1, w.end);
    FooterOutside(mem1, mem2, Range(w.out, w.out + 9), end);
  }

  /** The new chunk is apart from everything the writer had; it keeps its slots. */
  lemma GrownSpans(mem: Mem, w: Window, start: int, end: int)
    requires Room(mem, w) && Fresh(mem, start, end + REGION_FOOTER_SIZE) && start <= end
    ensures var wG, redir := w.(out := start, end := end), Range(w.out, w.out + 9);
            && redir <= Span(w) && Range(w.end + NEXT, w.end + NEXT + 8) <= Span(w) && redir !! Span(wG)
            && Range(end, end + REGION_FOOTER_SIZE) !! redir
            && Within(mem, Span(w), Span(wG)) && Within(mem, Span(w), redir)
            && Range(start, end + REGION_FOOTER_SIZE) !! Range(w.ran, w.ranEnd)
  {
    hide LoadWord;
    var chunk := Range(start, end + REGION_FOOTER_SIZE);
    FreshApart(mem, start, end + REGION_FOOTER_SIZE, w.out, w.end + REGION_FOOTER_SIZE);
    FreshApart(mem, start, end + REGION_FOOTER_SIZE, w.ran, w.ranEnd);
    assert Range(end, end + REGION_FOOTER_SIZE) <= chunk;
  }

  lemma FreshApart(mem: Mem, lo: int, hi: int, a: int, b: int)
    requires Fresh(mem, lo, hi) && Allocated(mem, a, b - a)
    ensures Range(lo, hi) !! Range(a, b)
    ensures forall x :: x in Range(lo, hi) ==> x !in mem
  {
    forall x | x in Range(a, b)
      ensures x !in Range(lo, hi)
    {
      assert x in mem;
    }
  }

  datatype MadeFoo = MadeFoo(end: int, out: int, ran: int, size: nat)

  /** What mkFoo n has to write, given where its slots start and end. */
  ghost predicate Means(c: Cells, n: int, ran: int, ran': int, size: nat)
    requires n < INT_LIMIT
  {
    && FooOf(c) == MkSpec(n) && size == Size(MkSpec(n))
    && Thresholded(c) && NoIndirection(c)
    && Consecutive(Slots(c), ran) && ran' == ran + 16 * |Slots(c)|
  }

  /** The slots a value needs. */
  lemma MeansCount(c: Cells, n: int, ran: int, ran': int, size: nat)
    requires n < INT_LIMIT && Means(c, n, ran, ran', size)
    ensures ran' == ran + 16 * BigCount(MkSpec(n)) && size == Size(MkSpec(n))
  {
    SlotCount(c);
  }

  lemma Budget(n: int)
    requires 1 < n < INT_LIMIT
    ensures var big := Size(MkSpec(n - 1)) + Size(MkSpec(n - 2)) + Size(MkSpec(n - 3)) + 1 > PAR_SIZE_THRESHOLD;
            BigCount(MkSpec(n)) ==
            BigCount(MkSpec(n - 1)) + BigCount(MkSpec(n - 2)) + BigCount(MkSpec(n - 3)) + (if big then 1 else 0)
  {
  }

  lemma BMeans(f1: Cells, f2: Cells, ran0: int, ran1: int, ran2: int, size1: nat, size2: nat)
    requires Means(f1, 0, ran0, ran1, size1) && Means(f2, -1, ran1, ran2, size2)
    ensures Means(BCell(1, f1, f2), 1, ran0, ran2, size1 + size2 + 9)
  {
    ConsecutiveAppend(Slots(f1), Slots(f2), ran0);
  }

  lemma CMeans(slot: Word, n: int, f1: Cells, f2: Cells, f3: Cells, ran0: int, ran1: int, ran2: int, ran3: int,
               size1: nat, size2: nat, size3: nat)
    requires 1 < n < INT_LIMIT
    requires Means(f1, n - 1, ran0, ran1, size1) && Means(f2, n - 2, ran1, ran2, size2) && Means(f3, n - 3, ran2, ran3, size3)
    ensures var size := size1 + size2 + size3 + 17;
            if size1 + size2 + size3 + 1 > PAR_SIZE_THRESHOLD
            then 0 <= ran3 < WORD_LIMIT ==> Means(CBig(ran3, n, f1, f2, f3), n, ran0, ran3 + 16, size)
            else Means(CTmp(slot, n, f1, f2, f3), n, ran0, ran3, size)
  {
    var s := Slots(f1) + Slots(f2);
    ConsecutiveAppend(Slots(f1), Slots(f2), ran0);
    ConsecutiveAppend(s, Slots(f3), ran0);
    assert Consecutive([ran3], ran3);
    ConsecutiveAppend(s + Slots(f3), [ran3], ran0);
  }

  /** The tag and number of a three-child node; the pointer slot stays as it was. */
  method WriteTmp(rt: Runtime, out: int, n: Word) returns (ghost slot: Word)
    requires Allocated(rt.mem, out, 17)
    modifies rt`mem
    ensures CHeader(rt.mem, out, C_TMP_TAG, slot, n) && Changed(old(rt.mem), rt.mem, Range(out, out + 17))
  {
    hide LoadWord;
    rt.mem := rt.mem[out := C_TMP_TAG];
    rt.mem := StoreWord(rt.mem, out + 9, n);
    slot := LoadWord(rt.mem, out + 1);
    SameChanged(old(rt.mem), rt.mem, out, out + 17);
  }

  /** The node's header takes the first 17 bytes of the window. */
  method StartBranch(rt: Runtime, out: int, n: Word, ghost w: Window) returns (ghost slot: Word)
    requires Room(rt.mem, w) && w.out == out && out + 31 <= w.end
    modifies rt`mem
    ensures CHeader(rt.mem, out, C_TMP_TAG, slot, n)
    ensures Piece(old(rt.mem), rt.mem, w, w.(out := out + 17), Range(out, out + 17)) && Room(rt.mem, w.(out := out + 17))
    ensures Chained(old(rt.mem), rt.mem, w, w.(out := out + 17), [])
  {
    hide Piece, Range, Changed, CHeader, Chained;
    slot := WriteTmp(rt, out, n);
    hide Room;
    HeaderPiece(old(rt.mem), rt.mem, w, w.(out := out + 17), 17);
    HeaderChained(old(rt.mem), rt.mem, w, w.(out := out + 17), 17);
    PieceRoom(old(rt.mem), rt.mem, w, w.(out := out + 17), Range(out, out + 17));
  }

  /** Turns a node into a big one: its tag, its pointer, and the slot pointed to. */
  method Promote(rt: Runtime, out: int, ran: int, out1: int, out2: int, ghost slot: Word, ghost n: Word)
    requires CHeader(rt.mem, out, C_TMP_TAG, slot, n) && Allocated(rt.mem, ran, 16)
    requires Range(out, out + 17) !! Range(ran, ran + 16)
    requires 0 <= ran < WORD_LIMIT && 0 <= out1 < WORD_LIMIT && 0 <= out2 < WORD_LIMIT
    modifies rt`mem
    ensures CHeader(rt.mem, out, C_BIG_TAG, ran, n) && SlotHolds(rt.mem, ran, out1, out2)
    ensures Changed(old(rt.mem), rt.mem, Promotion(out, ran))
  {
    hide LoadWord, StoreWord;
    rt.WriteNode(out, C_BIG_TAG, ran);
    ghost var mem1 := rt.mem;
    FrameWord(old(rt.mem), mem1, out, out + 9, out + 9);
    rt.mem := StoreWord(rt.mem, ran, out1);
    ghost var mem2 := rt.mem;
    rt.mem := StoreWord(rt.mem, ran + 8, out2);
    FieldStored(mem2, rt.mem, rt.mem, ran + 8, ran + 16, out2);
    FieldStored(mem1, mem2, rt.mem, ran, ran + 16, out1);
    SameChanged(mem1, rt.mem, ran, ran + 16);
    SameChanged(old(rt.mem), mem1, out, out + 9);
    FrameCHeader(mem1, rt.mem, Range(ran, ran + 16), out, C_BIG_TAG, ran, n);
  }

  method MkFoo(rt: Runtime, end: int, out: int, ran: int, n: int, ghost ranEnd: int)
    returns (r: Outcome<MadeFoo>, ghost c: Cells)
    requires Room(rt.mem, Window(out, end, ran, ranEnd))
    requires n < INT_LIMIT && 16 * BigCount(MkSpec(n)) <= ranEnd - ran
    modifies rt`mem, rt`failedAllocs
    ensures rt.failedAllocs == old(rt.failedAllocs) + (if r.Exit? then 1 else 0)
    ensures r.Done? ==> Written(old(rt.mem), rt.mem, Window(out, end, ran, ranEnd),
                                Window(r.value.out, r.value.end, r.value.ran, ranEnd), c)
    ensures r.Done? ==> Means(c, n, ran, r.value.ran, r.value.size)
    decreases if n <= 0 then 0 else n, 4
  {
    hide Room, Piece, At, Bytes, Range, Header, CHeader, Changed, Means, Thresholded, Slots, Within, Allocated, LoadWord, Chained, Jumps;
    c := ACell(10);
    var end1, out0 := end, out;
    ghost var w := Window(out, end, ran, ranEnd);
    if end - out <= 30 {
      var chunk :- GrowFoo(rt, end, out, w);
      end1, out0 := chunk.end, chunk.start;
      PieceRoom(old(rt.mem), rt.mem, w, Window(out0, end1, ran, ranEnd), Range(out, out + 9));
    }
    ghost var mem0, w0 := rt.mem, Window(out0, end1, ran, ranEnd);
    r, c := MkNode(rt, end1, out0, ran, n, ranEnd);
    if r.Done? && end - out <= 30 {
      JumpWritten(old(rt.mem), mem0, rt.mem, w, w0, Window(r.value.out, r.value.end, r.value.ran, ranEnd), c);
      JumpMeans(w0.out, c, n, ran, r.value.ran, r.value.size);
      c := Jump(FOO_REDIRECTION_TAG, w0.out, c);
    }
  }

  lemma JumpMeans(to: Word, c: Cells, n: int, ran: int, ran': int, size: nat)
    requires n < INT_LIMIT && Means(c, n, ran, ran', size)
    ensures Means(Jump(FOO_REDIRECTION_TAG, to, c), n, ran, ran', size)
  {
  }

  /** mkFoo behind its bounds check. */
  method MkNode(rt: Runtime, end: int, out: int, ran: int, n: int, ghost ranEnd: int)
    returns (r: Outcome<MadeFoo>, ghost c: Cells)
    requires Room(rt.mem, Window(out, end, ran, ranEnd)) && out + 31 <= end
    requires n < INT_LIMIT && 16 * BigCount(MkSpec(n)) <= ranEnd - ran
    modifies rt`mem, rt`failedAllocs
    ensures rt.failedAllocs == old(rt.failedAllocs) + (if r.Exit? then 1 else 0)
    ensures r.Done? ==> Written(old(rt.mem), rt.mem, Window(out, end, ran, ranEnd),
                                Window(r.value.out, r.value.end, r.value.ran, ranEnd), c)
    ensures r.Done? ==> Means(c, n, ran, r.value.ran, r.value.size)
    decreases if n <= 0 then 0 else n, 3
  {
    hide Piece, At, Bytes, Range, Header, CHeader, Changed, Means, Thresholded, Slots, Within, LoadWord, EndOf, Chained, Jumps;
    ghost var mem0, w := rt.mem, Window(out, end, ran, ranEnd);
    c := ACell(10);
    if n <= 0 {
      rt.WriteNode(out, A_TAG, 10);
      SameChanged(mem0, rt.mem, out, out + 9);
      AWritten(mem0, rt.mem, w, 10);
      AMeans(n, ran);
      r := Done(MadeFoo(end, out + 9, ran, 9));
    } else if n == 1 {
      rt.WriteNode(out, B_TAG, n);
      SameChanged(mem0, rt.mem, out, out + 9);
      ghost var memH, wH := rt.mem, w.(out := out + 9);
      HeaderPiece(mem0, memH, w, wH, 9);
      HeaderChained(mem0, memH, w, wH, 9);
      PieceRoom(mem0, memH, w, wH, Range(out, out + 9));
      var pair, mem1, f1, f2 :- MkPair(rt, end, out + 9, ran, n, ranEnd);
      var rec1, rec2 := pair.first, pair.second;
      c := BCell(n, f1, f2);
      BWritten(mem0, memH, mem1, rt.mem, w, wH, Window(rec1.out, rec1.end, rec1.ran, ranEnd),
               Window(rec2.out, rec2.end, rec2.ran, ranEnd), n, f1, f2);
      BMeans(f1, f2, ran, rec1.ran, rec2.ran, rec1.size, rec2.size);
      r := Done(MadeFoo(rec2.end, rec2.out, rec2.ran, rec1.size + rec2.size + 9));
    } else {
      r, c := MkBranch(rt, end, out, ran, n, ranEnd);
    }
  }

  datatype MadePair = MadePair(first: MadeFoo, second: MadeFoo)

  /** The first two children of a node, one behind the other. */
  method MkPair(rt: Runtime, end: int, out: int, ran: int, n: int, ghost ranEnd: int)
    returns (r: Outcome<MadePair>, ghost mem1: Mem, ghost f1: Cells, ghost f2: Cells)
    requires Room(rt.mem, Window(out, end, ran, ranEnd)) && 0 < n < INT_LIMIT
    requires 16 * (BigCount(MkSpec(n - 1)) + BigCount(MkSpec(n - 2))) <= ranEnd - ran
    modifies rt`mem, rt`failedAllocs
    ensures rt.failedAllocs == old(rt.failedAllocs) + (if r.Exit? then 1 else 0)
    ensures r.Done? ==> var m, m' := r.value.first, r.value.second;
                        && Written(old(rt.mem), mem1, Window(out, end, ran, ranEnd), Window(m.out, m.end, m.ran, ranEnd), f1)
                        && Written(mem1, rt.mem, Window(m.out, m.end, m.ran, ranEnd), Window(m'.out, m'.end, m'.ran, ranEnd), f2)
                        && Means(f1, n - 1, ran, m.ran, m.size) && Means(f2, n - 2, m.ran, m'.ran, m'.size)
    decreases n, 0
  {
    hide Written, Means, Room, BigCount, MkSpec, Size;
    mem1, f1, f2 := rt.mem, ACell(10), ACell(10);
    var rec1;
    rec1, f1 := MkFoo(rt, end, out, ran, n - 1, ranEnd);
    if rec1.Exit? {
      r := Exit;
      return;
    }
    var m := rec1.value;
    MeansCount(f1, n - 1, ran, m.ran, m.size);
    WrittenRoom(mem1, rt.mem, Window(out, end, ran, ranEnd), Window(m.out, m.end, m.ran, ranEnd), f1);
    mem1 := rt.mem;
    var rec2;
    rec2, f2 := MkFoo(rt, m.end, m.out, m.ran, n - 2, ranEnd);
    r := if rec2.Done? then Done(MadePair(m, rec2.value)) else Exit;
  }

  datatype MadeThree = MadeThree(first: MadeFoo, second: MadeFoo, third: MadeFoo)

  /** All children of a three-child node; there is a slot left if the node becomes big. */
  method MkThree(rt: Runtime, end: int, out: int, ran: int, n: int, ghost ranEnd: int)
    returns (r: Outcome<MadeThree>, ghost mem1: Mem, ghost mem2: Mem, ghost f1: Cells, ghost f2: Cells, ghost f3: Cells)
    requires Room(rt.mem, Window(out, end, ran, ranEnd)) && 1 < n < INT_LIMIT
    requires 16 * BigCount(MkSpec(n)) <= ranEnd - ran
    modifies rt`mem, rt`failedAllocs
    ensures rt.failedAllocs == old(rt.failedAllocs) + (if r.Exit? then 1 else 0)
    ensures r.Done? ==> var m1, m2, m3 := r.value.first, r.value.second, r.value.third;
                        var w1, w2 := Window(m1.out, m1.end, m1.ran, ranEnd), Window(m2.out, m2.end, m2.ran, ranEnd);
                        && Written(old(rt.mem), mem1, Window(out, end, ran, ranEnd), w1, f1)
                        && Written(mem1, mem2, w1, w2, f2)
                        && Written(mem2, rt.mem, w2, Window(m3.out, m3.end, m3.ran, ranEnd), f3)
                        && EndOf(out, f1) == m1.out && EndOf(m1.out, f2) == m2.out
                        && 0 <= m1.out < POINTER_LIMIT && 0 <= m2.out < POINTER_LIMIT
    ensures r.Done? ==> var m1, m2, m3 := r.value.first, r.value.second, r.value.third;
                        && Means(f1, n - 1, ran, m1.ran, m1.size) && Means(f2, n - 2, m1.ran, m2.ran, m2.size)
                        && Means(f3, n - 3, m2.ran, m3.ran, m3.size)
                        && (m1.size + m2.size + m3.size + 1 > PAR_SIZE_THRESHOLD ==> m3.ran + 16 <= ranEnd)
    decreases n, 1
  {
    hide Written, Means, Room, EndOf, BigCount, MkSpec, Size;
    Budget(n);
    ghost var memH, wH := rt.mem, Window(out, end, ran, ranEnd);
    mem2, f3 := rt.mem, ACell(10);
    var two;
    two, mem1, f1, f2 := MkPair(rt, end, out, ran, n, ranEnd);
    if two.Exit? {
      r := Exit;
      return;
    }
    var rec1, rec2 := two.value.first, two.value.second;
    mem2 := rt.mem;
    MeansCount(f1, n - 1, ran, rec1.ran, rec1.size);
    MeansCount(f2, n - 2, rec1.ran, rec2.ran, rec2.size);
    WrittenRoom(memH, mem1, wH, Window(rec1.out, rec1.end, rec1.ran, ranEnd), f1);
    WrittenRoom(mem1, mem2, Window(rec1.out, rec1.end, rec1.ran, ranEnd), Window(rec2.out, rec2.end, rec2.ran, ranEnd), f2);
    var last;
    last, f3 := MkFoo(rt, rec2.end, rec2.out, rec2.ran, n - 3, ranEnd);
    if last.Exit? {
      r := Exit;
      return;
    }
    MeansCount(f3, n - 3, rec2.ran, last.value.ran, last.value.size);
    r := Done(MadeThree(rec1, rec2, last.value));
  }

  method MkBranch(rt: Runtime, end: int, out: int, ran: int, n: int, ghost ranEnd: int)
    returns (r: Outcome<MadeFoo>, ghost c: Cells)
    requires Room(rt.mem, Window(out, end, ran, ranEnd)) && out + 31 <= end
    requires 1 < n < INT_LIMIT && 16 * BigCount(MkSpec(n)) <= ranEnd - ran
    modifies rt`mem, rt`failedAllocs
    ensures rt.failedAllocs == old(rt.failedAllocs) + (if r.Exit? then 1 else 0)
    ensures r.Done? ==> Written(old(rt.mem), rt.mem, Window(out, end, ran, ranEnd),
                                Window(r.value.out, r.value.end, r.value.ran, ranEnd), c)
    ensures r.Done? ==> Means(c, n, ran, r.value.ran, r.value.size)
    decreases n, 2
  {
    hide Piece, At, Bytes, Range, Header, CHeader, Changed, Means, Thresholded, Slots, Within, LoadWord, EndOf, Chained, Jumps;
    hide Written, IsBig, Room, Allocated, FooOf, Span, SlotHolds, Promotion, BigCount, MkSpec, Size;
    ghost var mem0, w := rt.mem, Window(out, end, ran, ranEnd);
    c := ACell(10);
    ghost var slot := StartBranch(rt, out, n, w);
    ghost var memH, wH := rt.mem, w.(out := out + 17);
    var three, mem1, mem2, f1, f2, f3 :- MkThree(rt, end, out + 17, ran, n, ranEnd);
    var rec1, rec2, rec3 := three.first, three.second, three.third;
    ghost var w1 := Window(rec1.out, rec1.end, rec1.ran, ranEnd);
    ghost var w2 := Window(rec2.out, rec2.end, rec2.ran, ranEnd);
    ghost var mem3, w3 := rt.mem, Window(rec3.out, rec3.end, rec3.ran, ranEnd);
    CWritten(mem0, memH, mem1, mem2, mem3, w, wH, w1, w2, w3, slot, n, f1, f2, f3);
    CMeans(slot, n, f1, f2, f3, ran, rec1.ran, rec2.ran, rec3.ran, rec1.size, rec2.size, rec3.size);
    var big := rec1.size + rec2.size + rec3.size + 1 > PAR_SIZE_THRESHOLD;
    var ran';
    ran', c := PromoteIf(rt, big, out, rec3.ran, rec1.out, rec2.out, mem0, w, w3, slot, n, f1, f2, f3);
    r := Done(MadeFoo(rec3.end, rec3.out, ran', rec1.size + rec2.size + rec3.size + 17));
  }

  /** Conditionally makes the node just written a big one. */
  method PromoteIf(rt: Runtime, big: bool, out: int, ran: int, out1: int, out2: int, ghost mem0: Mem, ghost w: Window,
                   ghost w3: Window, ghost slot: Word, ghost n: Word, ghost f1: Cells, ghost f2: Cells, ghost f3: Cells)
    returns (ran': int, ghost c: Cells)
    requires Written(mem0, rt.mem, w, w3, CTmp(slot, n, f1, f2, f3)) && w.out == out && w3.ran == ran && Room(mem0, w)
    requires EndOf(out + 17, f1) == out1 && EndOf(out1, f2) == out2
    requires 0 <= out1 < POINTER_LIMIT && 0 <= out2 < POINTER_LIMIT
    requires var hdr := Range(out, out + 17);
             hdr !! Bytes(out + 17, f1) && hdr !! Bytes(out1, f2) && hdr !! Bytes(out2, f3)
    requires big ==> ran + 16 <= w3.ranEnd
    modifies rt`mem
    ensures ran' == if big then ran + 16 else ran
    ensures Written(mem0, rt.mem, w, w3.(ran := ran'), c)
    ensures big ==> 0 <= ran < WORD_LIMIT && c == CBig(ran, n, f1, f2, f3)
    ensures !big ==> c == CTmp(slot, n, f1, f2, f3)
  {
    hide Written, EndOf, Bytes, Range, CHeader, SlotHolds, Changed, Promotion, LoadWord;
    ran', c := ran, CTmp(slot, n, f1, f2, f3);
    if big {
      ghost var mem3 := rt.mem;
      BigReady(mem0, mem3, w, w3, slot, n, f1, f2, f3);
      Promote(rt, out, ran, out1, out2, slot, n);
      BigWritten(mem0, mem3, rt.mem, w, w3, slot, n, f1, f2, f3, out1, out2);
      c := CBig(ran, n, f1, f2, f3);
      ran' := ran + 16;
    }
  }

  lemma AMeans(n: int, ran: int)
    requires n <= 0
    ensures Means(ACell(10), n, ran, ran, 9)
  {
  }

  lemma PieceRoom(mem: Mem, mem': Mem, w: Window, w': Window, bs: set<int>)
    requires Piece(mem, mem', w, w', bs)
    ensures Room(mem', w')
  {
  }

  lemma WrittenRoom(mem: Mem, mem': Mem, w: Window, w': Window, c: Cells)
    requires Written(mem, mem', w, w', c)
    ensures Room(mem', w') && 0 <= w'.out < POINTER_LIMIT && EndOf(w.out, c) == w'.out
  {
  }

  /** Before a promotion: the node is there, and the slot is free. */
  lemma BigReady(mem: Mem, mem': Mem, w: Window, w': Window, slot: Word, n: Word, f1: Cells, f2: Cells, f3: Cells)
    requires Written(mem, mem', w, w', CTmp(slot, n, f1, f2, f3)) && w'.ran + 16 <= w'.ranEnd
    ensures CHeader(mem', w.out, C_TMP_TAG, slot, n) && Allocated(mem', w'.ran, 16) && 0 <= w'.ran < POINTER_LIMIT
    ensures Range(w.out, w.out + 17) !! Range(w'.ran, w'.ran + 16)
  {
    hide CHeader, LoadWord;
    assert Range(w'.ran, w'.ran + 16) <= Span(w');
    assert Range(w.out, w.out + 17) <= Bytes(w.out, CTmp(slot, n, f1, f2, f3));
  }

  /** Reading the way sumFoo does: the values behind both pointer kinds go on there. */
  lemma JumpFacts(mem: Mem, a: int, c: Cells)
    requires ReadAt(mem, a, c) && c.Jump?
    ensures Allocated(mem, a, 9) && LoadWord(mem, a + 1) == c.to && ReadAt(mem, c.to, c.rest) && c.to in mem
    ensures FooOf(c.rest) == FooOf(c) && ReadStop(mem, c.to, c.rest) == ReadStop(mem, a, c) && Nodes(c.rest) < Nodes(c)
    ensures (SeqOnly(c.rest) <==> SeqOnly(c)) && (UpwardClosed(c.rest) <==> UpwardClosed(c))
  {
    TagOf(mem, c.to, c.rest);
  }

  // What lies behind a node's fields: the children, each where the cursor behind the one
  // before it leads, or where the slot says.

  lemma BChildren(mem: Mem, a: int, c: Cells)
    requires c.BCell? && ReadAt(mem, a, c)
    ensures var e1 := ReadStop(mem, a + 9, c.f1);
            ReadAt(mem, a + 9, c.f1) && ReadAt(mem, e1, c.f2) && ReadStop(mem, a, c) == ReadStop(mem, e1, c.f2)
    ensures Nodes(c.f1) < Nodes(c) && Nodes(c.f2) < Nodes(c)
    ensures SeqOnly(c) <==> SeqOnly(c.f1) && SeqOnly(c.f2)
    ensures UpwardClosed(c) <==> UpwardClosed(c.f1) && UpwardClosed(c.f2)
    ensures SumSpec(FooOf(c)) == Trees.Wrap(SumSpec(FooOf(c.f1)) + SumSpec(FooOf(c.f2)) + c.n)
  {
    hide LoadWord;
  }

  lemma TmpChildren(mem: Mem, a: int, c: Cells)
    requires c.CTmp? && ReadAt(mem, a, c)
    ensures var e1 := ReadStop(mem, a + 17, c.f1); var e2 := ReadStop(mem, e1, c.f2);
            ReadAt(mem, a + 17, c.f1) && ReadAt(mem, e1, c.f2) && ReadAt(mem, e2, c.f3) && ReadStop(mem, a, c) == ReadStop(mem, e2, c.f3)
    ensures Nodes(c.f1) < Nodes(c) && Nodes(c.f2) < Nodes(c) && Nodes(c.f3) < Nodes(c)
    ensures SeqOnly(c) <==> SeqOnly(c.f1) && SeqOnly(c.f2) && SeqOnly(c.f3)
    ensures UpwardClosed(c) <==> SeqOnly(c)
    ensures SumSpec(FooOf(c)) == Trees.Wrap(c.n + SumSpec(FooOf(c.f1)) + SumSpec(FooOf(c.f2)) + SumSpec(FooOf(c.f3)))
  {
    hide LoadWord;
  }

  lemma BigChildren(mem: Mem, a: int, c: Cells)
    requires c.CBig? && ReadAt(mem, a, c)
    ensures Allocated(mem, c.ran, 8) && Allocated(mem, c.ran + 8, 8)
    ensures var e1, e2 := LoadWord(mem, c.ran), LoadWord(mem, c.ran + 8);
            ReadAt(mem, a + 17, c.f1) && ReadAt(mem, e1, c.f2) && ReadAt(mem, e2, c.f3) && ReadStop(mem, a, c) == ReadStop(mem, e2, c.f3)
    ensures Nodes(c.f1) < Nodes(c) && Nodes(c.f2) < Nodes(c) && Nodes(c.f3) < Nodes(c)
    ensures !SeqOnly(c) && (UpwardClosed(c) <==> UpwardClosed(c.f1) && UpwardClosed(c.f2) && UpwardClosed(c.f3))
    ensures SumSpec(FooOf(c)) == Trees.Wrap(c.n + SumSpec(FooOf(c.f1)) + SumSpec(FooOf(c.f2)) + SumSpec(FooOf(c.f3)))
  {
    hide LoadWord;
  }

  lemma LeafSum(mem: Mem, a: int, c: Cells)
    requires c.ACell?
    ensures ReadStop(mem, a, c) == a + 9 && SumSpec(FooOf(c)) == c.n && SeqOnly(c) && UpwardClosed(c)
  {
  }

  /** The label both programs go back to at a pointer: d is the node found behind them, at a. */
  method SwitchTag(mem: Mem, cur: int, ghost c: Cells) returns (tag: Byte, next: int, ghost a: int, ghost d: Cells)
    requires ReadAt(mem, cur, c)
    ensures ReadAt(mem, a, d) && !d.Jump? && Nodes(d) <= Nodes(c)
    ensures Allocated(mem, a, 9) && tag == mem[a] && next == a + 1
    ensures FooOf(d) == FooOf(c) && ReadStop(mem, a, d) == ReadStop(mem, cur, c)
    ensures (UpwardClosed(d) <==> UpwardClosed(c)) && (SeqOnly(d) <==> SeqOnly(c))
    ensures match d
            case ACell(n) => tag == A_TAG && n == LoadWord(mem, a + 1)
            case BCell(n, _, _) => tag == B_TAG && n == LoadWord(mem, a + 1)
            case CTmp(_, n, _, _, _) => tag == C_TMP_TAG && Allocated(mem, a, 17) && n == LoadWord(mem, a + 9)
            case CBig(slot, n, _, _, _) =>
              tag == C_BIG_TAG && Allocated(mem, a, 17) && slot == LoadWord(mem, a + 1) && n == LoadWord(mem, a + 9)
            case Jump(_, _, _) => true
  {
    hide LoadWord, UpwardClosed, SeqOnly, FooOf, ReadStop, ReadAt, At, Nodes;
    TagOf(mem, cur, c);
    tag, next := mem[cur], cur + 1;
    a, d := cur, c;
    while tag == FOO_INDIRECTION_TAG || tag == FOO_REDIRECTION_TAG
      invariant ReadAt(mem, a, d) && a in mem && tag == mem[a] && next == a + 1
      invariant Nodes(d) <= Nodes(c)
      invariant FooOf(d) == FooOf(c) && ReadStop(mem, a, d) == ReadStop(mem, cur, c)
      invariant (UpwardClosed(d) <==> UpwardClosed(c)) && (SeqOnly(d) <==> SeqOnly(c))
      decreases Nodes(d)
    {
      TagOf(mem, a, d);
      JumpFacts(mem, a, d);
      var tmpcur: int := LoadWord(mem, next);
      tag := mem[tmpcur];
      next := tmpcur + 1;
      a, d := d.to, d.rest;
    }
    TagOf(mem, a, d);
  }

  /** sumFoo_seq gives up at a big node, and only there. */
  method SumFooSeq(mem: Mem, cur: int, ghost c: Cells) returns (r: Outcome<(int, Word)>)
    requires ReadAt(mem, cur, c)
    ensures r == if SeqOnly(c) then Done((ReadStop(mem, cur, c), SumSpec(FooOf(c)))) else Exit
    decreases Nodes(c)
  {
    hide LoadWord, UpwardClosed, SeqOnly, FooOf, SumSpec, ReadStop, ReadAt, Nodes, Trees.Wrap;
    var tag, next, a, d := SwitchTag(mem, cur, c);
    if tag == A_TAG {
      LeafSum(mem, a, d);
      r := Done((next + 8, LoadWord(mem, next)));
    } else if tag == B_TAG {
      BChildren(mem, a, d);
      var p: int := LoadWord(mem, next);
      var rec1 :- SumFooSeq(mem, next + 8, d.f1);
      var rec2 :- SumFooSeq(mem, rec1.0, d.f2);
      r := Done((rec2.0, Trees.Wrap(p + rec1.1 + rec2.1)));
    } else if tag == C_TMP_TAG {
      TmpChildren(mem, a, d);
      var p: int := LoadWord(mem, next + 8);
      var rec1 :- SumFooSeq(mem, next + 16, d.f1);
      var rec2 :- SumFooSeq(mem, rec1.0, d.f2);
      var rec3 :- SumFooSeq(mem, rec2.0, d.f3);
      r := Done((rec3.0, Trees.Wrap(p + rec1.1 + rec2.1 + rec3.1)));
    } else {
      BigChildren(mem, a, d);
      r := Exit;
    }
  }

  /** sumFoo, jumping to children 2 and 3 of big nodes through their slot. */
  method SumFoo(mem: Mem, cur: int, ghost c: Cells) returns (r: Outcome<(int, Word)>)
    requires ReadAt(mem, cur, c)
    ensures r == if UpwardClosed(c) then Done((ReadStop(mem, cur, c), SumSpec(FooOf(c)))) else Exit
    decreases Nodes(c)
  {
    hide LoadWord, UpwardClosed, SeqOnly, FooOf, SumSpec, ReadStop, ReadAt, Nodes, Trees.Wrap;
    var tag, next, a, d := SwitchTag(mem, cur, c);
    if tag == A_TAG {
      LeafSum(mem, a, d);
      r := Done((next + 8, LoadWord(mem, next)));
    } else if tag == B_TAG {
      BChildren(mem, a, d);
      var p: int := LoadWord(mem, next);
      var rec1 :- SumFoo(mem, next + 8, d.f1);
      var rec2 :- SumFoo(mem, rec1.0, d.f2);
      r := Done((rec2.0, Trees.Wrap(p + rec1.1 + rec2.1)));
    } else if tag == C_BIG_TAG {
      BigChildren(mem, a, d);
      var ranStorage: int := LoadWord(mem, next);
      var p: int := LoadWord(mem, next + 8);
      var ran1 := LoadWord(mem, ranStorage);
      var ran2 := LoadWord(mem, ranStorage + 8);
      var rec1 :- SumFoo(mem, next + 16, d.f1);
      var rec2 :- SumFoo(mem, ran1, d.f2);
      var rec3 :- SumFoo(mem, ran2, d.f3);
      r := Done((rec3.0, Trees.Wrap(p + rec1.1 + rec2.1 + rec3.1)));
    } else if tag == C_TMP_TAG {
      TmpChildren(mem, a, d);
      r := SumFooSeq(mem, cur, c);
    } else {
      r := Exit;
    }
  }

  /** mkFoo, then sumFoo on what it made: the pointer program's sum, and the cursor
      at which mkFoo stopped. */
  method SumOfMade(rt: Runtime, end: int, out: int, ran: int, n: int, ghost ranEnd: int)
    returns (foo: Outcome<MadeFoo>, r: Outcome<(int, Word)>)
    requires Room(rt.mem, Window(out, end, ran, ranEnd))
    requires n < INT_LIMIT && 16 * BigCount(MkSpec(n)) <= ranEnd - ran
    modifies rt`mem, rt`failedAllocs
    ensures rt.failedAllocs == old(rt.failedAllocs) + (if foo.Exit? then 1 else 0)
    ensures foo.Done? ==> r == Done((foo.value.out, PointerSum(MkSpec(n))))
  {
    ghost var c;
    r := Exit;
    foo, c := MkFoo(rt, end, out, ran, n, ranEnd);
    if foo.Done? {
      ThresholdClosed(c);
      DirectFollowable(c);
      FollowableReads(rt.mem, out, c);
      ReadStopExact(rt.mem, out, c, c);
      PointerSums(MkSpec(n));
      r := SumFoo(rt.mem, out, c);
    }
  }
}

/** The measured pipeline over three buffers per tree. */
module SoaPipeline {
  import opened Memory
  import opened Outcomes
  import opened Runtime
  import opened Trees
  import opened TreeSums
  import opened SoaTree
  import opened SoaWriters
  import opened SoaPrograms

  /** Three new regions; nothing that existed changes. */
  method AllocRegions(rt: Runtime) returns (r: Outcome<(Cursors, Cursors)>)
    requires rt.Valid()
    modifies rt`mem, rt`failedAllocs
    ensures rt.failedAllocs == old(rt.failedAllocs) + (if r.Exit? then 1 else 0)
    ensures r.Done? ==> rt.Valid() && Writable3(rt.mem, r.value.0, r.value.1)
    ensures r.Done? ==> Same(old(rt.mem), rt.mem, 0, 0) && Fresh3(old(rt.mem), r.value.0, r.value.1)
  {
    ghost var mem0 := rt.mem;
    var t :- rt.AllocRegion(GIB_INIT_CHUNK_SIZE);
    ghost var mem1 := rt.mem;
    var l :- rt.AllocRegion(GIB_INIT_CHUNK_SIZE);
    ghost var mem2 := rt.mem;
    var i :- rt.AllocRegion(GIB_INIT_CHUNK_SIZE);
    RegionsApart(mem0, mem1, mem2, rt.mem, t, l, i, RoundUp8(GIB_INIT_CHUNK_SIZE));
    r := Done((Cursors(t.start, l.start, i.start), Cursors(t.end, l.end, i.end)));
  }

  lemma RegionsApart(mem0: Mem, mem1: Mem, mem2: Mem, mem3: Mem, t: GibChunk, l: GibChunk, i: GibChunk, size: int)
    requires NewRegion(mem0, mem1, t.start, t.end, size) && Writable(mem1, t.start, t.end)
    requires NewRegion(mem1, mem2, l.start, l.end, size) && Writable(mem2, l.start, l.end)
    requires NewRegion(mem2, mem3, i.start, i.end, size) && Writable(mem3, i.start, i.end)
    ensures Writable3(mem3, Cursors(t.start, l.start, i.start), Cursors(t.end, l.end, i.end))
    ensures Fresh3(mem0, Cursors(t.start, l.start, i.start), Cursors(t.end, l.end, i.end))
    ensures Same(mem0, mem3, 0, 0)
  {
    hide LoadWord;
    WritableKept(mem1, mem2, t.start, t.end);
    WritableKept(mem2, mem3, t.start, t.end);
    WritableKept(mem2, mem3, l.start, l.end);
    FreshClear(mem1, t.start, FootEnd(t.end) - t.start, l.start, FootEnd(l.end));
    FreshClear(mem2, t.start, FootEnd(t.end) - t.start, i.start, FootEnd(i.end));
    FreshClear(mem2, l.start, FootEnd(l.end) - l.start, i.start, FootEnd(i.end));
  }

  lemma WritableKept(mem: Mem, mem': Mem, loc: int, end: int)
    requires Same(mem, mem', 0, 0) && Writable(mem, loc, end)
    ensures Writable(mem', loc, end)
  {
    hide LoadWord;
    AgreeFooter(mem, mem', end);
    WritableOn(mem, mem', loc, end, loc);
  }

  /** A value outlives the writer that wrote it: the next one writes in new memory. */
  lemma RegionSwitch(mem: Mem, mem': Mem, c: Cursors, l: SoaLayout, w: Writer, loc': Cursors, end': Cursors)
    requires At(mem, c, l) && Avoids(c, l, w)
    requires Same(mem, mem', 0, 0) && Fresh3(mem, loc', end') && Writable3(mem', loc', end')
    ensures At(mem', c, l) && Avoids(c, l, Here(loc', end'))
  {
    hide At, Avoids, Moved, Writable, Mine;
    ChunkNonEmpty(mem', loc', end');
    FreshMoved(mem, w, loc', end');
    InputKept(mem, mem', c, l, w, Here(loc', end'));
  }

  method SumOfIncremented(rt: Runtime, d: Word, acc: Word) returns (r: Outcome<Word>)
    requires rt.Valid()
    modifies rt`mem, rt`failedAllocs, rt`grown
    ensures rt.failedAllocs == old(rt.failedAllocs) + (if r.Exit? then 1 else 0)
    ensures r.Done? ==> r.value == Wrap(PipelineFormula(d, acc))
  {
    PipelineSum(d, acc);
    hide PipelineFormula, Wrap, Writable3, Wrote, LoadWord, At, Avoids, MkSpec, Fresh3, Paced, FootersAfter, AllWords;
    var region1 :- AllocRegions(rt);
    ghost var mem1 := rt.mem;
    var made, l :- MkTree(rt, region1.1, region1.0, d, acc);
    ghost var memA := rt.mem;
    var region2 :- AllocRegions(rt);
    WroteReads(mem1, memA, Here(region1.0, region1.1), Here(made.cur, made.end), l, l);
    RegionSwitch(memA, rt.mem, region1.0, l, Here(made.cur, made.end), region2.0, region2.1);
    var t, loc, end := new int[3], new int[3], new int[3];
    SetCursors(t, made.start);
    SetCursors(loc, region2.0);
    SetCursors(end, region2.1);
    ghost var mem2 := rt.mem;
    var _, l' :- Add1Tree(rt, t, end, loc, t, l);
    WroteReads(mem2, rt.mem, Here(region2.0, region2.1), Here(CursorsOf(loc), CursorsOf(end)), l', l');
    var sum := new Word[1];
    sum[0] := 0;
    SetCursors(t, region2.0);
    var summed := SumTree(rt.mem, t, t, sum, l');
    assert summed.Done?;
    AddWordZero(SumSpec(TreeOf(l')));
    r := Done(sum[0]);
  }

  lemma AddWordZero(w: Word)
    ensures AddWord(0, w) == w
  {
  }
}

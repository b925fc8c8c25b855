/** The struct-of-arrays programs: mkTree, _copy_Tree and _traverse_Tree pass cursors by value,
    add1Tree and sumTree update arrays of three cursors (tags, leaf integers,
    inner-node integers) in place. */
module SoaPrograms {
  import opened Memory
  import opened Outcomes
  import opened Runtime
  import opened Chains
  import opened Trees
  import opened SoaTree
  import opened SoaWriters

  /** `start` is the cursor mkTree was given, even when the regions have grown. */
  datatype Made = Made(end: Cursors, start: Cursors, cur: Cursors)

  method WriteCells(rt: Runtime, tagAt: int, tag: Byte, wordAt: int, w: Word)
    requires tagAt in rt.mem && Allocated(rt.mem, wordAt, 8) && Clear(tagAt, 1, wordAt, wordAt + 8)
    modifies rt`mem
    ensures TagAt(rt.mem, tagAt, tag) && WordAt(rt.mem, wordAt, w)
    ensures forall x :: x in old(rt.mem) ==> x in rt.mem
    ensures forall x :: x in old(rt.mem) && x != tagAt && !(wordAt <= x < wordAt + 8) ==> rt.mem[x] == old(rt.mem)[x]
  {
    rt.mem := rt.mem[tagAt := tag];
    rt.mem := StoreWord(rt.mem, wordAt, w);
  }

  method WriteLeaf(rt: Runtime, loc: Cursors, ghost w: Writer, v: Word)
    requires rt.Valid() && w.loc == loc && Sound(rt.mem, w) && Fits(w, loc.AfterLeaf())
    modifies rt`mem
    ensures rt.Valid()
    ensures Wrote(old(rt.mem), rt.mem, w, w.To(loc.AfterLeaf()), LeafCells(v), LeafCells(v))
  {
    hide Stands, Sized, Writable, LoadWord, Wrote, Fits, Sound;
    LeafSpace(rt.mem, w);
    WriteCells(rt, loc.tags, LEAF_TAG, loc.leaves, v);
    LeafWritten(old(rt.mem), rt.mem, w, v);
  }

  lemma LeafSpace(mem: Mem, w: Writer)
    requires Sound(mem, w) && Fits(w, w.loc.AfterLeaf())
    ensures w.loc.tags in mem && Allocated(mem, w.loc.leaves, 8) && Clear(w.loc.tags, 1, w.loc.leaves, w.loc.leaves + 8)
  {
    hide Sound, Sized;
    SoundStands(mem, w);
  }

  method WriteInner(rt: Runtime, loc: Cursors, ghost w: Writer, v: Word)
    requires rt.Valid() && w.loc == loc && Sound(rt.mem, w) && Fits(w, loc.AfterInner())
    modifies rt`mem
    ensures rt.Valid()
    ensures Same3(old(rt.mem), rt.mem, loc, loc.AfterInner())
    ensures TagAt(rt.mem, loc.tags, INNER_TAG) && WordAt(rt.mem, loc.inners, v)
    ensures Sound(rt.mem, w.To(loc.AfterInner()))
    ensures SameBut(old(rt.mem), rt.mem, w) && Moved(old(rt.mem), w, w.To(loc.AfterInner()))
  {
    hide Stands, Sized, Writable, LoadWord, Moved, Fits, Sound;
    InnerSpace(rt.mem, w);
    WriteCells(rt, loc.tags, INNER_TAG, loc.inners, v);
    CellsWritten(old(rt.mem), rt.mem, w, loc.AfterInner());
  }

  lemma InnerSpace(mem: Mem, w: Writer)
    requires Sound(mem, w) && Fits(w, w.loc.AfterInner())
    ensures w.loc.tags in mem && Allocated(mem, w.loc.inners, 8) && Clear(w.loc.tags, 1, w.loc.inners, w.loc.inners + 8)
  {
    hide Sound, Sized;
    SoundStands(mem, w);
  }

  /** A writer that is told where it stands can grow, and write a node if it is not full. */
  lemma HereReady(mem: Mem, loc: Cursors, end: Cursors)
    requires Writable3(mem, loc, end)
    ensures Sound(mem, Here(loc, end)) && RedirectRoom(loc, end) && GrowReady(mem, loc, end)
    ensures Roomy(loc, end) ==> Fits(Here(loc, end), loc.AfterLeaf()) && Fits(Here(loc, end), loc.AfterInner())
  {
    hide GrowReady, Apart, LoadWord, Payload;
    SoundReady(mem, Here(loc, end));
  }

  method MkTree(rt: Runtime, end: Cursors, loc: Cursors, d: Word, acc: Word) returns (r: Outcome<Made>, ghost l: SoaLayout)
    requires rt.Valid() && Writable3(rt.mem, loc, end)
    modifies rt`mem, rt`failedAllocs, rt`grown
    ensures rt.failedAllocs == old(rt.failedAllocs) + (if r.Exit? then 1 else 0)
    ensures r.Done? ==> rt.Valid() && Writable3(rt.mem, r.value.cur, r.value.end)
    ensures r.Done? ==> Written(old(rt.mem), rt.mem, loc, end, r.value.cur, r.value.end, l)
    ensures r.Done? ==> r.value.start == loc
    ensures r.Done? ==> TreeOf(l) == MkSpec(d, acc) && rt.grown == old(rt.grown) + ChunksOf(AllWords(l))
    decreases d
  {
    hide Same3, SameBut, Moved, Sound, Fits, Wrote, GrownFrom3, GrowReady, Writable3, RedirectionWord, TagAt, WordAt, Paced, FootersAfter, EndOf, AllWords, ChunksOf;
    l := LeafCells(acc);
    HereReady(rt.mem, loc, end);
    var loc1, end1 := loc, end;
    var full := loc.inners + 17 > end.inners || loc.leaves + 17 > end.leaves || loc.tags + 34 > end.tags;
    if full {
      var grown :- GrowAll(rt, loc, end);
      loc1, end1 := grown.0, grown.1;
      HereReady(rt.mem, loc1, end1);
    }
    ghost var mem1, log1 := rt.mem, rt.grown;
    if d == 0 {
      WriteLeaf(rt, loc1, Here(loc1, end1), acc);
      r := Done(Made(end1, loc, loc1.AfterLeaf()));
      PacedLeaf(loc1, end1, acc);
      LeafLog(log1, acc);
      WrittenWritable(mem1, rt.mem, loc1, end1, loc1.AfterLeaf(), end1, l);
    } else {
      WriteInner(rt, loc1, Here(loc1, end1), d);
      SoundHere(rt.mem, loc1.AfterInner(), end1);
      ghost var memH := rt.mem;
      var left, leftLayout :- MkTree(rt, end1, loc1.AfterInner(), d - 1, AddWord(acc, d));
      ghost var memL := rt.mem;
      var right, rightLayout :- MkTree(rt, left.end, left.cur, d - 1, AddWord(acc, d));
      NodeWritten(mem1, memH, memL, rt.mem, Here(loc1, end1), d, Here(left.cur, left.end), leftLayout, leftLayout,
                  Here(right.cur, right.end), rightLayout, rightLayout);
      WrittenNode(mem1, memH, memL, rt.mem, loc1, end1, d, left.cur, left.end, leftLayout, right.cur, right.end, rightLayout);
      l := NodeCells(d, leftLayout, rightLayout);
      NodeLog(log1, leftLayout, rightLayout, d);
      r := Done(Made(right.end, loc, right.cur));
    }
    if full {
      GrownLog(old(rt.grown), loc1, end1, l);
      PacedGrown(loc, end, loc1, end1, l, r.value.end);
      GrownWritten(old(rt.mem), mem1, rt.mem, Here(loc, end), loc1, end1, Here(r.value.cur, r.value.end), l, l);
      l := Redirected(loc1, end1, l);
    }
  }

  lemma PacedLeaf(loc: Cursors, end: Cursors, v: Word)
    requires Roomy(loc, end)
    ensures Paced(loc, end, LeafCells(v)) && FootersAfter(end, LeafCells(v)) == end
  {
  }

  lemma PacedNode(loc: Cursors, end: Cursors, v: Word, left: SoaLayout, end1: Cursors, right: SoaLayout, end2: Cursors)
    requires Roomy(loc, end) && Paced(loc.AfterInner(), end, left) && FootersAfter(end, left) == end1
    requires Paced(EndOf(loc.AfterInner(), left), end1, right) && FootersAfter(end1, right) == end2
    ensures Paced(loc, end, NodeCells(v, left, right)) && FootersAfter(end, NodeCells(v, left, right)) == end2
  {
  }

  lemma PacedGrown(loc: Cursors, end: Cursors, loc1: Cursors, end1: Cursors, l: SoaLayout, end2: Cursors)
    requires !Roomy(loc, end) && Redirectable(loc1, end1) && Paced(loc1, end1, l) && FootersAfter(end1, l) == end2
    ensures Paced(loc, end, Redirected(loc1, end1, l)) && FootersAfter(end, Redirected(loc1, end1, l)) == end2
  {
    hide RedirectionWord, Pointer, Tag;
  }

  lemma WrittenNode(mem0: Mem, memH: Mem, memL: Mem, mem': Mem, loc: Cursors, end: Cursors, v: Word,
                    loc1: Cursors, end1: Cursors, left: SoaLayout, loc2: Cursors, end2: Cursors, right: SoaLayout)
    requires Roomy(loc, end)
    requires Written(memH, memL, loc.AfterInner(), end, loc1, end1, left) && Written(memL, mem', loc1, end1, loc2, end2, right)
    requires Wrote(mem0, mem', Here(loc, end), Here(loc2, end2), NodeCells(v, left, right), NodeCells(v, left, right))
    ensures Written(mem0, mem', loc, end, loc2, end2, NodeCells(v, left, right))
  {
    hide Wrote, Paced, FootersAfter, EndOf;
    WroteReads(memH, memL, Here(loc.AfterInner(), end), Here(loc1, end1), left, left);
    PacedNode(loc, end, v, left, end1, right, end2);
  }

  lemma SoundHere(mem: Mem, loc: Cursors, end: Cursors)
    ensures Sound(mem, Here(loc, end)) <==> Writable3(mem, loc, end)
  {
  }

  lemma WrittenWritable(mem: Mem, mem': Mem, loc: Cursors, end: Cursors, loc': Cursors, end': Cursors, l: SoaLayout)
    requires Written(mem, mem', loc, end, loc', end', l)
    ensures Writable3(mem', loc', end') && Unshared(l)
  {
    hide At, Avoids, SameBut, Moved, Extended, NewChunks;
  }

  /** The cursors an array of three holds. */
  function CursorsOf(a: array<int>): Cursors
    requires a.Length == 3
    reads a
  {
    Cursors(a[0], a[1], a[2])
  }

  method SetCursors(a: array<int>, c: Cursors)
    requires a.Length == 3
    modifies a
    ensures CursorsOf(a) == c
  {
    a[0], a[1], a[2] := c.tags, c.leaves, c.inners;
  }

  /** The redirection case of the readers, after the tag byte has been consumed. */
  method FollowRedirections(mem: Mem, t: array<int>, ghost l: SoaLayout)
    requires t.Length == 3 && l.AllRedirected? && Pointers(mem, CursorsOf(t).Plus(-1, 0, 0), l, GIB_REDIRECTION_TAG)
    modifies t
    ensures CursorsOf(t) == Targets(l)
  {
    hide LoadWord;
    var target0 := Untag(LoadWord(mem, t[0]));
    t[0] := target0;
    var target1 := Untag(LoadWord(mem, t[1] + 1));
    t[1] := target1;
    var target2 := Untag(LoadWord(mem, t[2] + 1));
    t[2] := target2;
  }

  /** inEnd is never used; a redirection passes the input cursors for it. */
  method Add1Tree(rt: Runtime, inEnd: array<int>, end: array<int>, loc: array<int>, t: array<int>, ghost input: SoaLayout)
    returns (r: Outcome<()>, ghost l: SoaLayout)
    requires end.Length == loc.Length == t.Length == 3 && end != loc && end != t && loc != t
    requires rt.Valid() && Writable3(rt.mem, CursorsOf(loc), CursorsOf(end))
    requires At(rt.mem, CursorsOf(t), input) && Avoids(CursorsOf(t), input, Here(CursorsOf(loc), CursorsOf(end)))
    modifies rt`mem, rt`failedAllocs, rt`grown, end, loc, t
    ensures old(rt.failedAllocs) <= rt.failedAllocs <= old(rt.failedAllocs) + 1
    ensures r.Exit? <==> rt.failedAllocs > old(rt.failedAllocs) || !Unshared(input)
    ensures r.Done? ==> rt.Valid() && Writable3(rt.mem, CursorsOf(loc), CursorsOf(end))
    ensures r.Done? ==> Written(old(rt.mem), rt.mem, old(CursorsOf(loc)), old(CursorsOf(end)), CursorsOf(loc), CursorsOf(end), l)
    ensures r.Done? ==> TreeOf(l) == Add1Spec(TreeOf(input)) && rt.grown == old(rt.grown) + ChunksOf(AllWords(l))
    ensures r.Done? ==> CursorsOf(t) == EndOf(old(CursorsOf(t)), input)
    decreases input, 1
  {
    hide SameBut, Moved, Sound, Fits, Wrote, GrownFrom3, GrowReady, Writable3, RedirectionWord, At, Avoids, Paced, FootersAfter, AllWords, ChunksOf;
    ghost var loc0, end0 := CursorsOf(loc), CursorsOf(end);
    HereReady(rt.mem, loc0, end0);
    if loc[2] + 17 > end[2] || loc[1] + 17 > end[1] || loc[0] + 34 > end[0] {
      l := LeafCells(0);
      var grown :- GrowAll(rt, CursorsOf(loc), CursorsOf(end));
      SetCursors(loc, grown.0);
      SetCursors(end, grown.1);
      ghost var mem1 := rt.mem;
      GrownInputKept(old(rt.mem), mem1, CursorsOf(t), input, Here(loc0, end0), grown.0, grown.1);
      var _, rest :- Add1Node(rt, inEnd, end, loc, t, input);
      l := Redirected(grown.0, grown.1, rest);
      GrownLog(old(rt.grown), grown.0, grown.1, rest);
      PacedGrown(loc0, end0, grown.0, grown.1, rest, CursorsOf(end));
      GrownWritten(old(rt.mem), mem1, rt.mem, Here(loc0, end0), grown.0, grown.1, Here(CursorsOf(loc), CursorsOf(end)), rest, rest);
      r := Done(());
    } else {
      r, l := Add1Node(rt, inEnd, end, loc, t, input);
    }
  }

  /** add1Tree behind its bounds check. */
  method Add1Node(rt: Runtime, inEnd: array<int>, end: array<int>, loc: array<int>, t: array<int>, ghost input: SoaLayout)
    returns (r: Outcome<()>, ghost l: SoaLayout)
    requires end.Length == loc.Length == t.Length == 3 && end != loc && end != t && loc != t
    requires rt.Valid() && Writable3(rt.mem, CursorsOf(loc), CursorsOf(end))
    requires Roomy(CursorsOf(loc), CursorsOf(end))
    requires At(rt.mem, CursorsOf(t), input) && Avoids(CursorsOf(t), input, Here(CursorsOf(loc), CursorsOf(end)))
    modifies rt`mem, rt`failedAllocs, rt`grown, end, loc, t
    ensures old(rt.failedAllocs) <= rt.failedAllocs <= old(rt.failedAllocs) + 1
    ensures r.Exit? <==> rt.failedAllocs > old(rt.failedAllocs) || !Unshared(input)
    ensures r.Done? ==> rt.Valid() && Writable3(rt.mem, CursorsOf(loc), CursorsOf(end))
    ensures r.Done? ==> Written(old(rt.mem), rt.mem, old(CursorsOf(loc)), old(CursorsOf(end)), CursorsOf(loc), CursorsOf(end), l)
    ensures r.Done? ==> TreeOf(l) == Add1Spec(TreeOf(input)) && rt.grown == old(rt.grown) + ChunksOf(AllWords(l))
    ensures r.Done? ==> CursorsOf(t) == EndOf(old(CursorsOf(t)), input)
    decreases input, 0
  {
    hide Same3, SameBut, Moved, Sound, Fits, Wrote, GrowReady, Writable3, RedirectionWord, AddWord, At, Avoids, LoadWord, Paced, FootersAfter, AllWords, ChunksOf;
    l := LeafCells(0);
    ghost var mem1, loc1, end1, t0 := rt.mem, CursorsOf(loc), CursorsOf(end), CursorsOf(t);
    ghost var w := Here(loc1, end1);
    HereReady(mem1, loc1, end1);
    Reads(mem1, t0, input);
    var tag := rt.mem[t[0]];
    t[0] := t[0] + 1;
    if tag == LEAF_TAG {
      var v := LoadWord(rt.mem, t[1]);
      t[1] := t[1] + 8;
      WriteLeaf(rt, CursorsOf(loc), w, AddWord(v, 1));
      loc[0], loc[1] := loc[0] + 1, loc[1] + 8;
      l := LeafCells(AddWord(v, 1));
      PacedLeaf(loc1, end1, AddWord(v, 1));
      LeafLog(rt.grown, AddWord(v, 1));
      WrittenWritable(mem1, rt.mem, loc1, end1, loc1.AfterLeaf(), end1, l);
    } else if tag == INNER_TAG {
      var v := LoadWord(rt.mem, t[2]);
      t[2] := t[2] + 8;
      WriteInner(rt, CursorsOf(loc), w, AddWord(v, 1));
      loc[0], loc[2] := loc[0] + 1, loc[2] + 8;
      ghost var memH := rt.mem;
      SoundHere(memH, loc1.AfterInner(), end1);
      ChildrenKept(mem1, memH, t0, input, w, w.To(loc1.AfterInner()));
      var _, leftLayout :- Add1Tree(rt, inEnd, end, loc, t, input.left);
      ghost var memL, wL := rt.mem, Here(CursorsOf(loc), CursorsOf(end));
      WrittenChildrenKept(memH, memL, t0, input, w.To(loc1.AfterInner()), wL, leftLayout, leftLayout);
      var _, rightLayout :- Add1Tree(rt, inEnd, end, loc, t, input.right);
      NodeWritten(mem1, memH, memL, rt.mem, w, AddWord(v, 1), wL, leftLayout, leftLayout,
                  Here(CursorsOf(loc), CursorsOf(end)), rightLayout, rightLayout);
      WrittenNode(mem1, memH, memL, rt.mem, loc1, end1, AddWord(v, 1), wL.loc, wL.end, leftLayout,
                  CursorsOf(loc), CursorsOf(end), rightLayout);
      l := NodeCells(AddWord(v, 1), leftLayout, rightLayout);
      NodeLog(old(rt.grown), leftLayout, rightLayout, AddWord(v, 1));
    } else if tag == GIB_REDIRECTION_TAG {
      FollowRedirections(rt.mem, t, input);
      InnerAvoids(t0, input, w);
      r, l := Add1Tree(rt, t, end, loc, t, input.rest);
      return;
    } else {
      r := Exit;
      return;
    }
    r := Done(());
  }

  /** What a reader finds at a value's cursors. */
  lemma Reads(mem: Mem, c: Cursors, l: SoaLayout)
    requires At(mem, c, l)
    ensures TagAt(mem, c.tags, match l case LeafCells(_) => LEAF_TAG case NodeCells(_, _, _) => INNER_TAG
                                       case AllRedirected(_, _, _, _) => GIB_REDIRECTION_TAG
                                       case AllIndirected(_, _, _, _) => GIB_INDIRECTION_TAG)
    ensures l.LeafCells? ==> WordAt(mem, c.leaves, l.v)
    ensures l.NodeCells? ==>
      && WordAt(mem, c.inners, l.v)
      && At(mem, c.AfterInner(), l.left) && At(mem, EndOf(c.AfterInner(), l.left), l.right)
    ensures l.AllRedirected? ==> Pointers(mem, c, l, GIB_REDIRECTION_TAG) && At(mem, Targets(l), l.rest)
    ensures l.AllIndirected? ==> Pointers(mem, c, l, GIB_INDIRECTION_TAG) && At(mem, Targets(l), l.target)
  {
  }

  lemma GrownInputKept(mem: Mem, mem': Mem, t: Cursors, input: SoaLayout, w: Writer, loc': Cursors, end': Cursors)
    requires Sound(mem, w) && RedirectRoom(w.loc, w.own) && GrownFrom3(mem, mem', w.loc, w.end, loc', end')
    requires At(mem, t, input) && Avoids(t, input, w)
    ensures At(mem', t, input) && Avoids(t, input, Here(loc', end')) && Avoids(t, input, Writer(w.loc, end', w.own))
  {
    hide At, Avoids, GrownFrom3, Sound, SameBut, Moved, Off;
    GrownStep(mem, mem', w, loc', end');
    InputKept(mem, mem', t, input, w, Here(loc', end'));
    InputKept(mem, mem', t, input, w, Writer(w.loc, end', w.own));
  }

  lemma InnerAvoids(t: Cursors, input: SoaLayout, w: Writer)
    requires Avoids(t, input, w)
    ensures input.NodeCells? ==>
      && Avoids(t.AfterInner(), input.left, w)
      && Avoids(EndOf(t.AfterInner(), input.left), input.right, w)
    ensures input.AllRedirected? ==> Avoids(Targets(input), input.rest, w)
    ensures input.AllIndirected? ==> Avoids(Targets(input), input.target, w)
  {
  }

  lemma ChildrenKept(mem: Mem, mem': Mem, t: Cursors, input: SoaLayout, w: Writer, w': Writer)
    requires input.NodeCells? && At(mem, t, input) && Avoids(t, input, w)
    requires SameBut(mem, mem', w) && Moved(mem, w, w')
    ensures At(mem', t, input) && Avoids(t, input, w')
    ensures At(mem', t.AfterInner(), input.left) && Avoids(t.AfterInner(), input.left, w')
    ensures At(mem', EndOf(t.AfterInner(), input.left), input.right)
    ensures Avoids(EndOf(t.AfterInner(), input.left), input.right, w')
  {
    hide At, Avoids, SameBut, Moved;
    InputKept(mem, mem', t, input, w, w');
    InnerAvoids(t, input, w');
    Reads(mem', t, input);
  }

  lemma WrittenChildrenKept(mem: Mem, mem': Mem, t: Cursors, input: SoaLayout, w: Writer, w': Writer, l: SoaLayout, g: SoaLayout)
    requires input.NodeCells? && At(mem, t, input) && Avoids(t, input, w)
    requires Wrote(mem, mem', w, w', l, g)
    ensures At(mem', t, input)
    ensures At(mem', EndOf(t.AfterInner(), input.left), input.right)
    ensures Avoids(EndOf(t.AfterInner(), input.left), input.right, w')
  {
    hide At, Avoids, SameBut, Moved, Sound, Extended, NewChunks;
    ChildrenKept(mem, mem', t, input, w, w');
  }

  method SumTree(mem: Mem, end: array<int>, tr: array<int>, res: array<Word>, ghost l: SoaLayout) returns (r: Outcome<()>)
    requires tr.Length == 3 && res.Length == 1
    requires At(mem, CursorsOf(tr), l)
    modifies tr, res
    ensures r.Exit? <==> !Unshared(l)
    ensures r.Done? ==> CursorsOf(tr) == EndOf(old(CursorsOf(tr)), l)
    ensures r.Done? ==> res[0] == AddWord(old(res[0]), SumSpec(TreeOf(l)))
    decreases l
  {
    hide AddWord, LoadWord;
    ghost var res0 := res[0];
    var tag := mem[tr[0]];
    tr[0] := tr[0] + 1;
    if tag == LEAF_TAG {
      var v := LoadWord(mem, tr[1]);
      tr[1] := tr[1] + 8;
      res[0] := AddWord(res[0], v);
    } else if tag == INNER_TAG {
      var v := LoadWord(mem, tr[2]);
      tr[2] := tr[2] + 8;
      res[0] := AddWord(res[0], v);
      var _ :- SumTree(mem, end, tr, res, l.left);
      var _ :- SumTree(mem, end, tr, res, l.right);
      AddWordRegroup(res0, v, SumSpec(TreeOf(l.left)), SumSpec(TreeOf(l.right)));
    } else if tag == GIB_REDIRECTION_TAG {
      FollowRedirections(mem, tr, l);
      r := SumTree(mem, tr, tr, res, l.rest);
      return;
    } else {
      r := Exit;
      return;
    }
    r := Done(());
  }

  /** The region ends handed back: a redirection replaces them by the chunks' starts. */
  function ReportedEnds(ends: Cursors, l: SoaLayout): Cursors
    decreases l
  {
    match l
    case LeafCells(_) => ends
    case NodeCells(_, left, right) => ReportedEnds(ReportedEnds(ends, left), right)
    case AllRedirected(_, _, _, rest) => ReportedEnds(Targets(l), rest)
    case AllIndirected(_, _, _, _) => ends
  }

  /** In each buffer both ends come from the last redirection crossed: the reported one is
      the start of the chunk it leads to, not its footer. */
  lemma {:induction false} EndsFromLastRedirection(ends: Cursors, l: SoaLayout, b: Buffer)
    ensures var ws := WordsOf(l, b);
            && ReportedEnds(ends, l).Of(b) == (if ws == [] then ends.Of(b) else Pointer(ws[|ws| - 1]))
            && FootersAfter(ends, l).Of(b) == (if ws == [] then ends.Of(b) else FooterOf(ws[|ws| - 1]))
    decreases l
  {
    hide Pointer, FooterOf;
    match l
    case LeafCells(_) =>
    case NodeCells(_, left, right) =>
      EndsFromLastRedirection(ends, left, b);
      EndsFromLastRedirection(ReportedEnds(ends, left), right, b);
      EndsFromLastRedirection(FootersAfter(ends, left), right, b);
      if WordsOf(right, b) == [] {
        assert WordsOf(l, b) == WordsOf(left, b);
      }
    case AllRedirected(_, _, _, rest) =>
      EndsFromLastRedirection(Targets(l), rest, b);
      EndsFromLastRedirection(Footers(l), rest, b);
    case AllIndirected(_, _, _, _) =>
  }

  function TraverseTree(mem: Mem, ends: Cursors, arg: Cursors, ghost l: SoaLayout): (r: (Cursors, Cursors))
    requires At(mem, arg, l)
    ensures r == (ReportedEnds(ends, l), EndOf(arg, l))
    decreases l
  {
    var tag := mem[arg.tags];
    if tag == LEAF_TAG then (ends, Cursors(arg.tags + 1, arg.leaves + 8, arg.inners))
    else if tag == INNER_TAG then
      var left := TraverseTree(mem, ends, Cursors(arg.tags + 1, arg.leaves, arg.inners + 8), l.left);
      TraverseTree(mem, left.0, left.1, l.right)
    else if tag == GIB_INDIRECTION_TAG then
      var targets := Cursors(Pointer(LoadWord(mem, arg.tags + 1)), Pointer(LoadWord(mem, arg.leaves + 1)),
                             Pointer(LoadWord(mem, arg.inners + 1)));
      var _ := TraverseTree(mem, targets, targets, l.target);
      (ends, Cursors(arg.tags + 9, arg.leaves + 9, arg.inners + 9))
    else
      var targets := Cursors(Pointer(LoadWord(mem, arg.tags + 1)), Pointer(LoadWord(mem, arg.leaves + 1)),
                             Pointer(LoadWord(mem, arg.inners + 1)));
      TraverseTree(mem, targets, targets, l.rest)
  }
}

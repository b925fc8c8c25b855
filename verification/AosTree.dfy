/** The array-of-structs tree programs, passing cursors by value: mkTree, add1Tree,
    _copy_Tree, sumTree and _traverse_Tree. */
module AosTree {
  import opened Memory
  import opened Outcomes
  import opened Runtime
  import opened Chains
  import opened PackedTree
  import opened Trees
  import TreeSums
  import opened AosWriters

  /** Where the value proper starts, behind the redirections at its head. */
  function StartOf(a: int, l: Layout): int
    decreases l
  {
    if l.Redirected? then StartOf(Pointer(l.tagged), l.rest) else a
  }

  /** The `end of input region` the readers hand back. A redirection replaces it by
      the start of the chunk it leads to. */
  function ReportedEnd(end: int, l: Layout): int
    decreases l
  {
    match l
    case LeafCell(_) => end
    case NodeCell(_, left, right) => ReportedEnd(ReportedEnd(end, left), right)
    case Redirected(w, rest) => ReportedEnd(Pointer(w), rest)
    case Indirected(_, _) => end
  }

  datatype Made = Made(end: int, start: int, cur: int)
  datatype Mapped = Mapped(inEnd: int, end: int, inCur: int, start: int, cur: int)

  method MkTree(rt: Runtime, end: int, loc: int, d: Word, acc: Word) returns (r: Outcome<Made>, ghost l: Layout)
    requires rt.Valid() && Writable(rt.mem, loc, end)
    modifies rt`mem, rt`failedAllocs, rt`grown
    ensures rt.failedAllocs == old(rt.failedAllocs) + (if r.Exit? then 1 else 0)
    ensures r.Done? ==> rt.Valid()
    ensures r.Done? ==> Written(old(rt.mem), rt.mem, loc, end, r.value.cur, r.value.end, l)
    ensures r.Done? ==> r.value.start == StartOf(loc, l) && rt.grown == old(rt.grown) + ChunksOf(Redirections(l))
    ensures r.Done? ==> TreeOf(l) == MkSpec(d, acc)
    decreases d
  {
    hide Same, Fresh, Header, At, Avoids, Chain, FootersClear, Ended, FootEnd, Advanced, GrownAt, GrownFrom, Grown, Growable, Sized, LoadWord;
    l := LeafCell(acc);
    var loc1, end1 := loc, end;
    if loc + 18 > end {
      GrowableHere(rt.mem, loc, end);
      var chunk :- rt.GrowRegion(loc, end);
      loc1, end1 := chunk.start, chunk.end;
    }
    ghost var mem1, log1 := rt.mem, rt.grown;
    if d == 0 {
      rt.WriteNode(loc1, LEAF_TAG, acc);
      LeafWritten(mem1, rt.mem, loc1, end1, acc);
      LeafLog(rt.grown, acc);
      r := Done(Made(end1, loc1, loc1 + NODE_SIZE));
    } else {
      rt.WriteNode(loc1, INNER_TAG, d);
      ghost var memH := rt.mem;
      HeaderWritable(mem1, memH, loc1, end1);
      var left, leftLayout :- MkTree(rt, end1, loc1 + NODE_SIZE, d - 1, AddWord(acc, d));
      ghost var memL := rt.mem;
      var right, rightLayout :- MkTree(rt, left.end, left.cur, d - 1, AddWord(acc, d));
      NodeWritten(mem1, memH, memL, rt.mem, loc1, end1, d, left.cur, left.end, leftLayout,
                  right.cur, right.end, rightLayout);
      l := NodeCell(d, leftLayout, rightLayout);
      NodeLog(log1, leftLayout, rightLayout, d);
      r := Done(Made(right.end, loc1, right.cur));
    }
    if loc + 18 > end {
      GrownLog(old(rt.grown), loc1, end1, l);
      GrownWritten(old(rt.mem), mem1, rt.mem, loc, end, loc1, end1, RedirectionWord(loc1, end1), r.value.cur, r.value.end, l);
      l := Redirected(RedirectionWord(loc1, end1), l);
    }
  }

  method Add1Tree(rt: Runtime, inEnd: int, end: int, loc: int, t: int, ghost input: Layout)
    returns (r: Outcome<Mapped>, ghost l: Layout)
    requires rt.Valid() && Writable(rt.mem, loc, end)
    requires At(rt.mem, t, input) && Avoids(t, input, loc, FootEnd(end))
    modifies rt`mem, rt`failedAllocs, rt`grown
    ensures rt.failedAllocs == old(rt.failedAllocs) + (if r.Exit? then 1 else 0)
    ensures r.Done? ==> rt.Valid()
    ensures r.Done? ==> Written(old(rt.mem), rt.mem, loc, end, r.value.cur, r.value.end, l)
    ensures r.Done? ==> r.value.start == StartOf(loc, l) && rt.grown == old(rt.grown) + ChunksOf(Redirections(l))
    ensures r.Done? ==> TreeOf(l) == Add1Spec(TreeOf(input))
    ensures r.Done? ==> r.value.inCur == EndOf(t, input) && r.value.inEnd == ReportedEnd(inEnd, input)
    decreases input
  {
    hide Same, Fresh, Chain, FootersClear, Ended, FootEnd, Advanced, GrownAt, GrownFrom, Grown, Growable, Sized, LoadWord, Avoids, At, NewChunks, Redirections, AddWord;
    l := LeafCell(0);
    var loc1, end1 := loc, end;
    if loc + 18 > end {
      GrowableHere(rt.mem, loc, end);
      var chunk :- rt.GrowRegion(loc, end);
      loc1, end1 := chunk.start, chunk.end;
      GrownInputKept(old(rt.mem), rt.mem, t, input, loc, end, loc1, end1);
    }
    ghost var mem1, log1 := rt.mem, rt.grown;
    Reads(mem1, t, input);
    var tag := rt.mem[t];
    if tag == LEAF_TAG {
      var v := LoadWord(rt.mem, t + 1);
      rt.WriteNode(loc1, LEAF_TAG, AddWord(v, 1));
      l := LeafCell(AddWord(v, 1));
      LeafWritten(mem1, rt.mem, loc1, end1, AddWord(v, 1));
      LeafLog(rt.grown, AddWord(v, 1));
      r := Done(Mapped(inEnd, end1, t + 1 + 8, loc1, loc1 + NODE_SIZE));
    } else if tag == INNER_TAG {
      var v := LoadWord(rt.mem, t + 1);
      rt.WriteNode(loc1, INNER_TAG, AddWord(v, 1));
      ghost var memH := rt.mem;
      HeaderWritable(mem1, memH, loc1, end1);
      InputKept(mem1, memH, t, input, loc1, end1, loc1 + NODE_SIZE, end1);
      Reads(memH, t, input);
      InnerAvoids(t, input, loc1 + NODE_SIZE, FootEnd(end1));
      var left, leftLayout :- Add1Tree(rt, inEnd, end1, loc1 + NODE_SIZE, t + 1 + 8, input.left);
      ghost var memL := rt.mem;
      Survives(memH, memL, t, input, loc1 + NODE_SIZE, end1, left.cur, left.end, leftLayout);
      Reads(memL, t, input);
      InnerAvoids(t, input, left.cur, FootEnd(left.end));
      var right, rightLayout :- Add1Tree(rt, left.inEnd, left.end, left.cur, left.inCur, input.right);
      NodeWritten(mem1, memH, memL, rt.mem, loc1, end1, AddWord(v, 1), left.cur, left.end, leftLayout,
                  right.cur, right.end, rightLayout);
      l := NodeCell(AddWord(v, 1), leftLayout, rightLayout);
      NodeLog(log1, leftLayout, rightLayout, AddWord(v, 1));
      r := Done(Mapped(right.inEnd, right.end, right.inCur, loc1, right.cur));
    } else if tag == GIB_INDIRECTION_TAG {
      var target := Untag(LoadWord(rt.mem, t + 1));
      InnerAvoids(t, input, loc1, FootEnd(end1));
      var rec, recLayout :- Add1Tree(rt, target, end1, loc1, target, input.target);
      l := recLayout;
      r := Done(Mapped(inEnd, rec.end, t + 1 + 8, rec.start, rec.cur));
    } else if tag == GIB_REDIRECTION_TAG {
      var target := Untag(LoadWord(rt.mem, t + 1));
      InnerAvoids(t, input, loc1, FootEnd(end1));
      var rec, recLayout :- Add1Tree(rt, target, end1, loc1, target, input.rest);
      l := recLayout;
      r := Done(rec);
    } else {
      r := Exit;
      return;
    }
    if loc + 18 > end {
      GrownLog(old(rt.grown), loc1, end1, l);
      GrownWritten(old(rt.mem), mem1, rt.mem, loc, end, loc1, end1, RedirectionWord(loc1, end1), r.value.cur, r.value.end, l);
      l := Redirected(RedirectionWord(loc1, end1), l);
    }
  }

  method CopyTree(rt: Runtime, inEnd: int, end: int, loc: int, t: int, ghost input: Layout)
    returns (r: Outcome<Mapped>, ghost l: Layout)
    requires rt.Valid() && Writable(rt.mem, loc, end)
    requires At(rt.mem, t, input) && Avoids(t, input, loc, FootEnd(end))
    modifies rt`mem, rt`failedAllocs, rt`grown
    ensures rt.failedAllocs == old(rt.failedAllocs) + (if r.Exit? then 1 else 0)
    ensures r.Done? ==> rt.Valid()
    ensures r.Done? ==> Written(old(rt.mem), rt.mem, loc, end, r.value.cur, r.value.end, l)
    ensures r.Done? ==> r.value.start == StartOf(loc, l) && rt.grown == old(rt.grown) + ChunksOf(Redirections(l))
    ensures r.Done? ==> TreeOf(l) == TreeOf(input)
    ensures r.Done? ==> r.value.inCur == EndOf(t, input) && r.value.inEnd == ReportedEnd(inEnd, input)
    decreases input
  {
    hide Same, Fresh, Chain, FootersClear, Ended, FootEnd, Advanced, GrownAt, GrownFrom, Grown, Growable, Sized, LoadWord, Avoids, At, NewChunks, Redirections;
    l := LeafCell(0);
    var loc1, end1 := loc, end;
    if loc + 18 > end {
      GrowableHere(rt.mem, loc, end);
      var chunk :- rt.GrowRegion(loc, end);
      loc1, end1 := chunk.start, chunk.end;
      GrownInputKept(old(rt.mem), rt.mem, t, input, loc, end, loc1, end1);
    }
    ghost var mem1, log1 := rt.mem, rt.grown;
    Reads(mem1, t, input);
    var tag := rt.mem[t];
    if tag == LEAF_TAG {
      var v := LoadWord(rt.mem, t + 1);
      rt.WriteNode(loc1, LEAF_TAG, v);
      l := LeafCell(v);
      LeafWritten(mem1, rt.mem, loc1, end1, v);
      LeafLog(rt.grown, v);
      r := Done(Mapped(inEnd, end1, t + 1 + 8, loc1, loc1 + NODE_SIZE));
    } else if tag == INNER_TAG {
      var v := LoadWord(rt.mem, t + 1);
      rt.WriteNode(loc1, INNER_TAG, v);
      ghost var memH := rt.mem;
      HeaderWritable(mem1, memH, loc1, end1);
      InputKept(mem1, memH, t, input, loc1, end1, loc1 + NODE_SIZE, end1);
      Reads(memH, t, input);
      InnerAvoids(t, input, loc1 + NODE_SIZE, FootEnd(end1));
      var left, leftLayout :- CopyTree(rt, inEnd, end1, loc1 + NODE_SIZE, t + 1 + 8, input.left);
      ghost var memL := rt.mem;
      Survives(memH, memL, t, input, loc1 + NODE_SIZE, end1, left.cur, left.end, leftLayout);
      Reads(memL, t, input);
      InnerAvoids(t, input, left.cur, FootEnd(left.end));
      var right, rightLayout :- CopyTree(rt, left.inEnd, left.end, left.cur, left.inCur, input.right);
      NodeWritten(mem1, memH, memL, rt.mem, loc1, end1, v, left.cur, left.end, leftLayout,
                  right.cur, right.end, rightLayout);
      l := NodeCell(v, leftLayout, rightLayout);
      NodeLog(log1, leftLayout, rightLayout, v);
      r := Done(Mapped(right.inEnd, right.end, right.inCur, loc1, right.cur));
    } else if tag == GIB_INDIRECTION_TAG {
      var target := Untag(LoadWord(rt.mem, t + 1));
      InnerAvoids(t, input, loc1, FootEnd(end1));
      var rec, recLayout :- CopyTree(rt, target, end1, loc1, target, input.target);
      l := recLayout;
      r := Done(Mapped(inEnd, rec.end, t + 1 + 8, rec.start, rec.cur));
    } else if tag == GIB_REDIRECTION_TAG {
      var target := Untag(LoadWord(rt.mem, t + 1));
      InnerAvoids(t, input, loc1, FootEnd(end1));
      var rec, recLayout :- CopyTree(rt, target, end1, loc1, target, input.rest);
      l := recLayout;
      r := Done(rec);
    } else {
      r := Exit;
      return;
    }
    if loc + 18 > end {
      GrownLog(old(rt.grown), loc1, end1, l);
      GrownWritten(old(rt.mem), mem1, rt.mem, loc, end, loc1, end1, RedirectionWord(loc1, end1), r.value.cur, r.value.end, l);
      l := Redirected(RedirectionWord(loc1, end1), l);
    }
  }

  datatype Summed = Summed(end: int, cur: int, sum: Word)

  function SumTree(mem: Mem, end: int, tr: int, ghost l: Layout): (r: Summed)
    requires At(mem, tr, l)
    ensures r.sum == SumSpec(TreeOf(l))
    ensures r.cur == EndOf(tr, l) && r.end == ReportedEnd(end, l)
    decreases l
  {
    var tag := mem[tr];
    if tag == LEAF_TAG then Summed(end, tr + 1 + 8, LoadWord(mem, tr + 1))
    else if tag == INNER_TAG then
      var v := LoadWord(mem, tr + 1);
      var left := SumTree(mem, end, tr + 1 + 8, l.left);
      var right := SumTree(mem, left.end, left.cur, l.right);
      Summed(right.end, right.cur, AddWord(AddWord(v, left.sum), right.sum))
    else if tag == GIB_INDIRECTION_TAG then
      var target := Pointer(LoadWord(mem, tr + 1));
      var rec := SumTree(mem, target, target, l.target);
      Summed(end, tr + 1 + 8, rec.sum)
    else
      var target := Pointer(LoadWord(mem, tr + 1));
      SumTree(mem, target, target, l.rest)
  }

  function TraverseTree(mem: Mem, end: int, arg: int, ghost l: Layout): (r: (int, int))
    requires At(mem, arg, l)
    ensures r == (ReportedEnd(end, l), EndOf(arg, l))
    decreases l
  {
    var tag := mem[arg];
    if tag == LEAF_TAG then (end, arg + 1 + 8)
    else if tag == INNER_TAG then
      var left := TraverseTree(mem, end, arg + 1 + 8, l.left);
      TraverseTree(mem, left.0, left.1, l.right)
    else if tag == GIB_INDIRECTION_TAG then
      var target := Pointer(LoadWord(mem, arg + 1));
      var _ := TraverseTree(mem, target, target, l.target);
      (end, arg + 1 + 8)
    else
      var target := Pointer(LoadWord(mem, arg + 1));
      TraverseTree(mem, target, target, l.rest)
  }

  lemma {:induction false} EndsFromLastRedirection(end: int, l: Layout)
    ensures var ws := Redirections(l);
            && ReportedEnd(end, l) == (if ws == [] then end else Pointer(ws[|ws| - 1]))
            && FooterAfter(end, l) == (if ws == [] then end else FooterOf(ws[|ws| - 1]))
    decreases l
  {
    match l
    case LeafCell(_) =>
    case NodeCell(_, left, right) =>
      EndsFromLastRedirection(end, left);
      EndsFromLastRedirection(ReportedEnd(end, left), right);
      EndsFromLastRedirection(FooterAfter(end, left), right);
      if Redirections(right) == [] {
        assert Redirections(l) == Redirections(left);
      }
    case Redirected(w, rest) =>
      EndsFromLastRedirection(Pointer(w), rest);
      EndsFromLastRedirection(FooterOf(w), rest);
    case Indirected(_, _) =>
  }

  /** The region end the readers report is the footer of the chunk they stand in
      exactly when the value crosses no redirection (chunks being nonempty). */
  lemma ReportedEndExact(end: int, l: Layout)
    requires forall w :: w in Redirections(l) ==> Tag(w) > 0
    ensures ReportedEnd(end, l) == FooterAfter(end, l) <==> Redirections(l) == []
  {
    EndsFromLastRedirection(end, l);
  }

  /** From 9 bytes for each node and 9 more on, and only then, a tree is written without
      a redirection. */
  lemma UngrownIff(mem: Mem, mem': Mem, loc: int, end: int, loc': int, end': int, l: Layout)
    requires Written(mem, mem', loc, end, loc', end', l)
    ensures Redirections(l) == [] <==> loc + 9 * TreeSums.Nodes(TreeOf(l)) + 9 <= end
    ensures Redirections(l) == [] ==> loc' == loc + 9 * TreeSums.Nodes(TreeOf(l)) && end' == end
  {
    hide At, Avoids, Chain, NewChunks, Writable, Ended, FootersClear, Advanced, Same;
    PacedStraight(loc, end, l);
  }

  lemma {:induction false} PacedStraight(loc: int, end: int, l: Layout)
    requires Paced(loc, end, l) && Unshared(l)
    ensures Redirections(l) == [] <==> loc + 9 * TreeSums.Nodes(TreeOf(l)) + 9 <= end
    ensures Redirections(l) == [] ==> EndOf(loc, l) == loc + 9 * TreeSums.Nodes(TreeOf(l)) && FooterAfter(end, l) == end
    decreases l
  {
    match l
    case LeafCell(_) =>
    case NodeCell(_, left, right) =>
      assert Redirections(l) == [] <==> Redirections(left) == [] && Redirections(right) == [];
      PacedStraight(loc + 9, end, left);
      PacedStraight(EndOf(loc + 9, left), FooterAfter(end, left), right);
    case Redirected(_, _) =>
  }

  /** Where the nodes and the redirections lie is decided by the tree, the cursor and the
      chunks, in the order in which they were handed out. */
  lemma {:induction false} PacedUnique(loc: int, end: int, l: Layout, l': Layout, ws: seq<Word>, ws': seq<Word>)
    requires Paced(loc, end, l) && Paced(loc, end, l') && Unshared(l) && Unshared(l')
    requires TreeOf(l) == TreeOf(l') && Redirections(l) + ws == Redirections(l') + ws'
    ensures l == l' && ws == ws'
    decreases l
  {
    hide Pointer, FooterOf, EndOf;
    match l
    case LeafCell(_) => assert [] + ws == ws && [] + ws' == ws';
    case NodeCell(_, left, right) =>
      assert Redirections(left) + (Redirections(right) + ws) == Redirections(l) + ws;
      assert Redirections(l'.left) + (Redirections(l'.right) + ws') == Redirections(l') + ws';
      PacedUnique(loc + 9, end, left, l'.left, Redirections(right) + ws, Redirections(l'.right) + ws');
      PacedUnique(EndOf(loc + 9, left), FooterAfter(end, left), right, l'.right, ws, ws');
    case Redirected(w, rest) =>
      var all, all' := Redirections(l) + ws, Redirections(l') + ws';
      assert all[0] == w && all'[0] == l'.tagged;
      assert all[1..] == Redirections(rest) + ws && all'[1..] == Redirections(l'.rest) + ws';
      PacedUnique(Pointer(w), FooterOf(w), rest, l'.rest, ws, ws');
  }

  /** What a writer leaves: the chunk it stands in is the one its value ends in, and a
      reader of that value reports the chunk's footer only if the writer has not grown.
      From a cursor with less than 18 bytes left it always has. */
  lemma ReportedEndOfWritten(mem: Mem, mem': Mem, loc: int, end: int, loc': int, end': int, l: Layout)
    requires Written(mem, mem', loc, end, loc', end', l)
    ensures FooterAfter(end, l) == end'
    ensures ReportedEnd(end, l) == end' <==> Redirections(l) == []
    ensures loc + 18 > end ==> ReportedEnd(end, l) != end'
  {
    hide Same, At, Avoids, FootersClear, NewChunks, LoadWord, GrownPayload, Pointer, Tag, FootEnd, FooterSize;
    var ws := Redirections(l);
    TagsPositive(mem', end, ws, end');
    EndsFromLastRedirection(end, l);
    ChainLast(mem', end, ws, end');
    if ws == [] {
      Straight(loc, l);
    }
  }

  lemma {:induction false} ChainLast(mem: Mem, end: int, ws: seq<Word>, last: int)
    requires Chain(mem, end, ws, last)
    ensures last == FooterAt(end, ws, |ws|)
    decreases |ws|
  {
    hide Hop, FooterOf;
    if ws != [] {
      ChainLast(mem, FooterOf(ws[0]), ws[1..], last);
    }
  }

  /** Grown chunks are not empty. */
  lemma {:induction false} TagsPositive(mem: Mem, end: int, ws: seq<Word>, last: int)
    requires Chain(mem, end, ws, last) && Allocated(mem, end, FooterSize(end))
    requires InNursery(end) ==> MIN_NURSERY_CHUNK <= Payload(mem, end)
    ensures forall w :: w in ws ==> Tag(w) > 0
    decreases |ws|
  {
    hide LoadWord, Tag, Pointer, GrownPayload;
    if ws != [] {
      GrownPositive(InNursery(end), Payload(mem, end));
      TagsPositive(mem, FooterOf(ws[0]), ws[1..], last);
      assert forall w :: w in ws ==> w == ws[0] || w in ws[1..];
    }
  }

  lemma GrownPositive(inNursery: bool, oldSize: nat)
    requires inNursery ==> MIN_NURSERY_CHUNK <= oldSize
    ensures GrownPayload(inNursery, oldSize) > 0
  {
  }

  /** A value without redirections is contiguous. */
  lemma {:induction false} Straight(a: int, l: Layout)
    requires Redirections(l) == []
    ensures EndOf(a, l) >= a + NODE_SIZE
    decreases l
  {
    if l.NodeCell? {
      assert |Redirections(l.left)| + |Redirections(l.right)| == 0;
      Straight(a + NODE_SIZE, l.left);
      Straight(EndOf(a + NODE_SIZE, l.left), l.right);
    }
  }

  lemma GrownInputKept(mem: Mem, mem': Mem, t: int, input: Layout, loc: int, end: int, loc': int, end': int)
    requires Writable(mem, loc, end) && GrownFrom(mem, mem', loc, end, loc', end')
    requires At(mem, t, input) && Avoids(t, input, loc, FootEnd(end))
    ensures At(mem', t, input) && Avoids(t, input, loc', FootEnd(end'))
  {
    hide At, Avoids;
    InputKept(mem, mem', t, input, loc, end, loc', end');
  }

  /** What a value avoids, its parts avoid. */
  lemma InnerAvoids(t: int, input: Layout, lo: int, hi: int)
    requires Avoids(t, input, lo, hi)
    ensures input.NodeCell? ==>
      && Avoids(t + NODE_SIZE, input.left, lo, hi)
      && Avoids(EndOf(t + NODE_SIZE, input.left), input.right, lo, hi)
    ensures input.Redirected? ==> Avoids(Pointer(input.tagged), input.rest, lo, hi)
    ensures input.Indirected? ==> Avoids(Pointer(input.tagged), input.target, lo, hi)
  {
  }
}

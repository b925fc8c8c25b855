/** How writers compose: a leaf, a node with two written children, and a value
    written after growing the region are all `Written`. */
module AosWriters {
  import opened Memory
  import opened Runtime
  import opened Chains
  import opened PackedTree
  import opened Trees

  lemma LeafWritten(mem: Mem, mem': Mem, loc: int, end: int, v: Word)
    requires Writable(mem, loc, end) && loc + 2 * NODE_SIZE <= end
    requires Same(mem, mem', loc, loc + NODE_SIZE) && Header(mem', loc, LEAF_TAG, v)
    ensures Written(mem, mem', loc, end, loc + NODE_SIZE, end, LeafCell(v))
  {
    hide LoadWord;
    SameWider(mem, mem', loc, loc + NODE_SIZE, loc, FootEnd(end));
    FrameFooter(mem, mem', loc, loc + NODE_SIZE, end);
  }

  /** The state after a node's header: the children may be written behind it. */
  lemma HeaderWritable(mem: Mem, mem': Mem, loc: int, end: int)
    requires Writable(mem, loc, end) && loc + 2 * NODE_SIZE <= end
    requires Same(mem, mem', loc, loc + NODE_SIZE)
    ensures Writable(mem', loc + NODE_SIZE, end)
    ensures Advanced(mem, loc, end, loc + NODE_SIZE, end)
    ensures Same(mem, mem', loc, FootEnd(end)) && FooterSame(mem, mem', end)
  {
    hide LoadWord;
    FrameFooter(mem, mem', loc, loc + NODE_SIZE, end);
  }

  lemma AdvancedStep(mem: Mem, mem': Mem, loc: int, end: int, loc1: int, end1: int, loc2: int, end2: int)
    requires Same(mem, mem', loc, FootEnd(end))
    requires Advanced(mem, loc, end, loc1, end1) && Advanced(mem', loc1, end1, loc2, end2)
    ensures Advanced(mem, loc, end, loc2, end2)
  {
  }

  /** Windows of later steps, for SameStep. */
  lemma WrittenStep(mem0: Mem, mem1: Mem, mem2: Mem, loc: int, end: int, loc1: int, end1: int, loc2: int, end2: int, l: Layout)
    requires Same(mem0, mem1, loc, FootEnd(end)) && Advanced(mem0, loc, end, loc1, end1)
    requires Written(mem1, mem2, loc1, end1, loc2, end2, l)
    ensures Same(mem0, mem2, loc, FootEnd(end)) && Advanced(mem0, loc, end, loc2, end2)
  {
    hide Writable, At, Avoids, Chain, FooterKept;
    SameStep(mem0, mem1, mem2, loc, FootEnd(end), loc1, FootEnd(end1));
    AdvancedStep(mem0, mem1, loc, end, loc1, end1, loc2, end2);
  }

  /** A value written earlier survives a later writer, and stays out of its window. */
  lemma Survives(mem: Mem, mem': Mem, a: int, l: Layout, loc: int, end: int, loc': int, end': int, l': Layout)
    requires At(mem, a, l) && Avoids(a, l, loc, FootEnd(end))
    requires Written(mem, mem', loc, end, loc', end', l')
    ensures At(mem', a, l) && Avoids(a, l, loc', FootEnd(end'))
  {
    hide At, Avoids, Chain, FooterKept, Same;
    FrameAt(mem, mem', loc, FootEnd(end), a, l);
    AvoidsAdvanced(mem, a, l, loc, end, loc', end');
  }

  /** The same across one step of the writer itself. */
  lemma InputKept(mem: Mem, mem': Mem, a: int, l: Layout, loc: int, end: int, loc': int, end': int)
    requires At(mem, a, l) && Avoids(a, l, loc, FootEnd(end))
    requires Same(mem, mem', loc, FootEnd(end)) && Advanced(mem, loc, end, loc', end') && loc' < end'
    ensures At(mem', a, l) && Avoids(a, l, loc', FootEnd(end'))
  {
    FrameAt(mem, mem', loc, FootEnd(end), a, l);
    AvoidsAdvanced(mem, a, l, loc, end, loc', end');
  }

  lemma FooterKeptStep(mem0: Mem, mem1: Mem, mem2: Mem, end: int, loc1: int, end1: int, loc2: int, end2: int, l: Layout)
    requires FooterKept(mem0, mem1, end) && Written(mem1, mem2, loc1, end1, loc2, end2, l)
    requires end == end1 || Clear(end, FooterSize(end), loc1, FootEnd(end1))
    ensures FooterKept(mem0, mem2, end)
  {
    hide At, Avoids, Chain, FootersClear, NewChunks, LoadWord, FooterSize, FootEnd;
    if end != end1 {
      FrameFooter(mem1, mem2, loc1, FootEnd(end1), end);
    }
  }

  /** mem0 -header-> memH -left-> mem1 -right-> mem2 */
  lemma NodeWritten(mem0: Mem, memH: Mem, mem1: Mem, mem2: Mem, loc: int, end: int, v: Word,
                    loc1: int, end1: int, left: Layout, loc2: int, end2: int, right: Layout)
    requires Writable(mem0, loc, end) && loc + 2 * NODE_SIZE <= end
    requires Same(mem0, memH, loc, loc + NODE_SIZE) && Header(memH, loc, INNER_TAG, v)
    requires Written(memH, mem1, loc + NODE_SIZE, end, loc1, end1, left)
    requires Written(mem1, mem2, loc1, end1, loc2, end2, right)
    ensures Written(mem0, mem2, loc, end, loc2, end2, NodeCell(v, left, right))
  {
    hide Same, Header, Chain, FootersClear, Ended, FooterSame, Writable, Advanced, Clear, LoadWord, FootEnd;
    HeaderWritable(mem0, memH, loc, end);
    NodeSame(mem0, memH, mem1, mem2, loc, end, loc1, end1, left, loc2, end2, right);
    NodeHeaderKept(memH, mem1, mem2, loc, end, v, loc1, end1, left, loc2, end2, right);
    Survives(mem1, mem2, loc + NODE_SIZE, left, loc1, end1, loc2, end2, right);
    NodeEnded(mem0, memH, mem1, mem2, loc, end, loc1, end1, left, loc2, end2, right);
    NodeChain(memH, mem1, mem2, loc + NODE_SIZE, end, loc1, end1, left, loc2, end2, right);
    NodeChunks(mem0, memH, mem1, mem2, loc, end, loc1, end1, left, loc2, end2, right);
  }

  lemma NodeChunks(mem0: Mem, memH: Mem, mem1: Mem, mem2: Mem, loc: int, end: int,
                   loc1: int, end1: int, left: Layout, loc2: int, end2: int, right: Layout)
    requires Same(mem0, memH, loc, loc + NODE_SIZE)
    requires Written(memH, mem1, loc + NODE_SIZE, end, loc1, end1, left)
    requires Written(mem1, mem2, loc1, end1, loc2, end2, right)
    ensures NewChunks(mem0, mem2, Redirections(left) + Redirections(right))
  {
    hide At, Avoids, Chain, FooterKept, Writable, Advanced, Redirections;
    assert NewChunks(mem0, memH, []);
    NewChunksAppend(mem0, memH, mem1, [], Redirections(left));
    assert [] + Redirections(left) == Redirections(left);
    NewChunksAppend(mem0, mem1, mem2, Redirections(left), Redirections(right));
  }

  lemma NodeSame(mem0: Mem, memH: Mem, mem1: Mem, mem2: Mem, loc: int, end: int,
                 loc1: int, end1: int, left: Layout, loc2: int, end2: int, right: Layout)
    requires Same(mem0, memH, loc, FootEnd(end)) && Advanced(mem0, loc, end, loc + NODE_SIZE, end)
    requires Written(memH, mem1, loc + NODE_SIZE, end, loc1, end1, left)
    requires Written(mem1, mem2, loc1, end1, loc2, end2, right)
    ensures Same(mem0, mem2, loc, FootEnd(end)) && Advanced(mem0, loc, end, loc2, end2)
  {
    hide Same, At, Avoids, Chain, FooterKept, Writable, Advanced;
    WrittenStep(mem0, memH, mem1, loc, end, loc + NODE_SIZE, end, loc1, end1, left);
    WrittenStep(mem0, mem1, mem2, loc, end, loc1, end1, loc2, end2, right);
  }

  lemma NodeHeaderKept(memH: Mem, mem1: Mem, mem2: Mem, loc: int, end: int, v: Word,
                       loc1: int, end1: int, left: Layout, loc2: int, end2: int, right: Layout)
    requires Header(memH, loc, INNER_TAG, v)
    requires Written(memH, mem1, loc + NODE_SIZE, end, loc1, end1, left)
    requires Written(mem1, mem2, loc1, end1, loc2, end2, right)
    ensures Header(mem2, loc, INNER_TAG, v) && Clear(loc, NODE_SIZE, loc2, FootEnd(end2))
  {
    hide At, Avoids, Chain, FooterKept, LoadWord;
    FrameHeader(memH, mem1, loc + NODE_SIZE, FootEnd(end), loc, INNER_TAG, v);
    ClearAdvanced(memH, loc, NODE_SIZE, loc + NODE_SIZE, end, loc1, end1);
    FrameHeader(mem1, mem2, loc1, FootEnd(end1), loc, INNER_TAG, v);
    ClearAdvanced(mem1, loc, NODE_SIZE, loc1, end1, loc2, end2);
  }

  lemma NodeEnded(mem0: Mem, memH: Mem, mem1: Mem, mem2: Mem, loc: int, end: int,
                  loc1: int, end1: int, left: Layout, loc2: int, end2: int, right: Layout)
    requires FooterSame(mem0, memH, end)
    requires Written(memH, mem1, loc + NODE_SIZE, end, loc1, end1, left)
    requires Written(mem1, mem2, loc1, end1, loc2, end2, right)
    ensures Ended(mem0, mem2, end, Redirections(left) + Redirections(right), end2)
  {
    hide At, Avoids, Chain, FootersClear, NewChunks, LoadWord, Same, FooterSize, FootEnd, Redirections;
    FooterKeptStep(mem0, memH, mem1, end, loc + NODE_SIZE, end, loc1, end1, left);
    if end != end1 {
      assert Allocated(memH, end, FooterSize(end));
      FreshClear(memH, end, FooterSize(end), loc1, FootEnd(end1));
    }
    FooterKeptStep(mem0, mem1, mem2, end, loc1, end1, loc2, end2, right);
    EndedAppend(mem0, mem1, mem2, end, Redirections(left), end1, Redirections(right), end2);
  }

  lemma NodeChain(memH: Mem, mem1: Mem, mem2: Mem, loc: int, end: int,
                  loc1: int, end1: int, left: Layout, loc2: int, end2: int, right: Layout)
    requires Written(memH, mem1, loc, end, loc1, end1, left)
    requires Written(mem1, mem2, loc1, end1, loc2, end2, right)
    ensures Chain(mem2, end, Redirections(left) + Redirections(right), end2)
    ensures FootersClear(end, Redirections(left) + Redirections(right), loc2, FootEnd(end2))
  {
    hide At, Avoids, Same, FooterKept, FooterSame, Chain, FootersClear, NewChunks, Redirections, FootEnd, LoadWord;
    ChainAppend(mem1, mem2, end, Redirections(left), loc1, end1, Redirections(right), loc2, end2);
  }

  /** A value written after the region has grown: the old cursor now holds a
      redirection to it. */
  lemma GrownWritten(mem0: Mem, memG: Mem, mem': Mem, loc: int, end: int, locG: int, endG: int, w: Word,
                     loc': int, end': int, l: Layout)
    requires Writable(mem0, loc, end) && GrownFrom(mem0, memG, loc, end, locG, endG) && loc + 18 > end
    requires w == RedirectionWord(locG, endG)
    requires Written(memG, mem', locG, endG, loc', end', l)
    ensures Written(mem0, mem', loc, end, loc', end', Redirected(w, l))
  {
    hide LoadWord, GrownPayload, RedirectionWord, Chain, FootersClear, Pointer, Tag, RegInfo, ChunkSize, NextFooter, FootEnd, FooterSize;
    FreshClear(mem0, end, FooterSize(end), locG, FootEnd(endG));
    FreshClear(mem0, loc, NODE_SIZE, locG, FootEnd(endG));
    GrownSame(mem0, memG, mem', loc, end, locG, endG, loc', end', l);
    GrownHeader(memG, mem', loc, w, locG, endG, loc', end', l);
    GrownChain(mem0, memG, mem', loc, end, locG, endG, w, loc', end', l);
    GrownChunks(mem0, memG, mem', loc, end, locG, endG, w, loc', end', l);
  }

  lemma GrownChunks(mem0: Mem, memG: Mem, mem': Mem, loc: int, end: int, locG: int, endG: int, w: Word,
                    loc': int, end': int, l: Layout)
    requires Writable(mem0, loc, end) && GrownFrom(mem0, memG, loc, end, locG, endG)
    requires w == RedirectionWord(locG, endG) && Pointer(w) == locG && Tag(w) == endG - locG
    requires Written(memG, mem', locG, endG, loc', end', l)
    ensures NewChunks(mem0, mem', [w] + Redirections(l))
  {
    hide LoadWord, GrownPayload, RedirectionWord, At, Avoids, Chain, Redirections, Pointer, Tag;
    assert NewChunk(mem0, memG, w);
    assert NewChunks(mem0, memG, [w]);
    NewChunksAppend(mem0, memG, mem', [w], Redirections(l));
  }

  lemma GrownSame(mem0: Mem, memG: Mem, mem': Mem, loc: int, end: int, locG: int, endG: int,
                  loc': int, end': int, l: Layout)
    requires Writable(mem0, loc, end) && GrownFrom(mem0, memG, loc, end, locG, endG)
    requires Written(memG, mem', locG, endG, loc', end', l)
    requires Clear(end, FooterSize(end), locG, FootEnd(endG))
    ensures Same(mem0, mem', loc, FootEnd(end)) && Advanced(mem0, loc, end, loc', end')
    ensures FooterKept(mem0, mem', end)
  {
    hide LoadWord, GrownPayload, RedirectionWord, At, Avoids, Chain, FootersClear, FootEnd, FooterSize;
    WrittenStep(mem0, memG, mem', loc, end, locG, endG, loc', end', l);
    FooterKeptStep(mem0, memG, mem', end, locG, endG, loc', end', l);
  }

  lemma GrownHeader(memG: Mem, mem': Mem, loc: int, w: Word, locG: int, endG: int, loc': int, end': int, l: Layout)
    requires Header(memG, loc, GIB_REDIRECTION_TAG, w) && Clear(loc, NODE_SIZE, locG, FootEnd(endG))
    requires Written(memG, mem', locG, endG, loc', end', l)
    ensures Header(mem', loc, GIB_REDIRECTION_TAG, w) && Clear(loc, NODE_SIZE, loc', FootEnd(end'))
  {
    hide LoadWord, At, Avoids, Chain;
    FrameHeader(memG, mem', locG, FootEnd(endG), loc, GIB_REDIRECTION_TAG, w);
    ClearAdvanced(memG, loc, NODE_SIZE, locG, endG, loc', end');
  }

  lemma GrownChain(mem0: Mem, memG: Mem, mem': Mem, loc: int, end: int, locG: int, endG: int, w: Word,
                   loc': int, end': int, l: Layout)
    requires Writable(mem0, loc, end) && GrownFrom(mem0, memG, loc, end, locG, endG)
    requires Written(memG, mem', locG, endG, loc', end', l) && FooterKept(mem0, mem', end)
    requires Clear(end, FooterSize(end), locG, FootEnd(endG))
    requires w == RedirectionWord(locG, endG)
    ensures Ended(mem0, mem', end, [w] + Redirections(l), end')
    ensures Chain(mem', end, [w] + Redirections(l), end')
    ensures FootersClear(end, [w] + Redirections(l), loc', FootEnd(end'))
  {
    hide LoadWord, GrownPayload, RedirectionWord, At, Avoids, Same, NewChunks, Redirections, Pointer, Tag, FootEnd;
    FrameFooter(memG, mem', locG, FootEnd(endG), end);
    ClearAdvanced(memG, end, FooterSize(end), locG, endG, loc', end');
    assert ([w] + Redirections(l))[1..] == Redirections(l);
  }

  // The chunks growth has handed out are those the redirections name, in this order.

  lemma NodeLog(log: seq<GibChunk>, left: Layout, right: Layout, v: Word)
    ensures log + ChunksOf(Redirections(left)) + ChunksOf(Redirections(right)) ==
            log + ChunksOf(Redirections(NodeCell(v, left, right)))
  {
    ChunksAppend(Redirections(left), Redirections(right));
  }

  lemma GrownLog(log: seq<GibChunk>, start: int, end: int, l: Layout)
    requires 0 <= start < POINTER_LIMIT && start <= end < start + 0x1_0000
    ensures log + [GibChunk(start, end)] + ChunksOf(Redirections(l)) ==
            log + ChunksOf(Redirections(Redirected(RedirectionWord(start, end), l)))
  {
    hide RedirectionWord, Pointer, Tag;
    ChunksAppend([RedirectionWord(start, end)], Redirections(l));
  }

  lemma LeafLog(log: seq<GibChunk>, v: Word)
    ensures log + ChunksOf(Redirections(LeafCell(v))) == log
  {
  }
}

/** The same tree programs with cursors updated through pointers and an
    accumulator (MonoTree.aos.c). Their contracts use the functions that specify the
    value-passing programs, so the two agree on cursors, bytes and sums, except that
    these have no case for indirections: they exit on input that has one. */
module AosInPlace {
  import opened Memory
  import opened Outcomes
  import opened Runtime
  import opened Chains
  import opened PackedTree
  import opened Trees
  import opened AosWriters
  import opened AosTree

  /** A GibCursor or GibInt variable that callees update. */
  class Cell<T> {
    var value: T

    constructor (value: T)
      ensures this.value == value
    {
      this.value := value;
    }
  }

  method Add1Tree(rt: Runtime, inEnd: Cell<int>, end: Cell<int>, loc: Cell<int>, t: Cell<int>, ghost input: Layout)
    returns (r: Outcome<()>, ghost l: Layout)
    requires end != loc && end != t && loc != t
    requires rt.Valid() && Writable(rt.mem, loc.value, end.value)
    requires At(rt.mem, t.value, input)
    requires Avoids(t.value, input, loc.value, FootEnd(end.value))
    modifies rt`mem, rt`failedAllocs, rt`grown, end, loc, t
    ensures old(rt.failedAllocs) <= rt.failedAllocs <= old(rt.failedAllocs) + 1
    ensures r.Exit? <==> rt.failedAllocs > old(rt.failedAllocs) || !Unshared(input)
    ensures r.Done? ==> rt.Valid()
    ensures r.Done? ==> Written(old(rt.mem), rt.mem, old(loc.value), old(end.value), loc.value, end.value, l)
    ensures r.Done? ==> TreeOf(l) == Add1Spec(TreeOf(input)) && rt.grown == old(rt.grown) + ChunksOf(Redirections(l))
    ensures r.Done? ==> t.value == EndOf(old(t.value), input)
    decreases input, 1
  {
    hide Same, Fresh, Chain, FootersClear, Ended, FootEnd, Advanced, GrownAt, GrownFrom, Grown, Growable, Sized, LoadWord, Avoids, RedirectionWord, Redirections, At, NewChunks;
    ghost var loc0, end0 := loc.value, end.value;
    if loc.value + 18 > end.value {
      l := LeafCell(0);
      GrowableHere(rt.mem, loc.value, end.value);
      var chunk :- rt.GrowRegion(loc.value, end.value);
      loc.value, end.value := chunk.start, chunk.end;
      ghost var mem1 := rt.mem;
      GrownInputKept(old(rt.mem), mem1, t.value, input, loc0, end0, chunk.start, chunk.end);
      var _, rest :- Add1Node(rt, inEnd, end, loc, t, input);
      ghost var w := RedirectionWord(chunk.start, chunk.end);
      GrownLog(old(rt.grown), chunk.start, chunk.end, rest);
      GrownWritten(old(rt.mem), mem1, rt.mem, loc0, end0, chunk.start, chunk.end, w, loc.value, end.value, rest);
      l := Redirected(w, rest);
      r := Done(());
    } else {
      r, l := Add1Node(rt, inEnd, end, loc, t, input);
    }
  }

  /** add1Tree behind its bounds check. */
  method Add1Node(rt: Runtime, inEnd: Cell<int>, end: Cell<int>, loc: Cell<int>, t: Cell<int>, ghost input: Layout)
    returns (r: Outcome<()>, ghost l: Layout)
    requires end != loc && end != t && loc != t
    requires rt.Valid() && Writable(rt.mem, loc.value, end.value)
    requires loc.value + 18 <= end.value
    requires At(rt.mem, t.value, input)
    requires Avoids(t.value, input, loc.value, FootEnd(end.value))
    modifies rt`mem, rt`failedAllocs, rt`grown, end, loc, t
    ensures old(rt.failedAllocs) <= rt.failedAllocs <= old(rt.failedAllocs) + 1
    ensures r.Exit? <==> rt.failedAllocs > old(rt.failedAllocs) || !Unshared(input)
    ensures r.Done? ==> rt.Valid()
    ensures r.Done? ==> Written(old(rt.mem), rt.mem, old(loc.value), old(end.value), loc.value, end.value, l)
    ensures r.Done? ==> TreeOf(l) == Add1Spec(TreeOf(input)) && rt.grown == old(rt.grown) + ChunksOf(Redirections(l))
    ensures r.Done? ==> t.value == EndOf(old(t.value), input)
    decreases input, 0
  {
    hide Same, Fresh, Chain, FootersClear, Ended, FootEnd, Advanced, LoadWord, Avoids, Redirections, AddWord, Pointer, At, NewChunks;
    l := LeafCell(0);
    ghost var mem1, loc1, end1, t0 := rt.mem, loc.value, end.value, t.value;
    Reads(mem1, t0, input);
    var tag := rt.mem[t.value];
    t.value := t.value + 1;
    if tag == LEAF_TAG {
      var v := LoadWord(rt.mem, t.value);
      t.value := t.value + 8;
      rt.WriteNode(loc.value, LEAF_TAG, AddWord(v, 1));
      loc.value := loc.value + NODE_SIZE;
      l := LeafCell(AddWord(v, 1));
      LeafWritten(mem1, rt.mem, loc1, end1, AddWord(v, 1));
      LeafLog(rt.grown, AddWord(v, 1));
    } else if tag == INNER_TAG {
      var v := LoadWord(rt.mem, t.value);
      t.value := t.value + 8;
      rt.WriteNode(loc.value, INNER_TAG, AddWord(v, 1));
      loc.value := loc.value + NODE_SIZE;
      ghost var memH := rt.mem;
      HeaderWritable(mem1, memH, loc1, end1);
      InputKept(mem1, memH, t0, input, loc1, end1, loc1 + NODE_SIZE, end1);
      Reads(memH, t0, input);
      InnerAvoids(t0, input, loc1 + NODE_SIZE, FootEnd(end1));
      var _, leftLayout :- Add1Tree(rt, inEnd, end, loc, t, input.left);
      ghost var memL, locL, endL := rt.mem, loc.value, end.value;
      Survives(memH, memL, t0, input, loc1 + NODE_SIZE, end1, locL, endL, leftLayout);
      Reads(memL, t0, input);
      InnerAvoids(t0, input, locL, FootEnd(endL));
      var _, rightLayout :- Add1Tree(rt, inEnd, end, loc, t, input.right);
      NodeWritten(mem1, memH, memL, rt.mem, loc1, end1, AddWord(v, 1), locL, endL, leftLayout,
                  loc.value, end.value, rightLayout);
      l := NodeCell(AddWord(v, 1), leftLayout, rightLayout);
      NodeLog(old(rt.grown), leftLayout, rightLayout, AddWord(v, 1));
    } else if tag == GIB_REDIRECTION_TAG {
      var target := Untag(LoadWord(rt.mem, t.value));
      t.value := target;
      InnerAvoids(t0, input, loc1, FootEnd(end1));
      r, l := Add1Tree(rt, t, end, loc, t, input.rest);
      return;
    } else {
      r := Exit;
      return;
    }
    r := Done(());
  }

  method SumTree(mem: Mem, end: Cell<int>, tr: Cell<int>, res: Cell<Word>, ghost l: Layout) returns (r: Outcome<()>)
    requires At(mem, tr.value, l)
    modifies tr, res
    ensures r.Exit? <==> !Unshared(l)
    ensures r.Done? ==> tr.value == EndOf(old(tr.value), l)
    ensures r.Done? ==> res.value == AddWord(old(res.value), SumSpec(TreeOf(l)))
    decreases l
  {
    hide AddWord, LoadWord;
    ghost var res0 := res.value;
    var tag := mem[tr.value];
    tr.value := tr.value + 1;
    if tag == LEAF_TAG {
      var v := LoadWord(mem, tr.value);
      tr.value := tr.value + 8;
      res.value := AddWord(res.value, v);
    } else if tag == INNER_TAG {
      var v := LoadWord(mem, tr.value);
      tr.value := tr.value + 8;
      res.value := AddWord(res.value, v);
      var _ :- SumTree(mem, end, tr, res, l.left);
      var _ :- SumTree(mem, end, tr, res, l.right);
      AddWordRegroup(res0, v, SumSpec(TreeOf(l.left)), SumSpec(TreeOf(l.right)));
    } else if tag == GIB_REDIRECTION_TAG {
      var target := Untag(LoadWord(mem, tr.value));
      tr.value := target;
      r := SumTree(mem, tr, tr, res, l.rest);
      return;
    } else {
      r := Exit;
      return;
    }
    r := Done(());
  }
}

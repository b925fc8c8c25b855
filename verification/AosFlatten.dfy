/** _copy_without_ptrs_Tree: copying a value, wherever its parts lie, into one
    contiguous buffer without any pointer. */
module AosFlatten {
  import opened Memory
  import opened Runtime
  import opened PackedTree
  import opened Trees
  import opened AosTree
  import opened TreeSums

  /** The pointer-free bytes of a tree. */
  function Serialize(t: Tree): (bs: seq<Byte>)
    ensures |bs| == NODE_SIZE * Nodes(t)
  {
    match t
    case Leaf(v) => [LEAF_TAG] + BytesOf(v, 8)
    case Node(v, left, right) => [INNER_TAG] + BytesOf(v, 8) + Serialize(left) + Serialize(right)
  }

  /** The pointer-free layout of a tree. */
  function Flat(t: Tree): Layout {
    match t
    case Leaf(v) => LeafCell(v)
    case Node(v, left, right) => NodeCell(v, Flat(left), Flat(right))
  }

  lemma {:induction false} FlatBasics(a: int, t: Tree)
    ensures TreeOf(Flat(t)) == t && EndOf(a, Flat(t)) == a + NODE_SIZE * Nodes(t)
    decreases t
  {
    match t
    case Leaf(_) =>
    case Node(_, left, right) =>
      FlatBasics(a + NODE_SIZE, left);
      FlatBasics(a + NODE_SIZE + NODE_SIZE * Nodes(left), right);
  }

  /** Memory holds the bytes bs from address a on. */
  ghost predicate Holds(mem: Mem, a: int, bs: seq<Byte>) {
    Allocated(mem, a, |bs|) && Slice(mem, a, |bs|) == bs
  }

  lemma HoldsConcat(mem: Mem, a: int, bs: seq<Byte>, bs': seq<Byte>)
    ensures Holds(mem, a, bs + bs') <==> Holds(mem, a, bs) && Holds(mem, a + |bs|, bs')
  {
    if Holds(mem, a, bs + bs') {
      assert forall i :: 0 <= i < |bs| ==> bs[i] == (bs + bs')[i];
      assert forall i :: 0 <= i < |bs'| ==> bs'[i] == (bs + bs')[|bs| + i];
    }
    if Holds(mem, a, bs) && Holds(mem, a + |bs|, bs') {
      var s := Slice(mem, a, |bs|) + Slice(mem, a + |bs|, |bs'|);
      assert Allocated(mem, a, |bs + bs'|);
      assert Slice(mem, a, |bs + bs'|) == s;
    }
  }

  lemma HeaderBytes(mem: Mem, a: int, tag: Byte, w: Word)
    ensures Header(mem, a, tag, w) <==> Holds(mem, a, [tag] + BytesOf(w, 8))
  {
    HoldsConcat(mem, a, [tag], BytesOf(w, 8));
    assert Pow256(8) == WORD_LIMIT;
    if Header(mem, a, tag, w) {
      BytesOfWordOf(Slice(mem, a + 1, 8));
      assert Slice(mem, a, 1) == [tag];
    }
    if Holds(mem, a, [tag]) && Holds(mem, a + 1, BytesOf(w, 8)) {
      assert mem[a] == Slice(mem, a, 1)[0];
    }
  }

  /** A buffer holds the serialized tree exactly when the flat layout is there. */
  lemma {:induction false} FlatIffBytes(mem: Mem, a: int, t: Tree)
    ensures At(mem, a, Flat(t)) <==> Holds(mem, a, Serialize(t))
    decreases t
  {
    hide Holds, Header;
    match t
    case Leaf(v) => HeaderBytes(mem, a, LEAF_TAG, v);
    case Node(v, left, right) =>
      var h := [INNER_TAG] + BytesOf(v, 8);
      HeaderBytes(mem, a, INNER_TAG, v);
      FlatIffBytes(mem, a + NODE_SIZE, left);
      FlatBasics(a + NODE_SIZE, left);
      FlatIffBytes(mem, a + NODE_SIZE + |Serialize(left)|, right);
      HoldsConcat(mem, a, h, Serialize(left));
      HoldsConcat(mem, a, h + Serialize(left), Serialize(right));
  }

  method CopyWithoutPtrs(rt: Runtime, inEnd: int, end: int, loc: int, arg: int, ghost input: Layout) returns (r: Mapped)
    requires At(rt.mem, arg, input)
    requires Allocated(rt.mem, loc, NODE_SIZE * Nodes(TreeOf(input)))
    requires Avoids(arg, input, loc, loc + NODE_SIZE * Nodes(TreeOf(input)))
    modifies rt`mem
    ensures rt.mem.Keys == old(rt.mem).Keys
    ensures Same(old(rt.mem), rt.mem, loc, loc + NODE_SIZE * Nodes(TreeOf(input)))
    ensures At(rt.mem, loc, Flat(TreeOf(input)))
    ensures r == Mapped(ReportedEnd(inEnd, input), end, EndOf(arg, input), loc, loc + NODE_SIZE * Nodes(TreeOf(input)))
    decreases input
  {
    hide LoadWord, Avoids, At, Same, TreeOf, Flat, EndOf, ReportedEnd;
    ghost var mem0 := rt.mem;
    ghost var size := NODE_SIZE * Nodes(TreeOf(input));
    Cases(input, arg, inEnd);
    Reads(mem0, arg, input);
    var tag := rt.mem[arg];
    InnerAvoids(arg, input, loc, loc + size);
    if tag == LEAF_TAG {
      var v := LoadWord(rt.mem, arg + 1);
      rt.WriteNode(loc, LEAF_TAG, v);
      FlatLeafWritten(rt.mem, loc, v);
      r := Mapped(inEnd, end, arg + 1 + 8, loc, loc + NODE_SIZE);
    } else if tag == INNER_TAG {
      var v := LoadWord(rt.mem, arg + 1);
      rt.WriteNode(loc, INNER_TAG, v);
      ghost var memH := rt.mem;
      ghost var a1, n1 := loc + NODE_SIZE, NODE_SIZE * Nodes(TreeOf(input.left));
      SubWindow(mem0, memH, arg, input, loc, loc + size, loc, a1);
      Reads(memH, arg, input);
      ChildWindows(arg, input, loc, loc + size, a1, a1 + n1);
      var left := CopyWithoutPtrs(rt, inEnd, end, loc + NODE_SIZE, arg + 1 + 8, input.left);
      ghost var memL := rt.mem;
      SubWindow(memH, memL, arg, input, loc, loc + size, a1, a1 + n1);
      Reads(memL, arg, input);
      ChildWindows(arg, input, loc, loc + size, a1 + n1, loc + size);
      var right := CopyWithoutPtrs(rt, left.inEnd, left.end, left.cur, left.inCur, input.right);
      FlatNodeWritten(memH, memL, rt.mem, loc, v, TreeOf(input.left), TreeOf(input.right));
      SameWider(mem0, memH, loc, a1, loc, loc + size);
      SameStep(mem0, memH, memL, loc, loc + size, a1, a1 + n1);
      SameStep(mem0, memL, rt.mem, loc, loc + size, a1 + n1, loc + size);
      r := Mapped(right.inEnd, right.end, right.inCur, loc, right.cur);
    } else if tag == GIB_INDIRECTION_TAG {
      var target := Untag(LoadWord(rt.mem, arg + 1));
      var rec := CopyWithoutPtrs(rt, target, end, loc, target, input.target);
      r := Mapped(inEnd, rec.end, arg + 1 + 8, rec.start, rec.cur);
    } else if tag == GIB_REDIRECTION_TAG {
      var target := Untag(LoadWord(rt.mem, arg + 1));
      r := CopyWithoutPtrs(rt, target, end, loc, target, input.rest);
    } else {
      assert false;
    }
  }

  /** What a value means, and where it ends, case by case. */
  lemma Cases(l: Layout, a: int, end: int)
    ensures l.LeafCell? ==> TreeOf(l) == Leaf(l.v) && EndOf(a, l) == a + NODE_SIZE && ReportedEnd(end, l) == end
    ensures l.NodeCell? ==>
      && TreeOf(l) == Node(l.v, TreeOf(l.left), TreeOf(l.right)) && EndOf(a, l) == EndOf(EndOf(a + NODE_SIZE, l.left), l.right)
      && ReportedEnd(end, l) == ReportedEnd(ReportedEnd(end, l.left), l.right)
    ensures l.Redirected? ==>
      && TreeOf(l) == TreeOf(l.rest) && EndOf(a, l) == EndOf(Pointer(l.tagged), l.rest)
      && ReportedEnd(end, l) == ReportedEnd(Pointer(l.tagged), l.rest)
    ensures l.Indirected? ==> TreeOf(l) == TreeOf(l.target) && EndOf(a, l) == a + NODE_SIZE && ReportedEnd(end, l) == end
  {
  }

  lemma FlatLeafWritten(mem: Mem, loc: int, v: Word)
    requires Header(mem, loc, LEAF_TAG, v)
    ensures At(mem, loc, Flat(Leaf(v)))
  {
  }

  lemma SubWindow(mem: Mem, mem': Mem, a: int, l: Layout, lo: int, hi: int, lo': int, hi': int)
    requires At(mem, a, l) && Avoids(a, l, lo, hi) && Same(mem, mem', lo', hi') && lo <= lo' && hi' <= hi
    ensures At(mem', a, l)
  {
    SameWider(mem, mem', lo', hi', lo, hi);
    FrameAt(mem, mem', lo, hi, a, l);
  }

  lemma {:induction false} AvoidsNarrower(a: int, l: Layout, lo: int, hi: int, lo': int, hi': int)
    requires Avoids(a, l, lo, hi) && lo <= lo' && hi' <= hi
    ensures Avoids(a, l, lo', hi')
    decreases l
  {
    match l
    case LeafCell(_) =>
    case NodeCell(_, left, right) =>
      AvoidsNarrower(a + NODE_SIZE, left, lo, hi, lo', hi');
      AvoidsNarrower(EndOf(a + NODE_SIZE, left), right, lo, hi, lo', hi');
    case Redirected(w, rest) => AvoidsNarrower(Pointer(w), rest, lo, hi, lo', hi');
    case Indirected(w, target) => AvoidsNarrower(Pointer(w), target, lo, hi, lo', hi');
  }

  lemma ChildWindows(a: int, l: Layout, lo: int, hi: int, lo': int, hi': int)
    requires l.NodeCell? && Avoids(a, l, lo, hi) && lo <= lo' && hi' <= hi
    ensures Avoids(a + NODE_SIZE, l.left, lo', hi')
    ensures Avoids(EndOf(a + NODE_SIZE, l.left), l.right, lo', hi')
  {
    AvoidsNarrower(a, l, lo, hi, lo', hi');
  }

  lemma {:induction false} FlatAvoids(a: int, t: Tree, lo: int, hi: int)
    requires hi <= a || a + NODE_SIZE * Nodes(t) <= lo
    ensures Avoids(a, Flat(t), lo, hi)
    decreases t
  {
    match t
    case Leaf(_) =>
    case Node(_, left, right) =>
      FlatBasics(a + NODE_SIZE, left);
      FlatAvoids(a + NODE_SIZE, left, lo, hi);
      FlatAvoids(a + NODE_SIZE + NODE_SIZE * Nodes(left), right, lo, hi);
  }

  lemma FlatNodeWritten(memH: Mem, mem1: Mem, mem2: Mem, loc: int, v: Word, left: Tree, right: Tree)
    requires Header(memH, loc, INNER_TAG, v)
    requires var a := loc + NODE_SIZE; var b := a + NODE_SIZE * Nodes(left);
             && Same(memH, mem1, a, b) && At(mem1, a, Flat(left))
             && Same(mem1, mem2, b, b + NODE_SIZE * Nodes(right)) && At(mem2, b, Flat(right))
    ensures At(mem2, loc, Flat(Node(v, left, right)))
  {
    var a := loc + NODE_SIZE;
    var b := a + NODE_SIZE * Nodes(left);
    hide LoadWord, Same;
    FrameHeader(memH, mem1, a, b, loc, INNER_TAG, v);
    FrameHeader(mem1, mem2, b, b + NODE_SIZE * Nodes(right), loc, INNER_TAG, v);
    FlatAvoids(a, left, b, b + NODE_SIZE * Nodes(right));
    FrameAt(mem1, mem2, b, b + NODE_SIZE * Nodes(right), a, Flat(left));
    FlatBasics(a, left);
  }
}

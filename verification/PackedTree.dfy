/** Monomorphic binary trees, packed in array-of-structs order, and what a writer
    must leave behind for the packed bytes to mean a tree. */
module PackedTree {
  import opened Memory
  import opened Runtime
  import opened Chains
  import opened Trees

  /** A tree as it lies in memory: nodes inline, plus the two kinds of pointer.
      The tagged word of a pointer is part of the layout. */
  datatype Layout =
    | LeafCell(v: Word)
    | NodeCell(v: Word, left: Layout, right: Layout)
    | Redirected(tagged: Word, rest: Layout)
    | Indirected(tagged: Word, target: Layout)

  function TreeOf(l: Layout): Tree {
    match l
    case LeafCell(v) => Leaf(v)
    case NodeCell(v, left, right) => Node(v, TreeOf(left), TreeOf(right))
    case Redirected(_, rest) => TreeOf(rest)
    case Indirected(_, target) => TreeOf(target)
  }

  /** The cursor after a value: a redirection moves it to the other chunk, an
      indirection does not. */
  function EndOf(a: int, l: Layout): int
    decreases l
  {
    match l
    case LeafCell(_) => a + NODE_SIZE
    case NodeCell(_, left, right) => EndOf(EndOf(a + NODE_SIZE, left), right)
    case Redirected(w, rest) => EndOf(Pointer(w), rest)
    case Indirected(_, _) => a + NODE_SIZE
  }

  /** Memory holds layout l at address a. */
  ghost predicate At(mem: Mem, a: int, l: Layout)
    decreases l
  {
    match l
    case LeafCell(v) => Header(mem, a, LEAF_TAG, v)
    case NodeCell(v, left, right) =>
      && Header(mem, a, INNER_TAG, v)
      && At(mem, a + NODE_SIZE, left)
      && At(mem, EndOf(a + NODE_SIZE, left), right)
    case Redirected(w, rest) => Header(mem, a, GIB_REDIRECTION_TAG, w) && At(mem, Pointer(w), rest)
    case Indirected(w, target) => Header(mem, a, GIB_INDIRECTION_TAG, w) && At(mem, Pointer(w), target)
  }

  /** What a reader finds at a value's address. */
  lemma Reads(mem: Mem, a: int, l: Layout)
    requires At(mem, a, l)
    ensures Allocated(mem, a, NODE_SIZE)
    ensures mem[a] == match l
                      case LeafCell(_) => LEAF_TAG
                      case NodeCell(_, _, _) => INNER_TAG
                      case Redirected(_, _) => GIB_REDIRECTION_TAG
                      case Indirected(_, _) => GIB_INDIRECTION_TAG
    ensures LoadWord(mem, a + 1) == match l
                                    case LeafCell(v) => v
                                    case NodeCell(v, _, _) => v
                                    case Redirected(w, _) => w
                                    case Indirected(w, _) => w
    ensures l.NodeCell? ==> At(mem, a + NODE_SIZE, l.left) && At(mem, EndOf(a + NODE_SIZE, l.left), l.right)
    ensures l.Redirected? ==> At(mem, Pointer(l.tagged), l.rest)
    ensures l.Indirected? ==> At(mem, Pointer(l.tagged), l.target)
  {
  }

  /** No byte of the value at a lies in [lo, hi). */
  predicate Avoids(a: int, l: Layout, lo: int, hi: int)
    decreases l
  {
    Clear(a, NODE_SIZE, lo, hi) &&
    match l
    case LeafCell(_) => true
    case NodeCell(_, left, right) =>
      && Avoids(a + NODE_SIZE, left, lo, hi)
      && Avoids(EndOf(a + NODE_SIZE, left), right, lo, hi)
    case Redirected(w, rest) => Avoids(Pointer(w), rest, lo, hi)
    case Indirected(w, target) => Avoids(Pointer(w), target, lo, hi)
  }

  /** Memory decides the layout, hence the tree and the end cursor: decoding is a function. */
  lemma {:induction false} DecodeUnique(mem: Mem, a: int, l: Layout, l': Layout)
    requires At(mem, a, l) && At(mem, a, l')
    ensures l == l'
    decreases l
  {
    match l
    case LeafCell(_) =>
    case NodeCell(_, left, right) =>
      DecodeUnique(mem, a + NODE_SIZE, left, l'.left);
      DecodeUnique(mem, EndOf(a + NODE_SIZE, left), right, l'.right);
    case Redirected(w, rest) => DecodeUnique(mem, Pointer(w), rest, l'.rest);
    case Indirected(w, target) => DecodeUnique(mem, Pointer(w), target, l'.target);
  }

  lemma {:induction false} FrameAt(mem: Mem, mem': Mem, lo: int, hi: int, a: int, l: Layout)
    requires Same(mem, mem', lo, hi) && At(mem, a, l) && Avoids(a, l, lo, hi)
    ensures At(mem', a, l)
    decreases l
  {
    match l
    case LeafCell(v) => FrameHeader(mem, mem', lo, hi, a, LEAF_TAG, v);
    case NodeCell(v, left, right) =>
      FrameHeader(mem, mem', lo, hi, a, INNER_TAG, v);
      FrameAt(mem, mem', lo, hi, a + NODE_SIZE, left);
      FrameAt(mem, mem', lo, hi, EndOf(a + NODE_SIZE, left), right);
    case Redirected(w, rest) =>
      FrameHeader(mem, mem', lo, hi, a, GIB_REDIRECTION_TAG, w);
      FrameAt(mem, mem', lo, hi, Pointer(w), rest);
    case Indirected(w, target) =>
      FrameHeader(mem, mem', lo, hi, a, GIB_INDIRECTION_TAG, w);
      FrameAt(mem, mem', lo, hi, Pointer(w), target);
  }

  /** A value that avoids a write window avoids the windows it later moves to. */
  lemma {:induction false} AvoidsAdvanced(mem: Mem, a: int, l: Layout, loc: int, end: int, loc': int, end': int)
    requires At(mem, a, l) && Avoids(a, l, loc, FootEnd(end))
    requires Advanced(mem, loc, end, loc', end') && loc' < end'
    ensures Avoids(a, l, loc', FootEnd(end'))
    decreases l
  {
    hide LoadWord, FootEnd;
    ClearAdvanced(mem, a, NODE_SIZE, loc, end, loc', end');
    match l
    case LeafCell(_) =>
    case NodeCell(_, left, right) =>
      AvoidsAdvanced(mem, a + NODE_SIZE, left, loc, end, loc', end');
      AvoidsAdvanced(mem, EndOf(a + NODE_SIZE, left), right, loc, end, loc', end');
    case Redirected(w, rest) => AvoidsAdvanced(mem, Pointer(w), rest, loc, end, loc', end');
    case Indirected(w, target) => AvoidsAdvanced(mem, Pointer(w), target, loc, end, loc', end');
  }

  /** No indirection inside: the value shares no bytes with others. */
  predicate Unshared(l: Layout) {
    match l
    case LeafCell(_) => true
    case NodeCell(_, left, right) => Unshared(left) && Unshared(right)
    case Redirected(_, rest) => Unshared(rest)
    case Indirected(_, _) => false
  }

  /** The tagged words of the redirections crossed while reading a value. */
  function Redirections(l: Layout): seq<Word> {
    match l
    case LeafCell(_) => []
    case NodeCell(_, left, right) => Redirections(left) + Redirections(right)
    case Redirected(w, rest) => [w] + Redirections(rest)
    case Indirected(_, _) => []
  }

  /** The footer of the chunk in which a value ends. */
  function FooterAfter(end: int, l: Layout): int
    decreases l
  {
    match l
    case LeafCell(_) => end
    case NodeCell(_, left, right) => FooterAfter(FooterAfter(end, left), right)
    case Redirected(w, rest) => FooterAfter(FooterOf(w), rest)
    case Indirected(_, _) => end
  }

  /** A redirection lies at a node's cursor if and only if less than 18 bytes were left
      there, a node and a redirection behind it. */
  predicate Paced(loc: int, end: int, l: Layout)
    decreases l
  {
    && (l.Redirected? <==> loc + 18 > end)
    && match l
       case LeafCell(_) => true
       case NodeCell(_, left, right) =>
         Paced(loc + 9, end, left) && Paced(EndOf(loc + 9, left), FooterAfter(end, left), right)
       case Redirected(w, rest) => Paced(Pointer(w), FooterOf(w), rest)
       case Indirected(_, _) => true
  }

  /** A writer given cursor loc in the chunk ending at `end` has written layout l and
      stands at loc' in the chunk ending at end'. Outside its window and in fresh
      memory nothing changed. */
  ghost predicate Written(mem: Mem, mem': Mem, loc: int, end: int, loc': int, end': int, l: Layout) {
    && Same(mem, mem', loc, FootEnd(end))
    && Writable(mem, loc, end)
    && Writable(mem', loc', end')
    && Advanced(mem, loc, end, loc', end')
    && At(mem', loc, l) && EndOf(loc, l) == loc'
    && Avoids(loc, l, loc', FootEnd(end')) && Unshared(l)
    && Ended(mem, mem', end, Redirections(l), end')
    && Chain(mem', end, Redirections(l), end')
    && FootersClear(end, Redirections(l), loc', FootEnd(end'))
    && NewChunks(mem, mem', Redirections(l))
    && FooterAfter(end, l) == end' && Paced(loc, end, l)
  }
}

/** The same trees packed as structs of arrays: one buffer for constructor tags, one
    for the leaf integers and one for the inner-node integers. The three buffers
    grow, and hence redirect, in lock step. */
module SoaTree {
  import opened Memory
  import opened Runtime
  import opened Chains
  import opened Trees

  datatype Buffer = Tags | Leaves | Inners

  /** One position per buffer. */
  datatype Cursors = Cursors(tags: int, leaves: int, inners: int) {
    function Plus(t: int, l: int, i: int): Cursors {
      Cursors(tags + t, leaves + l, inners + i)
    }

    function Of(b: Buffer): int {
      match b
      case Tags => tags
      case Leaves => leaves
      case Inners => inners
    }

    /** From chunk ends to the addresses behind their footers. */
    function PastFooters(): Cursors {
      Cursors(FootEnd(tags), FootEnd(leaves), FootEnd(inners))
    }

    function AfterLeaf(): Cursors {
      Plus(1, 8, 0)
    }

    function AfterInner(): Cursors {
      Plus(1, 0, 8)
    }
  }

  datatype SoaLayout =
    | LeafCells(v: Word)
    | NodeCells(v: Word, left: SoaLayout, right: SoaLayout)
    | AllRedirected(tags: Word, leaves: Word, inners: Word, rest: SoaLayout)
    | AllIndirected(tags: Word, leaves: Word, inners: Word, target: SoaLayout)

  function TreeOf(l: SoaLayout): Tree {
    match l
    case LeafCells(v) => Leaf(v)
    case NodeCells(v, left, right) => Node(v, TreeOf(left), TreeOf(right))
    case AllRedirected(_, _, _, rest) => TreeOf(rest)
    case AllIndirected(_, _, _, target) => TreeOf(target)
  }

  function Targets(l: SoaLayout): Cursors
    requires l.AllRedirected? || l.AllIndirected?
  {
    Cursors(Pointer(l.tags), Pointer(l.leaves), Pointer(l.inners))
  }

  function EndOf(c: Cursors, l: SoaLayout): Cursors
    decreases l
  {
    match l
    case LeafCells(_) => c.AfterLeaf()
    case NodeCells(_, left, right) => EndOf(EndOf(c.AfterInner(), left), right)
    case AllRedirected(_, _, _, rest) => EndOf(Targets(l), rest)
    case AllIndirected(_, _, _, _) => c.Plus(NODE_SIZE, NODE_SIZE, NODE_SIZE)
  }

  ghost predicate TagAt(mem: Mem, a: int, tag: Byte) {
    a in mem && mem[a] == tag
  }

  ghost predicate WordAt(mem: Mem, a: int, w: Word) {
    Allocated(mem, a, 8) && LoadWord(mem, a) == w
  }

  /** When the tag cursor stands on a redirection or an indirection, so do both
      integer cursors. */
  ghost predicate Pointers(mem: Mem, c: Cursors, l: SoaLayout, tag: Byte)
    requires l.AllRedirected? || l.AllIndirected?
  {
    && Header(mem, c.tags, tag, l.tags)
    && Header(mem, c.leaves, tag, l.leaves)
    && Header(mem, c.inners, tag, l.inners)
  }

  ghost predicate At(mem: Mem, c: Cursors, l: SoaLayout)
    decreases l
  {
    match l
    case LeafCells(v) => TagAt(mem, c.tags, LEAF_TAG) && WordAt(mem, c.leaves, v)
    case NodeCells(v, left, right) =>
      && TagAt(mem, c.tags, INNER_TAG) && WordAt(mem, c.inners, v)
      && At(mem, c.AfterInner(), left)
      && At(mem, EndOf(c.AfterInner(), left), right)
    case AllRedirected(_, _, _, rest) => Pointers(mem, c, l, GIB_REDIRECTION_TAG) && At(mem, Targets(l), rest)
    case AllIndirected(_, _, _, target) => Pointers(mem, c, l, GIB_INDIRECTION_TAG) && At(mem, Targets(l), target)
  }

  // Writers.

  /** What writes a value: its cursors, the footers it is told to grow from, and the
      footers of the chunks its cursors stand in. These are the same ones, except for
      a writer that has gone astray. */
  datatype Writer = Writer(loc: Cursors, end: Cursors, own: Cursors) {
    predicate Astray() {
      own != end
    }

    function To(loc: Cursors): Writer {
      Writer(loc, end, own)
    }
  }

  function Here(loc: Cursors, end: Cursors): Writer {
    Writer(loc, end, end)
  }

  predicate InWindows(x: int, lo: Cursors, hi: Cursors) {
    lo.tags <= x < hi.tags || lo.leaves <= x < hi.leaves || lo.inners <= x < hi.inners
  }

  /** Where a writer may write: in what is left of its chunks, and in the footers it
      grows from. */
  predicate Mine(x: int, w: Writer) {
    InWindows(x, w.loc, w.own) || InWindows(x, w.end, w.end.PastFooters())
  }

  predicate Off(a: int, n: nat, w: Writer) {
    forall x :: a <= x < a + n ==> !Mine(x, w)
  }

  predicate PointersOff(c: Cursors, w: Writer) {
    Off(c.tags, NODE_SIZE, w) && Off(c.leaves, NODE_SIZE, w) && Off(c.inners, NODE_SIZE, w)
  }

  /** No byte of the value at c is the writer's. */
  predicate Avoids(c: Cursors, l: SoaLayout, w: Writer)
    decreases l
  {
    match l
    case LeafCells(_) => Off(c.tags, 1, w) && Off(c.leaves, 8, w)
    case NodeCells(_, left, right) =>
      && Off(c.tags, 1, w) && Off(c.inners, 8, w)
      && Avoids(c.AfterInner(), left, w)
      && Avoids(EndOf(c.AfterInner(), left), right, w)
    case AllRedirected(_, _, _, rest) => PointersOff(c, w) && Avoids(Targets(l), rest, w)
    case AllIndirected(_, _, _, target) => PointersOff(c, w) && Avoids(Targets(l), target, w)
  }

  /** No indirection inside: the value shares no bytes with others. */
  predicate Unshared(l: SoaLayout) {
    match l
    case LeafCells(_) => true
    case NodeCells(_, left, right) => Unshared(left) && Unshared(right)
    case AllRedirected(_, _, _, rest) => Unshared(rest)
    case AllIndirected(_, _, _, _) => false
  }

  /** The tagged words of the redirections crossed in one buffer. */
  function WordsOf(l: SoaLayout, b: Buffer): seq<Word> {
    match l
    case LeafCells(_) => []
    case NodeCells(_, left, right) => WordsOf(left, b) + WordsOf(right, b)
    case AllRedirected(tags, leaves, inners, rest) =>
      [match b case Tags => tags case Leaves => leaves case Inners => inners] + WordsOf(rest, b)
    case AllIndirected(_, _, _, _) => []
  }

  /** Those of all buffers, in the order in which the chunks are allocated. */
  function AllWords(l: SoaLayout): seq<Word> {
    match l
    case LeafCells(_) => []
    case NodeCells(_, left, right) => AllWords(left) + AllWords(right)
    case AllRedirected(tags, leaves, inners, rest) => [inners, leaves, tags] + AllWords(rest)
    case AllIndirected(_, _, _, _) => []
  }

  lemma {:induction false} DecodeUnique(mem: Mem, c: Cursors, l: SoaLayout, l': SoaLayout)
    requires At(mem, c, l) && At(mem, c, l')
    ensures l == l'
    decreases l
  {
    match l
    case LeafCells(_) =>
    case NodeCells(_, left, right) =>
      DecodeUnique(mem, c.AfterInner(), left, l'.left);
      DecodeUnique(mem, EndOf(c.AfterInner(), left), right, l'.right);
    case AllRedirected(_, _, _, rest) => DecodeUnique(mem, Targets(l), rest, l'.rest);
    case AllIndirected(_, _, _, target) => DecodeUnique(mem, Targets(l), target, l'.target);
  }

  // What a writer changes, and what it keeps.

  ghost predicate SameBut(mem: Mem, mem': Mem, w: Writer) {
    forall x :: x in mem ==> x in mem' && (Mine(x, w) || mem'[x] == mem[x])
  }

  /** The writer w' writes where w could, or in memory that did not exist then. */
  ghost predicate Inside(mem: Mem, w: Writer, w': Writer) {
    forall x :: x in mem && Mine(x, w') ==> Mine(x, w)
  }

  lemma OffAgree(mem: Mem, mem': Mem, a: int, n: nat, w: Writer)
    requires SameBut(mem, mem', w) && Allocated(mem, a, n) && Off(a, n, w)
    ensures Agree(mem, mem', a, n)
  {
  }

  lemma OffInside(mem: Mem, a: int, n: nat, w: Writer, w': Writer)
    requires Allocated(mem, a, n) && Off(a, n, w) && Inside(mem, w, w')
    ensures Off(a, n, w')
  {
  }

  lemma FramePointers(mem: Mem, mem': Mem, w: Writer, c: Cursors, l: SoaLayout, tag: Byte)
    requires l.AllRedirected? || l.AllIndirected?
    requires SameBut(mem, mem', w) && Pointers(mem, c, l, tag) && PointersOff(c, w)
    ensures Pointers(mem', c, l, tag)
  {
    hide SameBut, Off, LoadWord;
    OffAgree(mem, mem', c.tags, NODE_SIZE, w);
    OffAgree(mem, mem', c.leaves, NODE_SIZE, w);
    OffAgree(mem, mem', c.inners, NODE_SIZE, w);
    AgreeHeader(mem, mem', c.tags, tag, l.tags);
    AgreeHeader(mem, mem', c.leaves, tag, l.leaves);
    AgreeHeader(mem, mem', c.inners, tag, l.inners);
  }

  lemma FrameCells(mem: Mem, mem': Mem, w: Writer, t: int, tag: Byte, a: int, v: Word)
    requires SameBut(mem, mem', w) && TagAt(mem, t, tag) && WordAt(mem, a, v) && Off(t, 1, w) && Off(a, 8, w)
    ensures TagAt(mem', t, tag) && WordAt(mem', a, v)
  {
    hide LoadWord, Mine;
    OffAgree(mem, mem', t, 1, w);
    OffAgree(mem, mem', a, 8, w);
    AgreeWord(mem, mem', a);
  }

  lemma {:induction false} FrameAt(mem: Mem, mem': Mem, w: Writer, c: Cursors, l: SoaLayout)
    requires SameBut(mem, mem', w) && At(mem, c, l) && Avoids(c, l, w)
    ensures At(mem', c, l)
    decreases l
  {
    hide LoadWord, SameBut, Off, TagAt, WordAt, Pointers, PointersOff;
    match l
    case LeafCells(v) => FrameCells(mem, mem', w, c.tags, LEAF_TAG, c.leaves, v);
    case NodeCells(v, left, right) =>
      FrameCells(mem, mem', w, c.tags, INNER_TAG, c.inners, v);
      FrameAt(mem, mem', w, c.AfterInner(), left);
      FrameAt(mem, mem', w, EndOf(c.AfterInner(), left), right);
    case AllRedirected(_, _, _, rest) =>
      FramePointers(mem, mem', w, c, l, GIB_REDIRECTION_TAG);
      FrameAt(mem, mem', w, Targets(l), rest);
    case AllIndirected(_, _, _, target) =>
      FramePointers(mem, mem', w, c, l, GIB_INDIRECTION_TAG);
      FrameAt(mem, mem', w, Targets(l), target);
  }

  lemma {:induction false} AvoidsInside(mem: Mem, c: Cursors, l: SoaLayout, w: Writer, w': Writer)
    requires At(mem, c, l) && Avoids(c, l, w) && Inside(mem, w, w')
    ensures Avoids(c, l, w')
    decreases l
  {
    hide LoadWord, Inside, Off;
    match l
    case LeafCells(_) =>
      OffInside(mem, c.tags, 1, w, w');
      OffInside(mem, c.leaves, 8, w, w');
    case NodeCells(_, left, right) =>
      OffInside(mem, c.tags, 1, w, w');
      OffInside(mem, c.inners, 8, w, w');
      AvoidsInside(mem, c.AfterInner(), left, w, w');
      AvoidsInside(mem, EndOf(c.AfterInner(), left), right, w, w');
    case AllRedirected(_, _, _, rest) =>
      PointersInside(mem, c, l, GIB_REDIRECTION_TAG, w, w');
      AvoidsInside(mem, Targets(l), rest, w, w');
    case AllIndirected(_, _, _, target) =>
      PointersInside(mem, c, l, GIB_INDIRECTION_TAG, w, w');
      AvoidsInside(mem, Targets(l), target, w, w');
  }

  lemma PointersInside(mem: Mem, c: Cursors, l: SoaLayout, tag: Byte, w: Writer, w': Writer)
    requires l.AllRedirected? || l.AllIndirected?
    requires Pointers(mem, c, l, tag) && PointersOff(c, w) && Inside(mem, w, w')
    ensures PointersOff(c, w')
  {
    hide LoadWord, Inside, Off;
    OffInside(mem, c.tags, NODE_SIZE, w, w');
    OffInside(mem, c.leaves, NODE_SIZE, w, w');
    OffInside(mem, c.inners, NODE_SIZE, w, w');
  }

  // What a writer must find, and what it leaves behind.

  ghost predicate Apart(lo: Cursors, hi: Cursors) {
    && Clear(lo.tags, hi.tags - lo.tags, lo.leaves, hi.leaves)
    && Clear(lo.tags, hi.tags - lo.tags, lo.inners, hi.inners)
    && Clear(lo.leaves, hi.leaves - lo.leaves, lo.inners, hi.inners)
  }

  /** [a, a + n) lies outside the three windows [lo, hi). */
  predicate Clear3(a: int, n: nat, lo: Cursors, hi: Cursors) {
    && Clear(a, n, lo.tags, hi.tags)
    && Clear(a, n, lo.leaves, hi.leaves)
    && Clear(a, n, lo.inners, hi.inners)
  }

  /** Three write cursors in three disjoint buffers, each with room for a redirection. */
  ghost predicate Writable3(mem: Mem, loc: Cursors, end: Cursors) {
    && Writable(mem, loc.tags, end.tags)
    && Writable(mem, loc.leaves, end.leaves)
    && Writable(mem, loc.inners, end.inners)
    && Apart(loc, end.PastFooters())
  }

  /** In buffer b: the cursor stands in a chunk with footer own, and the footer it is
      told to grow from can be grown from and is none of the bytes still to be written. */
  ghost predicate Stands(mem: Mem, w: Writer, b: Buffer) {
    && w.loc.Of(b) <= w.own.Of(b) && Allocated(mem, w.loc.Of(b), FootEnd(w.own.Of(b)) - w.loc.Of(b))
    && Sized(mem, w.end.Of(b)) && Clear3(w.end.Of(b), FooterSize(w.end.Of(b)), w.loc, w.own)
  }

  ghost predicate Stands3(mem: Mem, w: Writer) {
    Stands(mem, w, Tags) && Stands(mem, w, Leaves) && Stands(mem, w, Inners)
  }

  /** What a writer finds when its cursors stand in other chunks than the footers it is
      told to grow from. */
  ghost predicate Strayed(mem: Mem, w: Writer) {
    Stands3(mem, w) && Apart(w.loc, w.own) && Apart(w.end, w.end.PastFooters())
  }

  ghost predicate Sound(mem: Mem, w: Writer) {
    if w.Astray() then Strayed(mem, w) else Writable3(mem, w.loc, w.end)
  }

  ghost predicate Advanced3(mem: Mem, loc: Cursors, end: Cursors, loc': Cursors, end': Cursors) {
    && Advanced(mem, loc.tags, end.tags, loc'.tags, end'.tags)
    && Advanced(mem, loc.leaves, end.leaves, loc'.leaves, end'.leaves)
    && Advanced(mem, loc.inners, end.inners, loc'.inners, end'.inners)
  }

  /** Cursors and footers stay, move forward in their chunks, or go to new ones. */
  ghost predicate Moved(mem: Mem, w: Writer, w': Writer) {
    Advanced3(mem, w.loc, w.own, w'.loc, w'.own) && Advanced3(mem, w.end, w.end, w'.end, w'.end)
  }

  lemma MovedInside(mem: Mem, w: Writer, w': Writer)
    requires Moved(mem, w, w')
    ensures Inside(mem, w, w')
  {
  }

  /** The chain's footers but the last one are not the writer's. */
  predicate FootersOff(end: int, ws: seq<Word>, w: Writer)
    decreases |ws|
  {
    ws == [] || (Off(end, FooterSize(end), w) && FootersOff(FooterOf(ws[0]), ws[1..], w))
  }

  /** In one buffer, the footers from `end` on and the redirections ws name the same new
      chunks, in the same order, up to end'; w is where the writer stands then. */
  ghost predicate Extended(mem: Mem, mem': Mem, end: int, ws: seq<Word>, end': int, w: Writer) {
    && Ended(mem, mem', end, ws, end')
    && Chain(mem', end, ws, end')
    && NewChunks(mem, mem', ws)
    && FootersOff(end, ws, w)
  }

  /** l is the grown layout, except that some of its redirections have been passed over. */
  predicate Skipping(l: SoaLayout, grown: SoaLayout)
    decreases grown
  {
    match grown
    case LeafCells(_) => l == grown
    case NodeCells(v, left, right) => l.NodeCells? && l.v == v && Skipping(l.left, left) && Skipping(l.right, right)
    case AllRedirected(tags, leaves, inners, rest) =>
      || Skipping(l, rest)
      || (l.AllRedirected? && l.tags == tags && l.leaves == leaves && l.inners == inners && Skipping(l.rest, rest))
    case AllIndirected(_, _, _, _) => false
  }

  /** The writer w has written layout l at its cursors and goes on as w'. The chunks it
      has added are those `grown` names. Outside its windows and in fresh memory
      nothing changed. */
  ghost predicate Wrote(mem: Mem, mem': Mem, w: Writer, w': Writer, l: SoaLayout, grown: SoaLayout) {
    && SameBut(mem, mem', w)
    && Sound(mem, w) && Sound(mem', w') && Moved(mem, w, w')
    && At(mem', w.loc, l) && EndOf(w.loc, l) == w'.loc
    && Avoids(w.loc, l, w') && Unshared(l)
    && (forall b: Buffer :: Extended(mem, mem', w.end.Of(b), WordsOf(grown, b), w'.end.Of(b), w'))
    && NewChunks(mem, mem', AllWords(grown)) && Skipping(l, grown)
  }

  function Footers(l: SoaLayout): Cursors
    requires l.AllRedirected?
  {
    Cursors(FooterOf(l.tags), FooterOf(l.leaves), FooterOf(l.inners))
  }

  /** The footers of the chunks in which a value ends. */
  function FootersAfter(end: Cursors, l: SoaLayout): Cursors
    decreases l
  {
    match l
    case LeafCells(_) => end
    case NodeCells(_, left, right) => FootersAfter(FootersAfter(end, left), right)
    case AllRedirected(_, _, _, rest) => FootersAfter(Footers(l), rest)
    case AllIndirected(_, _, _, _) => end
  }

  /** The redirections lie at a node's cursors if and only if one of the buffers had less
      than 34 bytes left for tags, or less than 17 for integers. */
  predicate Paced(loc: Cursors, end: Cursors, l: SoaLayout)
    decreases l
  {
    && (l.AllRedirected? <==> loc.tags + 34 > end.tags || loc.leaves + 17 > end.leaves || loc.inners + 17 > end.inners)
    && match l
       case LeafCells(_) => true
       case NodeCells(_, left, right) =>
         Paced(loc.AfterInner(), end, left) && Paced(EndOf(loc.AfterInner(), left), FootersAfter(end, left), right)
       case AllRedirected(_, _, _, rest) => Paced(Targets(l), Footers(l), rest)
       case AllIndirected(_, _, _, _) => true
  }

  /** The counterpart of PackedTree.Written for three buffers: a writer that is told where
      it stands, and leaves every chunk it adds reachable. */
  ghost predicate Written(mem: Mem, mem': Mem, loc: Cursors, end: Cursors, loc': Cursors, end': Cursors, l: SoaLayout) {
    Wrote(mem, mem', Here(loc, end), Here(loc', end'), l, l) && FootersAfter(end, l) == end' && Paced(loc, end, l)
  }
}

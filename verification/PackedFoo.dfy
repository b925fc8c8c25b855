/** Foo trees packed into growing regions, with out-of-line random-access pointers at
    big nodes, and how writers of such bytes compose. */
module PackedFoo {
  import opened Memory
  import opened FooTrees

  const A_TAG: Byte := 0
  const B_TAG: Byte := 1
  const C_BIG_TAG: Byte := 3
  const C_TMP_TAG: Byte := 4
  const FOO_INDIRECTION_TAG: Byte := 90
  const FOO_REDIRECTION_TAG: Byte := 100

  const REGION_FOOTER_SIZE := 48 // seq_no, size, refcount_ptr, outset_ptr, next, prev
  const MIN_ROOM := 14           // what a node leaves of the 31 bytes it was granted

  /** A tree as it lies in memory, with the two kinds of pointer. */
  datatype Cells =
    | ACell(n: Word)
    | BCell(n: Word, f1: Cells, f2: Cells)
    | CTmp(slot: Word, n: Word, f1: Cells, f2: Cells, f3: Cells)
    | CBig(ran: Word, n: Word, f1: Cells, f2: Cells, f3: Cells)
    | Jump(tag: Byte, to: Word, rest: Cells)

  function FooOf(c: Cells): Foo {
    match c
    case ACell(n) => A(n)
    case BCell(n, f1, f2) => B(n, FooOf(f1), FooOf(f2))
    case CTmp(_, n, f1, f2, f3) => C(n, FooOf(f1), FooOf(f2), FooOf(f3))
    case CBig(_, n, f1, f2, f3) => C(n, FooOf(f1), FooOf(f2), FooOf(f3))
    case Jump(_, _, rest) => FooOf(rest)
  }

  function Nodes(c: Cells): nat {
    match c
    case ACell(_) => 1
    case BCell(_, f1, f2) => 1 + Nodes(f1) + Nodes(f2)
    case CTmp(_, _, f1, f2, f3) => 1 + Nodes(f1) + Nodes(f2) + Nodes(f3)
    case CBig(_, _, f1, f2, f3) => 1 + Nodes(f1) + Nodes(f2) + Nodes(f3)
    case Jump(_, _, rest) => 1 + Nodes(rest)
  }

  /** The cursor after a value: an indirection stays in its nine bytes, a redirection
      continues elsewhere for good. */
  function EndOf(a: int, c: Cells): int
    decreases c
  {
    match c
    case ACell(_) => a + 9
    case BCell(_, f1, f2) => EndOf(EndOf(a + 9, f1), f2)
    case CTmp(_, _, f1, f2, f3) => EndOf(EndOf(EndOf(a + 17, f1), f2), f3)
    case CBig(_, _, f1, f2, f3) => EndOf(EndOf(EndOf(a + 17, f1), f2), f3)
    case Jump(tag, to, rest) => if tag == FOO_INDIRECTION_TAG then a + 9 else EndOf(to, rest)
  }

  ghost predicate CHeader(mem: Mem, a: int, tag: Byte, slot: Word, n: Word) {
    Allocated(mem, a, 17) && mem[a] == tag && LoadWord(mem, a + 1) == slot && LoadWord(mem, a + 9) == n
  }

  /** A random-access slot: the addresses of children 2 and 3. */
  ghost predicate SlotHolds(mem: Mem, ran: int, second: int, third: int) {
    Allocated(mem, ran, 16) && LoadWord(mem, ran) == second && LoadWord(mem, ran + 8) == third
  }

  ghost predicate At(mem: Mem, a: int, c: Cells)
    decreases c
  {
    match c
    case ACell(n) => Header(mem, a, A_TAG, n)
    case BCell(n, f1, f2) =>
      && Header(mem, a, B_TAG, n)
      && At(mem, a + 9, f1)
      && At(mem, EndOf(a + 9, f1), f2)
    case CTmp(slot, n, f1, f2, f3) =>
      && CHeader(mem, a, C_TMP_TAG, slot, n)
      && At(mem, a + 17, f1)
      && At(mem, EndOf(a + 17, f1), f2)
      && At(mem, EndOf(EndOf(a + 17, f1), f2), f3)
    case CBig(ran, n, f1, f2, f3) =>
      && CHeader(mem, a, C_BIG_TAG, ran, n)
      && At(mem, a + 17, f1)
      && At(mem, EndOf(a + 17, f1), f2)
      && At(mem, EndOf(EndOf(a + 17, f1), f2), f3)
      && SlotHolds(mem, ran, EndOf(a + 17, f1), EndOf(EndOf(a + 17, f1), f2))
    case Jump(tag, to, rest) =>
      && (tag == FOO_REDIRECTION_TAG || tag == FOO_INDIRECTION_TAG)
      && Header(mem, a, tag, to) && At(mem, to, rest)
  }

  function Range(lo: int, hi: int): (s: set<int>)
    ensures forall x :: x in s <==> lo <= x < hi
    decreases hi - lo
  {
    if lo >= hi then {} else {lo} + Range(lo + 1, hi)
  }

  /** Every address the value uses, slots included. */
  function Bytes(a: int, c: Cells): set<int>
    decreases c
  {
    match c
    case ACell(_) => Range(a, a + 9)
    case BCell(_, f1, f2) => Range(a, a + 9) + Bytes(a + 9, f1) + Bytes(EndOf(a + 9, f1), f2)
    case CTmp(_, _, f1, f2, f3) =>
      Range(a, a + 17) + Bytes(a + 17, f1) + Bytes(EndOf(a + 17, f1), f2) + Bytes(EndOf(EndOf(a + 17, f1), f2), f3)
    case CBig(ran, _, f1, f2, f3) =>
      Range(a, a + 17) + Bytes(a + 17, f1) + Bytes(EndOf(a + 17, f1), f2) + Bytes(EndOf(EndOf(a + 17, f1), f2), f3)
      + Range(ran, ran + 16)
    case Jump(_, to, rest) => Range(a, a + 9) + Bytes(to, rest)
  }

  // Where sumFoo goes on: it follows an indirection as if it were a redirection.

  function ReadEnd(a: int, c: Cells): int
    decreases c
  {
    match c
    case ACell(_) => a + 9
    case BCell(_, f1, f2) => ReadEnd(EndOf(a + 9, f1), f2)
    case CTmp(_, _, f1, f2, f3) => ReadEnd(EndOf(EndOf(a + 17, f1), f2), f3)
    case CBig(_, _, f1, f2, f3) => ReadEnd(EndOf(EndOf(a + 17, f1), f2), f3)
    case Jump(_, to, rest) => ReadEnd(to, rest)
  }

  /** The last cell of the value, redirections aside, is an indirection. */
  predicate EndsIndirect(c: Cells) {
    match c
    case ACell(_) => false
    case BCell(_, _, f2) => EndsIndirect(f2)
    case CTmp(_, _, _, _, f3) => EndsIndirect(f3)
    case CBig(_, _, _, _, f3) => EndsIndirect(f3)
    case Jump(tag, _, rest) => tag == FOO_INDIRECTION_TAG || EndsIndirect(rest)
  }

  /** The cells that decide the two ends: one is behind a leaf, */
  lemma {:induction false} LastLeaf(mem: Mem, a: int, c: Cells)
    requires At(mem, a, c)
    ensures ReadEnd(a, c) - 9 in mem && mem[ReadEnd(a, c) - 9] == A_TAG
    decreases c
  {
    hide LoadWord;
    match c
    case ACell(_) =>
    case BCell(_, f1, f2) => LastLeaf(mem, EndOf(a + 9, f1), f2);
    case CTmp(_, _, f1, f2, f3) => LastLeaf(mem, EndOf(EndOf(a + 17, f1), f2), f3);
    case CBig(_, _, f1, f2, f3) => LastLeaf(mem, EndOf(EndOf(a + 17, f1), f2), f3);
    case Jump(_, to, rest) => LastLeaf(mem, to, rest);
  }

  /** the other behind an indirection if the value ends in one. */
  lemma {:induction false} LastCell(mem: Mem, a: int, c: Cells)
    requires At(mem, a, c)
    ensures EndsIndirect(c) ==> EndOf(a, c) - 9 in mem && mem[EndOf(a, c) - 9] == FOO_INDIRECTION_TAG
    ensures !EndsIndirect(c) ==> EndOf(a, c) == ReadEnd(a, c)
    decreases c
  {
    hide LoadWord;
    match c
    case ACell(_) =>
    case BCell(_, f1, f2) => LastCell(mem, EndOf(a + 9, f1), f2);
    case CTmp(_, _, f1, f2, f3) => LastCell(mem, EndOf(EndOf(a + 17, f1), f2), f3);
    case CBig(_, _, f1, f2, f3) => LastCell(mem, EndOf(EndOf(a + 17, f1), f2), f3);
    case Jump(_, to, rest) => LastCell(mem, to, rest);
  }

  /** The two ends are the same exactly when the value does not end in an indirection. */
  lemma EndsExact(mem: Mem, a: int, c: Cells)
    requires At(mem, a, c)
    ensures ReadEnd(a, c) == EndOf(a, c) <==> !EndsIndirect(c)
  {
    LastLeaf(mem, a, c);
    LastCell(mem, a, c);
  }

  /** Where the cursor behind a child is used to find the next one, it is the true end.
      Big nodes find theirs through their slot. */
  predicate Followable(c: Cells) {
    match c
    case ACell(_) => true
    case BCell(_, f1, f2) => !EndsIndirect(f1) && Followable(f1) && Followable(f2)
    case CTmp(_, _, f1, f2, f3) =>
      !EndsIndirect(f1) && !EndsIndirect(f2) && Followable(f1) && Followable(f2) && Followable(f3)
    case CBig(_, _, f1, f2, f3) => Followable(f1) && Followable(f2) && Followable(f3)
    case Jump(_, _, rest) => Followable(rest)
  }

  predicate NoIndirection(c: Cells) {
    match c
    case ACell(_) => true
    case BCell(_, f1, f2) => NoIndirection(f1) && NoIndirection(f2)
    case CTmp(_, _, f1, f2, f3) => NoIndirection(f1) && NoIndirection(f2) && NoIndirection(f3)
    case CBig(_, _, f1, f2, f3) => NoIndirection(f1) && NoIndirection(f2) && NoIndirection(f3)
    case Jump(tag, _, rest) => tag != FOO_INDIRECTION_TAG && NoIndirection(rest)
  }

  lemma {:induction false} DirectFollowable(c: Cells)
    requires NoIndirection(c)
    ensures Followable(c) && !EndsIndirect(c)
  {
    match c
    case ACell(_) =>
    case BCell(_, f1, f2) =>
      DirectFollowable(f1);
      DirectFollowable(f2);
    case CTmp(_, _, f1, f2, f3) =>
      DirectFollowable(f1);
      DirectFollowable(f2);
      DirectFollowable(f3);
    case CBig(_, _, f1, f2, f3) =>
      DirectFollowable(f1);
      DirectFollowable(f2);
      DirectFollowable(f3);
    case Jump(_, _, rest) => DirectFollowable(rest);
  }

  // What sumFoo finds: at a node that is not big it looks for the next child at the cursor
  // the one before it returned, at a big one where the slot says.

  function SlotWord(mem: Mem, a: int): Word {
    if Allocated(mem, a, 8) then LoadWord(mem, a) else 0
  }

  /** The cursor the programs return for what they have read. */
  function ReadStop(mem: Mem, a: int, c: Cells): int
    decreases c
  {
    match c
    case ACell(_) => a + 9
    case BCell(_, f1, f2) => ReadStop(mem, ReadStop(mem, a + 9, f1), f2)
    case CTmp(_, _, f1, f2, f3) => ReadStop(mem, ReadStop(mem, ReadStop(mem, a + 17, f1), f2), f3)
    case CBig(ran, _, _, _, f3) => ReadStop(mem, SlotWord(mem, ran + 8), f3)
    case Jump(_, to, rest) => ReadStop(mem, to, rest)
  }

  /** Read this way, memory holds c at a. */
  ghost predicate ReadAt(mem: Mem, a: int, c: Cells)
    decreases c
  {
    match c
    case ACell(n) => Header(mem, a, A_TAG, n)
    case BCell(n, f1, f2) =>
      Header(mem, a, B_TAG, n) && ReadAt(mem, a + 9, f1) && ReadAt(mem, ReadStop(mem, a + 9, f1), f2)
    case CTmp(slot, n, f1, f2, f3) =>
      && CHeader(mem, a, C_TMP_TAG, slot, n) && ReadAt(mem, a + 17, f1) && ReadAt(mem, ReadStop(mem, a + 17, f1), f2)
      && ReadAt(mem, ReadStop(mem, ReadStop(mem, a + 17, f1), f2), f3)
    case CBig(ran, n, f1, f2, f3) =>
      && CHeader(mem, a, C_BIG_TAG, ran, n) && Allocated(mem, ran, 16) && ReadAt(mem, a + 17, f1)
      && ReadAt(mem, SlotWord(mem, ran), f2) && ReadAt(mem, SlotWord(mem, ran + 8), f3)
    case Jump(tag, to, rest) =>
      && (tag == FOO_REDIRECTION_TAG || tag == FOO_INDIRECTION_TAG)
      && Header(mem, a, tag, to) && ReadAt(mem, to, rest)
  }

  /** Every child is looked for where it lies. */
  ghost predicate InPlace(mem: Mem, a: int, c: Cells)
    decreases c
  {
    match c
    case ACell(_) => true
    case BCell(_, f1, f2) =>
      var e1 := EndOf(a + 9, f1);
      InPlace(mem, a + 9, f1) && ReadStop(mem, a + 9, f1) == e1 && InPlace(mem, e1, f2)
    case CTmp(_, _, f1, f2, f3) =>
      var e1 := EndOf(a + 17, f1);
      var e2 := EndOf(e1, f2);
      && InPlace(mem, a + 17, f1) && ReadStop(mem, a + 17, f1) == e1
      && InPlace(mem, e1, f2) && ReadStop(mem, e1, f2) == e2 && InPlace(mem, e2, f3)
    case CBig(_, _, f1, f2, f3) =>
      var e1 := EndOf(a + 17, f1);
      InPlace(mem, a + 17, f1) && InPlace(mem, e1, f2) && InPlace(mem, EndOf(e1, f2), f3)
    case Jump(_, to, rest) => InPlace(mem, to, rest)
  }

  /** That is so exactly for the followable values, */
  lemma {:induction false} InPlaceIff(mem: Mem, a: int, c: Cells)
    requires At(mem, a, c)
    ensures InPlace(mem, a, c) <==> Followable(c)
    ensures Followable(c) ==> ReadStop(mem, a, c) == ReadEnd(a, c)
    decreases c
  {
    hide LoadWord;
    match c
    case ACell(_) =>
    case BCell(_, f1, f2) =>
      InPlaceIff(mem, a + 9, f1);
      EndsExact(mem, a + 9, f1);
      InPlaceIff(mem, EndOf(a + 9, f1), f2);
    case CTmp(_, _, f1, f2, f3) =>
      var e1 := EndOf(a + 17, f1);
      InPlaceIff(mem, a + 17, f1);
      EndsExact(mem, a + 17, f1);
      InPlaceIff(mem, e1, f2);
      EndsExact(mem, e1, f2);
      InPlaceIff(mem, EndOf(e1, f2), f3);
    case CBig(_, _, f1, f2, f3) =>
      var e1 := EndOf(a + 17, f1);
      InPlaceIff(mem, a + 17, f1);
      InPlaceIff(mem, e1, f2);
      InPlaceIff(mem, EndOf(e1, f2), f3);
    case Jump(_, to, rest) => InPlaceIff(mem, to, rest);
  }

  /** which are therefore read as what they are. */
  lemma {:induction false} FollowableReads(mem: Mem, a: int, c: Cells)
    requires At(mem, a, c) && Followable(c)
    ensures ReadAt(mem, a, c) && ReadStop(mem, a, c) == ReadEnd(a, c)
    decreases c
  {
    hide LoadWord;
    InPlaceIff(mem, a, c);
    match c
    case ACell(_) =>
    case BCell(_, f1, f2) =>
      FollowableReads(mem, a + 9, f1);
      FollowableReads(mem, EndOf(a + 9, f1), f2);
    case CTmp(_, _, f1, f2, f3) =>
      var e1 := EndOf(a + 17, f1);
      FollowableReads(mem, a + 17, f1);
      FollowableReads(mem, e1, f2);
      FollowableReads(mem, EndOf(e1, f2), f3);
    case CBig(_, _, f1, f2, f3) =>
      var e1 := EndOf(a + 17, f1);
      FollowableReads(mem, a + 17, f1);
      FollowableReads(mem, e1, f2);
      FollowableReads(mem, EndOf(e1, f2), f3);
    case Jump(_, to, rest) => FollowableReads(mem, to, rest);
  }

  // Where sumFoo stops.

  /** Memory determines what is read. */
  lemma {:induction false} ReadUnique(mem: Mem, a: int, c: Cells, d: Cells)
    requires ReadAt(mem, a, c) && ReadAt(mem, a, d)
    ensures c == d
    decreases c
  {
    hide LoadWord;
    match c
    case ACell(_) =>
    case BCell(_, f1, f2) =>
      ReadUnique(mem, a + 9, f1, d.f1);
      ReadUnique(mem, ReadStop(mem, a + 9, f1), f2, d.f2);
    case CTmp(_, _, f1, f2, f3) =>
      var e1 := ReadStop(mem, a + 17, f1);
      ReadUnique(mem, a + 17, f1, d.f1);
      ReadUnique(mem, e1, f2, d.f2);
      ReadUnique(mem, ReadStop(mem, e1, f2), f3, d.f3);
    case CBig(ran, _, f1, f2, f3) =>
      ReadUnique(mem, a + 17, f1, d.f1);
      ReadUnique(mem, SlotWord(mem, ran), f2, d.f2);
      ReadUnique(mem, SlotWord(mem, ran + 8), f3, d.f3);
    case Jump(_, to, rest) => ReadUnique(mem, to, rest, d.rest);
  }

  /** The programs always stop behind a leaf. */
  lemma {:induction false} LastRead(mem: Mem, a: int, d: Cells)
    requires ReadAt(mem, a, d)
    ensures ReadStop(mem, a, d) - 9 in mem && mem[ReadStop(mem, a, d) - 9] == A_TAG
    decreases d
  {
    hide LoadWord;
    match d
    case ACell(_) =>
    case BCell(_, f1, f2) => LastRead(mem, ReadStop(mem, a + 9, f1), f2);
    case CTmp(_, _, f1, f2, f3) => LastRead(mem, ReadStop(mem, ReadStop(mem, a + 17, f1), f2), f3);
    case CBig(ran, _, _, _, f3) => LastRead(mem, SlotWord(mem, ran + 8), f3);
    case Jump(_, to, rest) => LastRead(mem, to, rest);
  }

  /** With the value c at a, whatever the programs read there: the cursor they return is
      not the end of c if c ends in an indirection. If they find all children in place,
      they read c, and it is the end in all other cases. */
  lemma ReadStopExact(mem: Mem, a: int, c: Cells, d: Cells)
    requires At(mem, a, c) && ReadAt(mem, a, d)
    ensures EndsIndirect(c) ==> ReadStop(mem, a, d) != EndOf(a, c)
    ensures Followable(c) ==> d == c && (ReadStop(mem, a, d) == EndOf(a, c) <==> !EndsIndirect(c))
  {
    hide At, ReadAt, ReadStop, EndOf, Followable, EndsIndirect;
    LastRead(mem, a, d);
    LastCell(mem, a, c);
    if Followable(c) {
      FollowableReads(mem, a, c);
      ReadUnique(mem, a, c, d);
    }
  }

  /** Elsewhere it may be wrong as well: a node whose first child is an indirection to a
      leaf. What lies behind that leaf is read for the second child. */
  lemma StrayRead(mem: Mem, a: int, n: Word, to: Word, v1: Word, v2: Word, v3: Word)
    requires At(mem, a, BCell(n, Jump(FOO_INDIRECTION_TAG, to, ACell(v1)), ACell(v3))) && Header(mem, to + 9, A_TAG, v2)
    ensures var f1 := Jump(FOO_INDIRECTION_TAG, to, ACell(v1));
            var c, d := BCell(n, f1, ACell(v3)), BCell(n, f1, ACell(v2));
            && !EndsIndirect(c) && EndOf(a, c) == a + 27
            && ReadAt(mem, a, d) && ReadStop(mem, a, d) == to + 18 != a + 27
  {
    hide LoadWord;
    var f1 := Jump(FOO_INDIRECTION_TAG, to, ACell(v1));
    assert At(mem, a + 9, f1) && At(mem, to, ACell(v1));
    assert ReadAt(mem, to, ACell(v1)) && ReadStop(mem, to, ACell(v1)) == to + 9;
    assert ReadAt(mem, a + 9, f1) && ReadStop(mem, a + 9, f1) == to + 9;
    assert ReadAt(mem, to + 9, ACell(v2)) && EndOf(a + 9, f1) == a + 18;
  }

  // Random-access slots and tags.

  /** The slots of the big nodes, in the order they are written. */
  function Slots(c: Cells): seq<int> {
    match c
    case ACell(_) => []
    case BCell(_, f1, f2) => Slots(f1) + Slots(f2)
    case CTmp(_, _, f1, f2, f3) => Slots(f1) + Slots(f2) + Slots(f3)
    case CBig(ran, _, f1, f2, f3) => Slots(f1) + Slots(f2) + Slots(f3) + [ran]
    case Jump(_, _, rest) => Slots(rest)
  }

  /** The slots follow each other without gap or overlap. */
  ghost predicate Consecutive(s: seq<int>, ran: int) {
    forall i :: 0 <= i < |s| ==> s[i] == ran + 16 * i
  }

  /** A node is big exactly when its children are over the threshold. */
  predicate Thresholded(c: Cells) {
    match c
    case ACell(_) => true
    case BCell(_, f1, f2) => Thresholded(f1) && Thresholded(f2)
    case CTmp(_, _, f1, f2, f3) =>
      !IsBig(FooOf(f1), FooOf(f2), FooOf(f3)) && Thresholded(f1) && Thresholded(f2) && Thresholded(f3)
    case CBig(_, _, f1, f2, f3) =>
      IsBig(FooOf(f1), FooOf(f2), FooOf(f3)) && Thresholded(f1) && Thresholded(f2) && Thresholded(f3)
    case Jump(_, _, rest) => Thresholded(rest)
  }

  /** Big are the nodes whose children take 8000 bytes and more. */
  lemma BigExactly(c: Cells)
    requires Thresholded(c) && (c.CTmp? || c.CBig?)
    ensures c.CBig? <==> Size(FooOf(c.f1)) + Size(FooOf(c.f2)) + Size(FooOf(c.f3)) >= 8000
  {
  }

  /** No big node anywhere. */
  predicate SeqOnly(c: Cells) {
    match c
    case ACell(_) => true
    case BCell(_, f1, f2) => SeqOnly(f1) && SeqOnly(f2)
    case CTmp(_, _, f1, f2, f3) => SeqOnly(f1) && SeqOnly(f2) && SeqOnly(f3)
    case CBig(_, _, _, _, _) => false
    case Jump(_, _, rest) => SeqOnly(rest)
  }

  /** Big nodes are upward closed: none below a C_tmp node. */
  predicate UpwardClosed(c: Cells) {
    match c
    case ACell(_) => true
    case BCell(_, f1, f2) => UpwardClosed(f1) && UpwardClosed(f2)
    case CTmp(_, _, f1, f2, f3) => SeqOnly(f1) && SeqOnly(f2) && SeqOnly(f3)
    case CBig(_, _, f1, f2, f3) => UpwardClosed(f1) && UpwardClosed(f2) && UpwardClosed(f3)
    case Jump(_, _, rest) => UpwardClosed(rest)
  }

  lemma {:induction false} SmallIsSeq(c: Cells)
    requires Thresholded(c) && Size(FooOf(c)) <= PAR_SIZE_THRESHOLD
    ensures SeqOnly(c)
  {
    match c
    case ACell(_) =>
    case BCell(_, f1, f2) =>
      SmallIsSeq(f1);
      SmallIsSeq(f2);
    case CTmp(_, _, f1, f2, f3) =>
      SmallIsSeq(f1);
      SmallIsSeq(f2);
      SmallIsSeq(f3);
    case CBig(_, _, _, _, _) =>
    case Jump(_, _, rest) => SmallIsSeq(rest);
  }

  lemma {:induction false} ThresholdClosed(c: Cells)
    requires Thresholded(c)
    ensures UpwardClosed(c)
  {
    match c
    case ACell(_) =>
    case BCell(_, f1, f2) =>
      ThresholdClosed(f1);
      ThresholdClosed(f2);
    case CTmp(_, _, f1, f2, f3) =>
      SmallIsSeq(f1);
      SmallIsSeq(f2);
      SmallIsSeq(f3);
    case CBig(_, _, f1, f2, f3) =>
      ThresholdClosed(f1);
      ThresholdClosed(f2);
      ThresholdClosed(f3);
    case Jump(_, _, rest) => ThresholdClosed(rest);
  }

  lemma {:induction false} SlotCount(c: Cells)
    requires Thresholded(c)
    ensures |Slots(c)| == BigCount(FooOf(c))
  {
    match c
    case ACell(_) =>
    case BCell(_, f1, f2) =>
      SlotCount(f1);
      SlotCount(f2);
    case CTmp(_, _, f1, f2, f3) =>
      SlotCount(f1);
      SlotCount(f2);
      SlotCount(f3);
    case CBig(_, _, f1, f2, f3) =>
      SlotCount(f1);
      SlotCount(f2);
      SlotCount(f3);
    case Jump(_, _, rest) => SlotCount(rest);
  }

  /** Consecutive slots do not overlap. */
  lemma SlotsApart(c: Cells, ran: int, i: nat, j: nat)
    requires Consecutive(Slots(c), ran) && i < |Slots(c)| && j < |Slots(c)| && i != j
    ensures Range(Slots(c)[i], Slots(c)[i] + 16) !! Range(Slots(c)[j], Slots(c)[j] + 16)
  {
  }

  lemma ConsecutiveAppend(s: seq<int>, t: seq<int>, ran: int)
    requires Consecutive(s, ran) && Consecutive(t, ran + 16 * |s|)
    ensures Consecutive(s + t, ran)
  {
  }

  // Memory changes, by the set of addresses a writer may touch.

  ghost predicate Changed(mem: Mem, mem': Mem, s: set<int>) {
    forall x :: x in mem ==> x in mem' && (x in s || mem'[x] == mem[x])
  }

  /** What t takes of the old memory belongs to s. */
  ghost predicate Within(mem: Mem, s: set<int>, t: set<int>) {
    forall x :: x in t && x in mem ==> x in s
  }

  lemma ChangedStep(mem0: Mem, mem1: Mem, mem2: Mem, s: set<int>, s1: set<int>)
    requires Changed(mem0, mem1, s) && Within(mem0, s, s1) && Changed(mem1, mem2, s1)
    ensures Changed(mem0, mem2, s)
  {
  }

  lemma FrameWordIn(mem: Mem, mem': Mem, s: set<int>, a: int)
    requires Changed(mem, mem', s) && Allocated(mem, a, 8) && Range(a, a + 8) !! s
    ensures Allocated(mem', a, 8) && LoadWord(mem', a) == LoadWord(mem, a)
  {
    forall x | a <= x < a + 8
      ensures x in mem' && mem'[x] == mem[x]
    {
      assert x in Range(a, a + 8);
    }
    assert Slice(mem', a, 8) == Slice(mem, a, 8);
  }

  lemma FrameNode(mem: Mem, mem': Mem, s: set<int>, a: int, tag: Byte, n: Word)
    requires Changed(mem, mem', s) && Header(mem, a, tag, n) && Range(a, a + 9) !! s
    ensures Header(mem', a, tag, n)
  {
    assert a in Range(a, a + 9);
    assert Range(a + 1, a + 9) <= Range(a, a + 9);
    FrameWordIn(mem, mem', s, a + 1);
  }

  lemma FrameCHeader(mem: Mem, mem': Mem, s: set<int>, a: int, tag: Byte, slot: Word, n: Word)
    requires Changed(mem, mem', s) && CHeader(mem, a, tag, slot, n) && Range(a, a + 17) !! s
    ensures CHeader(mem', a, tag, slot, n)
  {
    assert a in Range(a, a + 17);
    assert Range(a + 1, a + 9) <= Range(a, a + 17) && Range(a + 9, a + 17) <= Range(a, a + 17);
    FrameWordIn(mem, mem', s, a + 1);
    FrameWordIn(mem, mem', s, a + 9);
  }

  lemma FrameSlot(mem: Mem, mem': Mem, s: set<int>, ran: int, second: int, third: int)
    requires Changed(mem, mem', s) && SlotHolds(mem, ran, second, third) && Range(ran, ran + 16) !! s
    ensures SlotHolds(mem', ran, second, third)
  {
    assert Range(ran, ran + 8) <= Range(ran, ran + 16) && Range(ran + 8, ran + 16) <= Range(ran, ran + 16);
    FrameWordIn(mem, mem', s, ran);
    FrameWordIn(mem, mem', s, ran + 8);
  }

  /** A value survives writers that keep off its bytes. */
  lemma {:induction false} FrameAt(mem: Mem, mem': Mem, s: set<int>, a: int, c: Cells)
    requires Changed(mem, mem', s) && At(mem, a, c) && Bytes(a, c) !! s
    ensures At(mem', a, c)
    decreases c
  {
    hide Changed, Header, CHeader, SlotHolds, Range;
    match c
    case ACell(n) => FrameNode(mem, mem', s, a, A_TAG, n);
    case BCell(n, f1, f2) =>
      FrameNode(mem, mem', s, a, B_TAG, n);
      FrameAt(mem, mem', s, a + 9, f1);
      FrameAt(mem, mem', s, EndOf(a + 9, f1), f2);
    case CTmp(slot, n, f1, f2, f3) =>
      FrameCHeader(mem, mem', s, a, C_TMP_TAG, slot, n);
      FrameAt(mem, mem', s, a + 17, f1);
      FrameAt(mem, mem', s, EndOf(a + 17, f1), f2);
      FrameAt(mem, mem', s, EndOf(EndOf(a + 17, f1), f2), f3);
    case CBig(ran, n, f1, f2, f3) =>
      FrameCHeader(mem, mem', s, a, C_BIG_TAG, ran, n);
      FrameSlot(mem, mem', s, ran, EndOf(a + 17, f1), EndOf(EndOf(a + 17, f1), f2));
      FrameAt(mem, mem', s, a + 17, f1);
      FrameAt(mem, mem', s, EndOf(a + 17, f1), f2);
      FrameAt(mem, mem', s, EndOf(EndOf(a + 17, f1), f2), f3);
    case Jump(tag, to, rest) =>
      FrameNode(mem, mem', s, a, tag, to);
      FrameAt(mem, mem', s, to, rest);
  }

  lemma {:induction false} DecodeUnique(mem: Mem, a: int, c: Cells, c': Cells)
    requires At(mem, a, c) && At(mem, a, c')
    ensures c == c'
    decreases c
  {
    hide Header, CHeader;
    TagOf(mem, a, c);
    TagOf(mem, a, c');
    match c
    case ACell(_) =>
    case BCell(_, f1, f2) =>
      DecodeUnique(mem, a + 9, f1, c'.f1);
      DecodeUnique(mem, EndOf(a + 9, f1), f2, c'.f2);
    case CTmp(_, _, f1, f2, f3) =>
      DecodeUnique(mem, a + 17, f1, c'.f1);
      DecodeUnique(mem, EndOf(a + 17, f1), f2, c'.f2);
      DecodeUnique(mem, EndOf(EndOf(a + 17, f1), f2), f3, c'.f3);
    case CBig(_, _, f1, f2, f3) =>
      DecodeUnique(mem, a + 17, f1, c'.f1);
      DecodeUnique(mem, EndOf(a + 17, f1), f2, c'.f2);
      DecodeUnique(mem, EndOf(EndOf(a + 17, f1), f2), f3, c'.f3);
    case Jump(_, to, rest) => DecodeUnique(mem, to, rest, c'.rest);
  }

  /** The byte at a value's address tells its kind, the words behind it its fields. */
  lemma TagOf(mem: Mem, a: int, c: Cells)
    requires At(mem, a, c) || ReadAt(mem, a, c)
    ensures Allocated(mem, a, 9)
    ensures mem[a] == match c case ACell(_) => A_TAG case BCell(_, _, _) => B_TAG case CTmp(_, _, _, _, _) => C_TMP_TAG
                            case CBig(_, _, _, _, _) => C_BIG_TAG case Jump(tag, _, _) => tag
    ensures mem[a] == FOO_REDIRECTION_TAG || mem[a] == FOO_INDIRECTION_TAG <==> c.Jump?
    ensures match c
            case ACell(n) => n == LoadWord(mem, a + 1)
            case BCell(n, _, _) => n == LoadWord(mem, a + 1)
            case CTmp(slot, n, _, _, _) => slot == LoadWord(mem, a + 1) && Allocated(mem, a, 17) && n == LoadWord(mem, a + 9)
            case CBig(slot, n, _, _, _) => slot == LoadWord(mem, a + 1) && Allocated(mem, a, 17) && n == LoadWord(mem, a + 9)
            case Jump(_, to, _) => to == LoadWord(mem, a + 1)
  {
  }

  lemma {:induction false} BytesAllocated(mem: Mem, a: int, c: Cells)
    requires At(mem, a, c)
    ensures forall x :: x in Bytes(a, c) ==> x in mem
    decreases c
  {
    match c
    case ACell(_) =>
    case BCell(_, f1, f2) =>
      BytesAllocated(mem, a + 9, f1);
      BytesAllocated(mem, EndOf(a + 9, f1), f2);
    case CTmp(_, _, f1, f2, f3) =>
      BytesAllocated(mem, a + 17, f1);
      BytesAllocated(mem, EndOf(a + 17, f1), f2);
      BytesAllocated(mem, EndOf(EndOf(a + 17, f1), f2), f3);
    case CBig(_, _, f1, f2, f3) =>
      BytesAllocated(mem, a + 17, f1);
      BytesAllocated(mem, EndOf(a + 17, f1), f2);
      BytesAllocated(mem, EndOf(EndOf(a + 17, f1), f2), f3);
    case Jump(_, to, rest) => BytesAllocated(mem, to, rest);
  }
}

/** rightmost: the last leaf of a packed tree, found through the offset table without
    reading the subtrees to its left. */
module Rightmost {
  import Bits
  import opened Memory
  import opened OffsetTable

  const OFFSET_SIZE := 16

  datatype Foo = A(v: Word) | B(f1: Foo, f2: Foo) | C(f1: Foo, f2: Foo, f3: Foo)

  function RightmostSpec(f: Foo): Word {
    match f
    case A(v) => v
    case B(_, f2) => RightmostSpec(f2)
    case C(_, _, f3) => RightmostSpec(f3)
  }

  function Leaves(f: Foo): seq<Word> {
    match f
    case A(v) => [v]
    case B(f1, f2) => Leaves(f1) + Leaves(f2)
    case C(f1, f2, f3) => Leaves(f1) + Leaves(f2) + Leaves(f3)
  }

  lemma {:induction false} RightmostIsLast(f: Foo)
    ensures Leaves(f) != [] && RightmostSpec(f) == Leaves(f)[|Leaves(f)| - 1]
  {
    match f
    case A(_) =>
    case B(_, f2) => RightmostIsLast(f2);
    case C(_, _, f3) => RightmostIsLast(f3);
  }

  /** Data bytes of a tree, redirections not counted. */
  function Size(f: Foo): nat {
    match f
    case A(_) => 9
    case B(f1, f2) => 1 + Size(f1) + Size(f2)
    case C(f1, f2, f3) => 1 + Size(f1) + Size(f2) + Size(f3)
  }

  /** Bytes of its offset table. */
  function TableSize(f: Foo): nat {
    match f
    case A(_) => 0
    case B(f1, f2) => OFFSET_SIZE + TableSize(f1) + TableSize(f2)
    case C(f1, f2, f3) => 2 * OFFSET_SIZE + TableSize(f1) + TableSize(f2) + TableSize(f3)
  }

  /** One pair of the table: data bytes and table bytes to skip. */
  ghost predicate Offsets(mem: Mem, a: int, s: nat, t: nat) {
    Allocated(mem, a, 16) && LoadWord(mem, a) == s && LoadWord(mem, a + 8) == t
  }

  /** What mkFoo writes into the table at ran. */
  ghost predicate TableOk(mem: Mem, ran: int, f: Foo)
    decreases f
  {
    match f
    case A(_) => true
    case B(f1, f2) =>
      && Offsets(mem, ran, Size(f1), TableSize(f1))
      && TableOk(mem, ran + 16, f1) && TableOk(mem, ran + 16 + TableSize(f1), f2)
    case C(f1, f2, f3) =>
      && Offsets(mem, ran, Size(f1), 16 + TableSize(f1))
      && Offsets(mem, ran + 16, Size(f1) + Size(f2), TableSize(f1) + TableSize(f2))
      && TableOk(mem, ran + 32, f1) && TableOk(mem, ran + 32 + TableSize(f1), f2)
      && TableOk(mem, ran + 32 + TableSize(f1) + TableSize(f2), f3)
  }

  /** From behind a pair, its offsets lead to the child: to its data, from behind the tag,
      and to its part of the table. */
  lemma EntriesLead(mem: Mem, ran: int, f: Foo)
    requires TableOk(mem, ran, f)
    ensures f.B? ==>
      && LoadWord(mem, ran) == Size(f.f1)
      && TableOk(mem, ran + 16, f.f1) && TableOk(mem, ran + 16 + LoadWord(mem, ran + 8), f.f2)
    ensures f.C? ==>
      && LoadWord(mem, ran) == Size(f.f1) && LoadWord(mem, ran + 16) == Size(f.f1) + Size(f.f2)
      && TableOk(mem, ran + 32, f.f1) && TableOk(mem, ran + 16 + LoadWord(mem, ran + 8), f.f2)
      && TableOk(mem, ran + 32 + LoadWord(mem, ran + 24), f.f3)
  {
    hide LoadWord;
  }

  // The data, by logical position: nodes may be spread over chunks, a leaf may not.

  /** cur, in chunk i, is the data byte at logical position pos. */
  ghost predicate IsAt(footers: Footers, ends: seq<int>, i: nat, cur: int, pos: int)
    requires ChainOk(footers, ends) && i < |ends|
  {
    ends[i] in footers && OnData(footers, ends, i, cur) && Logical(footers, ends, i, cur) == pos
  }

  ghost predicate TagAt(mem: Mem, footers: Footers, ends: seq<int>, pos: int, tag: Byte)
    requires ChainOk(footers, ends)
  {
    forall i, cur :: (0 <= i < |ends| && IsAt(footers, ends, i, cur, pos)) ==> cur in mem && mem[cur] == tag
  }

  ghost predicate LeafAt(mem: Mem, footers: Footers, ends: seq<int>, pos: int, v: Word)
    requires ChainOk(footers, ends)
  {
    forall i, cur :: (0 <= i < |ends| && IsAt(footers, ends, i, cur, pos)) ==> Header(mem, cur, 0, v)
  }

  ghost predicate At(mem: Mem, footers: Footers, ends: seq<int>, pos: int, f: Foo)
    requires ChainOk(footers, ends)
    decreases f
  {
    match f
    case A(v) => LeafAt(mem, footers, ends, pos, v)
    case B(f1, f2) =>
      && TagAt(mem, footers, ends, pos, 1)
      && At(mem, footers, ends, pos + 1, f1) && At(mem, footers, ends, pos + 1 + Size(f1), f2)
    case C(f1, f2, f3) =>
      && TagAt(mem, footers, ends, pos, 2)
      && At(mem, footers, ends, pos + 1, f1) && At(mem, footers, ends, pos + 1 + Size(f1), f2)
      && At(mem, footers, ends, pos + 1 + Size(f1) + Size(f2), f3)
  }

  /** Behind the data of every chunk but the last, a redirection names the next one. */
  ghost predicate Redirects(mem: Mem, footers: Footers, ends: seq<int>)
    requires ChainOk(footers, ends)
  {
    forall i :: 0 <= i < |ends| - 1 ==> RedirectsFrom(mem, footers, ends, i)
  }

  ghost predicate RedirectsFrom(mem: Mem, footers: Footers, ends: seq<int>, i: nat)
    requires ChainOk(footers, ends) && i < |ends| - 1
  {
    assert ChunkOk(footers, ends, i) && ChunkOk(footers, ends, i + 1);
    var out := DataEnd(footers, ends[i]);
    && Allocated(mem, out, 17) && mem[out] == REDIRECTION_TAG
    && LoadWord(mem, out + 1) == Start(footers, ends[i + 1]) && LoadWord(mem, out + 9) == ends[i + 1]
  }

  /** Offsets of 0 are read as 1. That does no harm where the child reached has no
      table of its own. */
  predicate Harmless(f: Foo) {
    match f
    case A(_) => true
    case B(f1, f2) => !Shifted(TableSize(f1), f2) && Harmless(f2)
    case C(f1, f2, f3) => !Shifted(TableSize(f1) + TableSize(f2), f3) && Harmless(f3)
  }

  function RanOffset(offset: int): int {
    if offset == 0 then 1 else offset
  }

  /** The table of the last child is looked for one byte too far. */
  predicate Shifted(offset: nat, last: Foo) {
    offset == 0 && TableSize(last) > 0
  }

  /** Along the right spine the table cursor held is each inner node's own table. */
  predicate OnTrack(held: int, own: int, f: Foo)
    decreases f
  {
    match f
    case A(_) => true
    case B(f1, f2) => held == own && OnTrack(held + 16 + RanOffset(TableSize(f1)), own + 16 + TableSize(f1), f2)
    case C(f1, f2, f3) =>
      held == own
      && OnTrack(held + 32 + RanOffset(TableSize(f1) + TableSize(f2)), own + 32 + TableSize(f1) + TableSize(f2), f3)
  }

  lemma {:induction false} OnTrackIff(ran: int, f: Foo)
    ensures OnTrack(ran, ran, f) <==> Harmless(f)
    decreases f
  {
    match f
    case A(_) =>
    case B(f1, f2) => OnTrackIff(ran + 16 + TableSize(f1), f2);
    case C(f1, f2, f3) => OnTrackIff(ran + 32 + TableSize(f1) + TableSize(f2), f3);
  }

  /** The word read one byte behind s when t follows it. */
  function LateWord(s: nat, t: nat): nat {
    s / 256 + t % 256 * 0x100_0000_0000_0000
  }

  // What rightmost returns: also on trees that are not harmless, as far as the tree decides it.

  datatype Found = Value(v: Word) | Unknown

  function ReadsAs(f: Foo): Found {
    match f
    case A(v) => Value(v)
    case B(f1, f2) => if Shifted(TableSize(f1), f2) then Misread(f2) else ReadsAs(f2)
    case C(f1, f2, f3) => if Shifted(TableSize(f1) + TableSize(f2), f3) then Misread(f3) else ReadsAs(f3)
  }

  /** With the table read one byte late, offset 9 becomes 0, and so may the offset behind
      a leaf and f2: the first leaf is taken for the last child. Any other offset leads
      to a byte that need not start a node, or back to an inner node with a table cursor
      that is computed from the wrong bytes. */
  function Misread(f: Foo): Found {
    match f
    case B(A(b), _) => Value(b)
    case C(A(b), f2, _) => if LateWord(9 + Size(f2), TableSize(f2)) == 0 then Value(b) else Unknown
    case _ => Unknown
  }

  /** A node whose entries are its whole table: read late, the last one ends a byte
      behind it. */
  predicate EntriesOnly(f: Foo) {
    (f.B? && TableSize(f) == OFFSET_SIZE) || (f.C? && TableSize(f) == 2 * OFFSET_SIZE)
  }

  /** rightmost reads the byte behind the table of f. */
  predicate ReadsPast(f: Foo) {
    match f
    case A(_) => false
    case B(f1, f2) => if Shifted(TableSize(f1), f2) then EntriesOnly(f2) else ReadsPast(f2)
    case C(f1, f2, f3) => if Shifted(TableSize(f1) + TableSize(f2), f3) then EntriesOnly(f3) else ReadsPast(f3)
  }

  lemma {:induction false} HarmlessReads(f: Foo)
    requires Harmless(f)
    ensures ReadsAs(f) == Value(RightmostSpec(f)) && !ReadsPast(f)
  {
    match f
    case A(_) =>
    case B(_, f2) => HarmlessReads(f2);
    case C(_, _, f3) => HarmlessReads(f3);
  }

  /** The smallest trees read wrongly, for every f: a leaf (and another) in front of a
      subtree that starts with a leaf. The result is that leaf's value, whatever follows. */
  lemma QuirkReturns(a: Word, b: Word, c: Word, f2: Foo, f: Foo, outer: bool, inner: bool)
    requires inner || f2.A? || LateWord(9 + Size(f2), TableSize(f2)) == 0
    ensures var g := if inner then B(A(b), f) else C(A(b), f2, f);
            var t := if outer then B(A(a), g) else C(A(a), A(c), g);
            && !Harmless(t) && ReadsAs(t) == Value(b)
            && (ReadsAs(t) != Value(RightmostSpec(t)) <==> RightmostSpec(f) != b)
  {
  }

  /** The same with the table cursor at `ran` where the node's own table is at `own`. */
  function Result(ran: int, own: int, f: Foo): Found {
    if f.A? || ran == own then ReadsAs(f) else Misread(f)
  }

  /** The table cursor is the node's own, or one byte off at a node that is read as a
      leaf all the same. */
  ghost predicate Readable(mem: Mem, ran: int, own: int, f: Foo) {
    f.A? || (
      && TableOk(mem, own, f) && (ran == own || ran == own + 1) && Result(ran, own, f).Value?
      && ((if ran == own then ReadsPast(f) else EntriesOnly(f)) ==> own + TableSize(f) in mem))
  }

  /** rightmost; f is the tree at the cursor, in chunk i of the region, and own its table. */
  method FindRightmost(mem: Mem, footers: Footers, end: int, cur: int, ran: int,
                       ghost ends: seq<int>, ghost i: nat, ghost f: Foo, ghost own: int) returns (v: Word)
    requires ChainOk(footers, ends) && i < |ends| && ends[i] == end && end in footers && InChunk(footers, ends, i, cur)
    requires Redirects(mem, footers, ends) && At(mem, footers, ends, Logical(footers, ends, i, cur), f)
    requires Readable(mem, ran, own, f)
    ensures Value(v) == Result(ran, own, f)
    ensures f.A? || (ran == own && Harmless(f)) ==> v == RightmostSpec(f)
    decreases f, |ends| - i
  {
    hide LoadWord, ChainOk, Redirects, InChunk, OnData, HasData, Logical, Lands, Allocated, Harmless, Readable, ReadsAs, Misread;
    hide RanOffset, TableSize, TableOk, RightmostSpec, At;
    ChildrenAt(mem, footers, ends, Logical(footers, ends, i, cur), f);
    ResultLeaf(ran, own, f);
    hide Result;
    CursorTag(mem, footers, ends, i, cur, f);
    if mem[cur] == 0 {
      v := LoadWord(mem, cur + 1);
    } else if mem[cur] == 1 {
      TableRead(mem, ran, own, f);
      var dataOffset, ranOffset := LoadWord(mem, ran), RanOffset(LoadWord(mem, ran + 8));
      ghost var f' := if ran == own then f.f2 else f.f1;
      ghost var j := Landing(footers, end, cur + 1, dataOffset, ends, i);
      var tmp := SkipBytes(footers, end, cur + 1, dataOffset, ends, i);
      v := FindRightmost(mem, footers, tmp.0, tmp.1, ran + 16 + ranOffset, ends, j, f', own + 16 + TableSize(f.f1));
    } else if mem[cur] == 2 {
      TableRead(mem, ran, own, f);
      var dataOffset2, ranOffset2 := LoadWord(mem, ran + 16), RanOffset(LoadWord(mem, ran + 24));
      ghost var f' := if ran == own then f.f3 else f.f1;
      ghost var j := Landing(footers, end, cur + 1, dataOffset2, ends, i);
      var tmp := SkipBytes(footers, end, cur + 1, dataOffset2, ends, i);
      v := FindRightmost(mem, footers, tmp.0, tmp.1, ran + 32 + ranOffset2, ends, j, f',
                         own + 32 + TableSize(f.f1) + TableSize(f.f2));
    } else {
      var next: int, end1: int := LoadWord(mem, cur + 1), LoadWord(mem, cur + 9);
      v := FindRightmost(mem, footers, end1, next, ran, ends, i + 1, f, own);
    }
  }

  lemma ChildrenAt(mem: Mem, footers: Footers, ends: seq<int>, pos: int, f: Foo)
    requires ChainOk(footers, ends) && At(mem, footers, ends, pos, f)
    ensures f.B? ==> At(mem, footers, ends, pos + 1, f.f1) && At(mem, footers, ends, pos + 1 + Size(f.f1), f.f2)
    ensures f.C? ==> At(mem, footers, ends, pos + 1, f.f1) && At(mem, footers, ends, pos + 1 + (Size(f.f1) + Size(f.f2)), f.f3)
  {
  }

  lemma ResultLeaf(ran: int, own: int, f: Foo)
    ensures f.A? ==> Result(ran, own, f) == Value(f.v)
    ensures f.A? || (ran == own && Harmless(f)) ==> Result(ran, own, f) == Value(RightmostSpec(f))
  {
    if Harmless(f) {
      HarmlessReads(f);
    }
  }

  /** The entry rightmost reads at an inner node, and where it goes on. */
  lemma TableRead(mem: Mem, ran: int, own: int, f: Foo)
    requires !f.A? && Readable(mem, ran, own, f)
    ensures f.B? ==>
      && Allocated(mem, ran, 8) && Allocated(mem, ran + 8, 8)
      && LoadWord(mem, ran) == (if ran == own then Size(f.f1) else 0)
      && (var ran', own' := ran + 16 + RanOffset(LoadWord(mem, ran + 8)), own + 16 + TableSize(f.f1);
          var f' := if ran == own then f.f2 else f.f1;
          Readable(mem, ran', own', f') && Result(ran', own', f') == Result(ran, own, f))
    ensures f.C? ==>
      && Allocated(mem, ran + 16, 8) && Allocated(mem, ran + 24, 8)
      && LoadWord(mem, ran + 16) == (if ran == own then Size(f.f1) + Size(f.f2) else 0)
      && (var ran' := ran + 32 + RanOffset(LoadWord(mem, ran + 24));
          var own' := own + 32 + TableSize(f.f1) + TableSize(f.f2);
          var f' := if ran == own then f.f3 else f.f1;
          Readable(mem, ran', own', f') && Result(ran', own', f') == Result(ran, own, f))
  {
    hide LoadWord, LateWord;
    if ran != own {
      LateRead(mem, own, f);
    }
  }

  /** Read one byte late, the entry of the last child leads to the first one, a leaf. */
  lemma LateRead(mem: Mem, own: int, f: Foo)
    requires !f.A? && Readable(mem, own + 1, own, f)
    ensures f.f1.A? && Result(own + 1, own, f) == Value(f.f1.v)
    ensures f.B? ==> Allocated(mem, own + 1, 16) && LoadWord(mem, own + 1) == 0
    ensures f.C? ==> Allocated(mem, own + 17, 16) && LoadWord(mem, own + 17) == 0
  {
    hide LoadWord;
    TableAllocated(mem, own, f);
    ShiftedWord(mem, if f.B? then own else own + 16);
  }

  /** A word read one byte late. */
  lemma ShiftedWord(mem: Mem, a: int)
    requires Allocated(mem, a, 16)
    ensures LoadWord(mem, a + 1) == LateWord(LoadWord(mem, a), LoadWord(mem, a + 8))
  {
    hide WordOf, Pow256;
    var s, t, u := Slice(mem, a, 8), Slice(mem, a + 8, 8), Slice(mem, a + 1, 8);
    assert u == s[1..] + [t[0]];
    WordAppend(s[1..], t[0]);
    LowByte(s);
    LowByte(t);
    Pow256Of7();
  }

  lemma LowByte(s: seq<Byte>)
    requires s != []
    ensures WordOf(s) % 256 == s[0] && WordOf(s) / 256 == WordOf(s[1..])
  {
    var x, w := WordOf(s), WordOf(s[1..]);
    assert x == s[0] + 256 * w;
    hide WordOf;
    Bits.DivModUnique(x, 256, w, s[0]);
  }

  lemma Pow256Of7()
    ensures Pow256(7) == 0x100_0000_0000_0000
  {
  }

  lemma {:induction false} WordAppend(s: seq<Byte>, x: Byte)
    ensures WordOf(s + [x]) == WordOf(s) + x * Pow256(|s|)
  {
    if s == [] {
      assert s + [x] == [x];
      assert [x][1..] == [];
    } else {
      assert (s + [x])[1..] == s[1..] + [x];
      WordAppend(s[1..], x);
      TimesPow(x, Pow256(|s| - 1));
    }
  }

  lemma TimesPow(x: int, p: int)
    ensures x * (256 * p) == 256 * (x * p)
  {
  }

  /** Off its track rightmost never goes on at the last child: the offset read is not
      the one in the table (for data that fit in memory). */
  lemma MisreadOffset(mem: Mem, own: int, f: Foo)
    requires TableOk(mem, own, f) && Size(f) < POINTER_LIMIT
    ensures f.B? ==> LoadWord(mem, own + 1) == LateWord(Size(f.f1), TableSize(f.f1)) != Size(f.f1)
    ensures f.C? ==> var s := Size(f.f1) + Size(f.f2);
                     LoadWord(mem, own + 17) == LateWord(s, TableSize(f.f1) + TableSize(f.f2)) != s
  {
    hide LoadWord, LateWord;
    match f
    case A(_) =>
    case B(f1, _) =>
      ShiftedWord(mem, own);
      NotItself(Size(f1), TableSize(f1));
    case C(f1, f2, _) =>
      ShiftedWord(mem, own + 16);
      NotItself(Size(f1) + Size(f2), TableSize(f1) + TableSize(f2));
  }

  lemma NotItself(s: nat, t: nat)
    requires 0 < s < POINTER_LIMIT
    ensures LateWord(s, t) != s
  {
  }

  lemma Landing(footers: Footers, end: int, cur: int, n: nat, ends: seq<int>, i: nat) returns (j: nat)
    requires ChainOk(footers, ends) && i < |ends| && ends[i] == end && end in footers && InChunk(footers, ends, i, cur)
    requires HasData(footers, ends, i)
    ensures var r := SkipBytes(footers, end, cur, n, ends, i);
            && j < |ends| && ends[j] == r.0 && r.0 in footers && InChunk(footers, ends, j, r.1)
            && Logical(footers, ends, j, r.1) == Logical(footers, ends, i, cur) + n
  {
    j := Skips(footers, end, cur, n, ends, i);
  }

  /** The byte at a cursor: a redirection behind a chunk's data, the node's tag on it. */
  lemma CursorTag(mem: Mem, footers: Footers, ends: seq<int>, i: nat, cur: int, f: Foo)
    requires ChainOk(footers, ends) && i < |ends| && ends[i] in footers && InChunk(footers, ends, i, cur)
    requires Redirects(mem, footers, ends) && At(mem, footers, ends, Logical(footers, ends, i, cur), f)
    ensures cur in mem
    ensures OnData(footers, ends, i, cur) ==>
      && HasData(footers, ends, i)
      && mem[cur] == (match f case A(_) => 0 case B(_, _) => 1 case C(_, _, _) => 2)
      && (f.A? ==> Allocated(mem, cur + 1, 8) && LoadWord(mem, cur + 1) == f.v)
      && (!f.A? ==> InChunk(footers, ends, i, cur + 1) && Logical(footers, ends, i, cur + 1) == Logical(footers, ends, i, cur) + 1)
    ensures !OnData(footers, ends, i, cur) ==>
      && i + 1 < |ends| && Allocated(mem, cur + 1, 8) && Allocated(mem, cur + 9, 8) && mem[cur] == REDIRECTION_TAG
      && LoadWord(mem, cur + 9) == ends[i + 1] && ends[i + 1] in footers
      && LoadWord(mem, cur + 1) == Start(footers, ends[i + 1])
      && InChunk(footers, ends, i + 1, LoadWord(mem, cur + 1))
      && Logical(footers, ends, i + 1, LoadWord(mem, cur + 1)) == Logical(footers, ends, i, cur)
  {
    hide LoadWord;
    assert ChunkOk(footers, ends, i);
    assert OnData(footers, ends, i, cur) ==> IsAt(footers, ends, i, cur, Logical(footers, ends, i, cur));
    if !OnData(footers, ends, i, cur) {
      assert ChunkOk(footers, ends, i + 1) && RedirectsFrom(mem, footers, ends, i);
      assert Before(footers, ends, i + 1) == Before(footers, ends, i) + footers[ends[i]].dataSize;
    }
  }

  // The trees mkFoo builds. Their leaves are drawn at random, so only the shape is fixed.

  predicate Built(f: Foo, n: int)
    decreases f
  {
    match f
    case A(_) => n <= 0
    case B(f1, f2) => n == 1 && Built(f1, n - 1) && Built(f2, n - 2)
    case C(f1, f2, f3) => n > 1 && Built(f1, n - 1) && Built(f2, n - 2) && Built(f3, n - 3)
  }

  function Child(f: Foo, i: nat): Foo
    requires HasChild(f, i)
  {
    if i == 1 then f.f1 else if i == 2 then f.f2 else f.f3
  }

  predicate HasChild(f: Foo, i: nat) {
    !f.A? && 1 <= i <= (if f.B? then 2 else 3)
  }

  /** The node reached from f by the ith child for each i in p, if there is one. */
  function Reached(f: Foo, p: seq<nat>): seq<Foo>
    decreases |p|
  {
    if p == [] then [f] else if HasChild(f, p[0]) then Reached(Child(f, p[0]), p[1..]) else []
  }

  function Steps(p: seq<nat>): nat {
    if p == [] then 0 else p[0] + Steps(p[1..])
  }

  /** A node's place decides its kind: with m left of n, C above 1, B at 1, A below. */
  lemma {:induction false} BuiltAt(f: Foo, n: int, p: seq<nat>)
    requires Built(f, n) && Reached(f, p) != []
    ensures var g, m := Reached(f, p)[0], n - Steps(p); (g.C? <==> m > 1) && (g.B? <==> m == 1) && (g.A? <==> m <= 0)
    decreases |p|
  {
    if p != [] {
      BuiltAt(Child(f, p[0]), n - p[0], p[1..]);
    }
  }

  lemma {:induction false} MkHarmless(f: Foo, n: int)
    requires Built(f, n)
    ensures Harmless(f)
    decreases f
  {
    match f
    case A(_) =>
    case B(_, f2) => MkHarmless(f2, n - 2);
    case C(_, _, f3) => MkHarmless(f3, n - 3);
  }

  // The table mkFoo writes.

  function TableSpace(n: int): nat
    decreases if n < 0 then 0 else n
  {
    if n <= 0 then 0
    else if n == 1 then OFFSET_SIZE + TableSpace(n - 1) + TableSpace(n - 2)
    else 2 * OFFSET_SIZE + TableSpace(n - 1) + TableSpace(n - 2) + TableSpace(n - 3)
  }

  lemma {:induction false} BuiltTable(f: Foo, n: int)
    requires Built(f, n)
    ensures TableSize(f) == TableSpace(n)
    decreases f
  {
    match f
    case A(_) =>
    case B(f1, f2) =>
      BuiltTable(f1, n - 1);
      BuiltTable(f2, n - 2);
    case C(f1, f2, f3) =>
      BuiltTable(f1, n - 1);
      BuiltTable(f2, n - 2);
      BuiltTable(f3, n - 3);
  }

  /** Where the table fits in memory, so do the sizes in it. */
  lemma {:induction false} SizeBound(f: Foo)
    ensures Size(f) <= 2 * TableSize(f) + 9
  {
    match f
    case A(_) =>
    case B(f1, f2) =>
      SizeBound(f1);
      SizeBound(f2);
    case C(f1, f2, f3) =>
      SizeBound(f1);
      SizeBound(f2);
      SizeBound(f3);
  }

  lemma {:induction false} FrameTable(mem: Mem, mem': Mem, ran: int, f: Foo)
    requires TableOk(mem, ran, f) && Agree(mem, mem', ran, TableSize(f))
    ensures TableOk(mem', ran, f)
    decreases f, 1
  {
    hide Offsets, Agree;
    match f
    case A(_) =>
    case B(f1, f2) =>
      var t1, t2 := TableSize(f1), TableSize(f2);
      AgreePart(mem, mem', ran, TableSize(f), ran, 16);
      AgreePart(mem, mem', ran, TableSize(f), ran + 16, t1);
      AgreePart(mem, mem', ran, TableSize(f), ran + 16 + t1, t2);
      FrameOffsets(mem, mem', ran, Size(f1), t1);
      FrameTable(mem, mem', ran + 16, f1);
      FrameTable(mem, mem', ran + 16 + t1, f2);
    case C(_, _, _) => FrameC(mem, mem', ran, f);
  }

  lemma {:induction false} FrameC(mem: Mem, mem': Mem, ran: int, f: Foo)
    requires f.C? && TableOk(mem, ran, f) && Agree(mem, mem', ran, TableSize(f))
    ensures TableOk(mem', ran, f)
    decreases f, 0
  {
    hide Offsets, Agree;
    var f1, f2, f3 := f.f1, f.f2, f.f3;
    var t1, t2, t3 := TableSize(f1), TableSize(f2), TableSize(f3);
    AgreePart(mem, mem', ran, TableSize(f), ran, 16);
    AgreePart(mem, mem', ran, TableSize(f), ran + 16, 16);
    AgreePart(mem, mem', ran, TableSize(f), ran + 32, t1);
    AgreePart(mem, mem', ran, TableSize(f), ran + 32 + t1, t2);
    AgreePart(mem, mem', ran, TableSize(f), ran + 32 + t1 + t2, t3);
    FrameOffsets(mem, mem', ran, Size(f1), 16 + t1);
    FrameOffsets(mem, mem', ran + 16, Size(f1) + Size(f2), t1 + t2);
    FrameTable(mem, mem', ran + 32, f1);
    FrameTable(mem, mem', ran + 32 + t1, f2);
    FrameTable(mem, mem', ran + 32 + t1 + t2, f3);
  }

  lemma AgreePart(mem: Mem, mem': Mem, a: int, n: int, b: int, m: int)
    requires Agree(mem, mem', a, n) && a <= b && b + m <= a + n
    ensures Agree(mem, mem', b, m)
  {
  }

  lemma FrameOffsets(mem: Mem, mem': Mem, a: int, s: nat, t: nat)
    requires Offsets(mem, a, s, t) && Agree(mem, mem', a, 16)
    ensures Offsets(mem', a, s, t)
  {
    AgreeWord(mem, mem', a);
    AgreeWord(mem, mem', a + 8);
  }

  /** A table that is there is allocated. */
  lemma {:induction false} TableAllocated(mem: Mem, ran: int, f: Foo)
    requires TableOk(mem, ran, f)
    ensures Allocated(mem, ran, TableSize(f))
    decreases f
  {
    hide LoadWord;
    match f
    case A(_) =>
    case B(f1, f2) =>
      TableAllocated(mem, ran + 16, f1);
      TableAllocated(mem, ran + 16 + TableSize(f1), f2);
    case C(f1, f2, f3) =>
      TableAllocated(mem, ran + 32, f1);
      TableAllocated(mem, ran + 32 + TableSize(f1), f2);
      TableAllocated(mem, ran + 32 + TableSize(f1) + TableSize(f2), f3);
  }

  /** A table survives writes next to it. */
  lemma TableKept(mem: Mem, mem': Mem, lo: int, hi: int, ran: int, f: Foo)
    requires TableOk(mem, ran, f) && Same(mem, mem', lo, hi) && Clear(ran, TableSize(f), lo, hi)
    ensures TableOk(mem', ran, f)
  {
    hide TableOk, TableSize;
    TableAllocated(mem, ran, f);
    FrameTable(mem, mem', ran, f);
  }

  /** Writes one pair of offsets. */
  method WriteOffsets(mem: Mem, a: int, s: Word, t: Word) returns (mem': Mem)
    requires Allocated(mem, a, 16)
    ensures mem'.Keys == mem.Keys && Same(mem, mem', a, a + 16) && Offsets(mem', a, s, t)
  {
    var mem1 := StoreWord(mem, a, s);
    mem' := StoreWord(mem1, a + 8, t);
    FrameWord(mem1, mem', a + 8, a + 16, a);
  }

  /** mkFoo, of which only the table is written here: the offsets of its children are
      filled in behind them. The tree f is the one whose leaves have been drawn. */
  method MkFoo(mem: Mem, ran: int, n: int) returns (mem': Mem, ran': int, size: nat, ghost f: Foo)
    requires 0 <= ran && ran + TableSpace(n) <= POINTER_LIMIT && Allocated(mem, ran, TableSpace(n))
    ensures mem'.Keys == mem.Keys && Same(mem, mem', ran, ran + TableSpace(n))
    ensures Built(f, n) && size == Size(f) && ran' == ran + TableSpace(n)
    ensures TableOk(mem', ran, f) && Harmless(f) && Result(ran, ran, f) == Value(RightmostSpec(f))
    ensures Readable(mem', ran, ran, f)
    decreases if n < 0 then 0 else n, 1
  {
    hide TableOk, Readable, Result, Harmless, Same, Offsets, TableSpace, RightmostSpec, Built, Size, TableSize;
    SpaceCases(n);
    if n <= 0 {
      var drawn: int := *;
      mem', ran', size, f := mem, ran, 9, A(drawn % 20);
      LeafTable(mem, ran, n, drawn % 20);
    } else if n == 1 {
      var mem1, ran1, size1, f1 := MkFoo(mem, ran + OFFSET_SIZE, n - 1);
      var mem2, ran2, size2, f2 := MkFoo(mem1, ran1, n - 2);
      SizeFits(f1, n - 1, ran1);
      mem' := WriteOffsets(mem2, ran, size1, ran1 - (ran + 8) - 8);
      ran', size, f := ran2, size2 + size1 + 1, B(f1, f2);
      BTable(mem, mem1, mem2, mem', ran, n, f1, f2);
    } else {
      mem', ran', size, f := MkC(mem, ran, n);
    }
    Made(mem', ran, f, n);
  }

  /** The case of a C node. */
  method MkC(mem: Mem, ran: int, n: int) returns (mem': Mem, ran': int, size: nat, ghost f: Foo)
    requires n > 1 && 0 <= ran && ran + TableSpace(n) <= POINTER_LIMIT && Allocated(mem, ran, TableSpace(n))
    ensures mem'.Keys == mem.Keys && Same(mem, mem', ran, ran + TableSpace(n))
    ensures Built(f, n) && size == Size(f) && ran' == ran + TableSpace(n) && TableOk(mem', ran, f)
    decreases n, 0
  {
    hide TableOk, Readable, Result, Harmless, Same, Offsets, TableSpace, RightmostSpec, Built, Size, TableSize;
    SpaceCases(n);
    var mem1, ran1, size1, f1 := MkFoo(mem, ran + OFFSET_SIZE + OFFSET_SIZE, n - 1);
    var mem2, ran2, size2, f2 := MkFoo(mem1, ran1, n - 2);
    var mem3, ran3, size3, f3 := MkFoo(mem2, ran2, n - 3);
    SizeFits(f1, n - 1, ran1);
    SizeFits(f2, n - 2, ran2);
    var mem4 := WriteOffsets(mem3, ran, size1, ran1 - (ran + 8) - 8);
    mem' := WriteOffsets(mem4, ran + 16, size1 + size2, ran2 - (ran + 24) - 8);
    ran', size, f := ran3, 1 + size1 + size2 + size3, C(f1, f2, f3);
    BothOffsets(mem3, mem4, mem', ran, size1, ran1 - (ran + 16));
    CTable(mem, mem1, mem2, mem3, mem', ran, n, f1, f2, f3);
  }

  lemma SpaceCases(n: int)
    ensures n <= 0 ==> TableSpace(n) == 0
    ensures n == 1 ==> TableSpace(n) == OFFSET_SIZE + TableSpace(n - 1) + TableSpace(n - 2)
    ensures n > 1 ==> TableSpace(n) == 2 * OFFSET_SIZE + TableSpace(n - 1) + TableSpace(n - 2) + TableSpace(n - 3)
  {
  }

  lemma BothOffsets(mem: Mem, mem1: Mem, mem2: Mem, a: int, s: nat, t: nat)
    requires Same(mem, mem1, a, a + 16) && Offsets(mem1, a, s, t) && Same(mem1, mem2, a + 16, a + 32)
    ensures Same(mem, mem2, a, a + 32) && Offsets(mem2, a, s, t)
  {
    FrameOffsets(mem1, mem2, a, s, t);
  }

  lemma LeafTable(mem: Mem, ran: int, n: int, v: Word)
    requires n <= 0
    ensures TableOk(mem, ran, A(v)) && Same(mem, mem, ran, ran) && Built(A(v), n) && Size(A(v)) == 9
  {
  }

  lemma SizeFits(f: Foo, n: int, ran: int)
    requires Built(f, n) && TableSpace(n) <= ran <= POINTER_LIMIT
    ensures Size(f) <= 2 * POINTER_LIMIT + 9 && TableSize(f) == TableSpace(n)
  {
    BuiltTable(f, n);
    SizeBound(f);
  }

  lemma BTable(mem: Mem, mem1: Mem, mem2: Mem, mem3: Mem, ran: int, n: int, f1: Foo, f2: Foo)
    requires n == 1 && Built(f1, n - 1) && Built(f2, n - 2)
    requires var t1, t2 := TableSpace(n - 1), TableSpace(n - 2);
             && Same(mem, mem1, ran + 16, ran + 16 + t1) && TableOk(mem1, ran + 16, f1)
             && Same(mem1, mem2, ran + 16 + t1, ran + 16 + t1 + t2) && TableOk(mem2, ran + 16 + t1, f2)
             && Same(mem2, mem3, ran, ran + 16) && Offsets(mem3, ran, Size(f1), t1)
    ensures TableOk(mem3, ran, B(f1, f2)) && Same(mem, mem3, ran, ran + TableSpace(n))
    ensures Built(B(f1, f2), n) && Size(B(f1, f2)) == 1 + Size(f1) + Size(f2)
  {
    hide Offsets, Same, TableSpace;
    SpaceCases(n);
    BuiltTable(f1, n - 1);
    BuiltTable(f2, n - 2);
    var a, c := ran + 16 + TableSpace(n - 1), ran + TableSpace(n);
    TableKept(mem1, mem2, a, c, ran + 16, f1);
    TableKept(mem2, mem3, ran, ran + 16, ran + 16, f1);
    TableKept(mem2, mem3, ran, ran + 16, a, f2);
    SameWider(mem, mem1, ran + 16, a, ran, c);
    SameStep(mem, mem1, mem2, ran, c, a, c);
    SameStep(mem, mem2, mem3, ran, c, ran, ran + 16);
  }

  lemma CTable(mem: Mem, mem1: Mem, mem2: Mem, mem3: Mem, mem4: Mem, ran: int, n: int, f1: Foo, f2: Foo, f3: Foo)
    requires n > 1 && Built(f1, n - 1) && Built(f2, n - 2) && Built(f3, n - 3)
    requires var t1, t2, t3 := TableSpace(n - 1), TableSpace(n - 2), TableSpace(n - 3);
             && Same(mem, mem1, ran + 32, ran + 32 + t1) && TableOk(mem1, ran + 32, f1)
             && Same(mem1, mem2, ran + 32 + t1, ran + 32 + t1 + t2) && TableOk(mem2, ran + 32 + t1, f2)
             && Same(mem2, mem3, ran + 32 + t1 + t2, ran + 32 + t1 + t2 + t3) && TableOk(mem3, ran + 32 + t1 + t2, f3)
             && Same(mem3, mem4, ran, ran + 32) && Offsets(mem4, ran, Size(f1), 16 + t1)
             && Offsets(mem4, ran + 16, Size(f1) + Size(f2), t1 + t2)
    ensures TableOk(mem4, ran, C(f1, f2, f3)) && Same(mem, mem4, ran, ran + TableSpace(n))
    ensures Built(C(f1, f2, f3), n) && Size(C(f1, f2, f3)) == 1 + Size(f1) + Size(f2) + Size(f3)
  {
    hide Offsets, Same, TableSpace, TableOk;
    SpaceCases(n);
    BuiltTable(f1, n - 1);
    BuiltTable(f2, n - 2);
    BuiltTable(f3, n - 3);
    var a := ran + 32 + TableSpace(n - 1);
    var b, c := a + TableSpace(n - 2), ran + TableSpace(n);
    TableKept(mem1, mem2, a, b, ran + 32, f1);
    TableKept(mem2, mem3, b, c, ran + 32, f1);
    TableKept(mem2, mem3, b, c, a, f2);
    TableKept(mem3, mem4, ran, ran + 32, ran + 32, f1);
    TableKept(mem3, mem4, ran, ran + 32, a, f2);
    TableKept(mem3, mem4, ran, ran + 32, b, f3);
    CParts(mem4, ran, f1, f2, f3);
    CSame(mem, mem1, mem2, mem3, mem4, ran, a, b, c);
  }

  lemma CParts(mem: Mem, ran: int, f1: Foo, f2: Foo, f3: Foo)
    requires Offsets(mem, ran, Size(f1), 16 + TableSize(f1))
    requires Offsets(mem, ran + 16, Size(f1) + Size(f2), TableSize(f1) + TableSize(f2))
    requires TableOk(mem, ran + 32, f1) && TableOk(mem, ran + 32 + TableSize(f1), f2)
    requires TableOk(mem, ran + 32 + TableSize(f1) + TableSize(f2), f3)
    ensures TableOk(mem, ran, C(f1, f2, f3))
  {
    hide Offsets;
  }

  lemma CSame(mem: Mem, mem1: Mem, mem2: Mem, mem3: Mem, mem4: Mem, ran: int, a: int, b: int, c: int)
    requires Same(mem, mem1, ran + 32, a) && Same(mem1, mem2, a, b) && Same(mem2, mem3, b, c) && Same(mem3, mem4, ran, ran + 32)
    requires ran + 32 <= a <= b <= c
    ensures Same(mem, mem4, ran, c)
  {
    hide Same;
    SameWider(mem, mem1, ran + 32, a, ran, c);
    SameStep(mem, mem1, mem2, ran, c, a, b);
    SameStep(mem, mem2, mem3, ran, c, b, c);
    SameStep(mem, mem3, mem4, ran, c, ran, ran + 32);
  }

  /** Its own trees are harmless, so rightmost may go to work on the table. */
  lemma Made(mem: Mem, ran: int, f: Foo, n: int)
    requires Built(f, n) && TableOk(mem, ran, f)
    ensures Harmless(f) && Result(ran, ran, f) == Value(RightmostSpec(f))
    ensures Readable(mem, ran, ran, f)
  {
    hide LoadWord, TableOk;
    MkHarmless(f, n);
    HarmlessReads(f);
    BuiltTable(f, n);
  }
}

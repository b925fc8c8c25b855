/** How writers of packed Foo trees compose. A writer owns a window: the rest of its
    chunk, footer included, and the rest of the random-access area. */
module FooWriters {
  import opened Bits
  import opened Memory
  import opened FooTrees
  import opened PackedFoo
  import Trees

  /** Data goes to out, the chunk's footer is at end; slots go to ran, up to ranEnd. */
  datatype Window = Window(out: int, end: int, ran: int, ranEnd: int)

  function Span(w: Window): set<int> {
    Range(w.out, w.end + REGION_FOOTER_SIZE) + Range(w.ran, w.ranEnd)
  }

  function FooterWord(mem: Mem, end: int, offset: int): Word
    requires Allocated(mem, end, REGION_FOOTER_SIZE) && 0 <= offset <= 40
  {
    LoadWord(mem, end + offset)
  }

  const SEQ_NO := 0
  const SIZE := 8
  const REFCOUNT_PTR := 16
  const OUTSET_PTR := 24
  const NEXT := 32
  const PREV := 40

  /** Enough room for a redirection, in memory the writer may use. */
  ghost predicate Room(mem: Mem, w: Window) {
    && 0 <= w.out && w.out + MIN_ROOM <= w.end && w.end + REGION_FOOTER_SIZE <= POINTER_LIMIT
    && 0 <= w.ran <= w.ranEnd <= POINTER_LIMIT
    && Allocated(mem, w.out, w.end + REGION_FOOTER_SIZE - w.out)
    && Allocated(mem, w.ran, w.ranEnd - w.ran)
    && Range(w.out, w.end + REGION_FOOTER_SIZE) !! Range(w.ran, w.ranEnd)
    && 16 <= FooterWord(mem, w.end, SIZE) <= POINTER_LIMIT
  }

  /** A writer with window w has used the addresses bs and goes on with window w'. */
  ghost predicate Piece(mem: Mem, mem': Mem, w: Window, w': Window, bs: set<int>) {
    && Changed(mem, mem', Span(w))
    && Within(mem, Span(w), Span(w')) && Within(mem, Span(w), bs)
    && bs !! Span(w') && (forall x :: x in bs ==> x in mem')
    && Room(mem', w') && w'.ranEnd == w.ranEnd
  }

  // The chunks of a region.

  /** Where the pointers crossed while reading a value lead to. */
  function Jumps(c: Cells): seq<Word> {
    match c
    case ACell(_) => []
    case BCell(_, f1, f2) => Jumps(f1) + Jumps(f2)
    case CTmp(_, _, f1, f2, f3) => Jumps(f1) + Jumps(f2) + Jumps(f3)
    case CBig(_, _, f1, f2, f3) => Jumps(f1) + Jumps(f2) + Jumps(f3)
    case Jump(_, to, rest) => [to] + Jumps(rest)
  }

  const MAX_CHUNK_SIZE := 1000 * 1000 * 1000

  function NextChunkSize(size: nat): nat {
    if size * 2 > MAX_CHUNK_SIZE then MAX_CHUNK_SIZE else size * 2
  }

  /** The footer e follows the one at `end`: linked both ways, next in number, of the same
      region. Its chunk starts at `to` and has the size that follows. */
  ghost predicate Follows(mem: Mem, end: int, e: int, to: int) {
    && Allocated(mem, end, REGION_FOOTER_SIZE) && Allocated(mem, e, REGION_FOOTER_SIZE)
    && FooterWord(mem, end, NEXT) == e && FooterWord(mem, e, PREV) == end
    && FooterWord(mem, e, SEQ_NO) == Trees.Wrap(FooterWord(mem, end, SEQ_NO) + 1)
    && FooterWord(mem, e, REFCOUNT_PTR) == FooterWord(mem, end, REFCOUNT_PTR)
    && FooterWord(mem, e, OUTSET_PTR) == FooterWord(mem, end, OUTSET_PTR)
    && 0 < to && e - to == FooterWord(mem, e, SIZE) == NextChunkSize(FooterWord(mem, end, SIZE))
  }

  ghost predicate Absent(mem: Mem, e: int) {
    Fresh(mem, e, e + REGION_FOOTER_SIZE)
  }

  /** Following the footers from `end` meets the chunks that start at tos, in this order,
      up to `last`. All of them are new since mem0, and all but the last lie outside s. */
  ghost predicate Links(mem0: Mem, mem: Mem, end: int, tos: seq<Word>, last: int, s: set<int>)
    decreases |tos|
  {
    if tos == [] then end == last
    else
      && Allocated(mem, end, REGION_FOOTER_SIZE) && Range(end, end + REGION_FOOTER_SIZE) !! s
      && var e: int := FooterWord(mem, end, NEXT);
      Follows(mem, end, e, tos[0]) && Absent(mem0, e) && Links(mem0, mem, e, tos[1..], last, s)
  }

  /** A footer keeps everything but its link to the next. */
  ghost predicate Stays(mem: Mem, mem': Mem, end: int) {
    && Allocated(mem, end, REGION_FOOTER_SIZE) && Allocated(mem', end, REGION_FOOTER_SIZE)
    && FooterWord(mem', end, SEQ_NO) == FooterWord(mem, end, SEQ_NO)
    && FooterWord(mem', end, SIZE) == FooterWord(mem, end, SIZE)
    && FooterWord(mem', end, REFCOUNT_PTR) == FooterWord(mem, end, REFCOUNT_PTR)
    && FooterWord(mem', end, OUTSET_PTR) == FooterWord(mem, end, OUTSET_PTR)
    && FooterWord(mem', end, PREV) == FooterWord(mem, end, PREV)
  }

  /** Without a new chunk the link to the next one stays too; the last new chunk has none. */
  ghost predicate Last(mem: Mem, mem': Mem, tos: seq<Word>, last: int) {
    && Allocated(mem', last, REGION_FOOTER_SIZE)
    && if tos == [] then Allocated(mem, last, REGION_FOOTER_SIZE) && FooterWord(mem', last, NEXT) == FooterWord(mem, last, NEXT)
       else FooterWord(mem', last, NEXT) == 0
  }

  /** The writer has gone through the chunks that start at tos. */
  ghost predicate Chained(mem: Mem, mem': Mem, w: Window, w': Window, tos: seq<Word>) {
    && Links(mem, mem', w.end, tos, w'.end, Span(w')) && Stays(mem, mem', w.end)
    && Last(mem, mem', tos, w'.end)
  }

  /** The footer i links further on. */
  ghost function Nth(mem: Mem, end: int, i: nat): int
    decreases i
  {
    if i == 0 || !Allocated(mem, end, REGION_FOOTER_SIZE) then end else Nth(mem, FooterWord(mem, end, NEXT), i - 1)
  }

  lemma {:induction false} LinksFrom(mem0: Mem, mem: Mem, end: int, tos: seq<Word>, last: int, s: set<int>, i: nat)
    requires Links(mem0, mem, end, tos, last, s) && i <= |tos|
    ensures Links(mem0, mem, Nth(mem, end, i), tos[i..], last, s)
    decreases i
  {
    hide Follows, FooterWord, Range;
    if i > 0 {
      LinksFrom(mem0, mem, FooterWord(mem, end, NEXT), tos[1..], last, s, i - 1);
      assert tos[1..][i - 1..] == tos[i..];
    }
  }

  lemma {:induction false} LinksLength(mem0: Mem, mem: Mem, end: int, tos: seq<Word>, tos': seq<Word>, last: int, s: set<int>)
    requires Links(mem0, mem, end, tos, last, s) && Links(mem0, mem, end, tos', last, s)
    requires Allocated(mem, last, REGION_FOOTER_SIZE) && FooterWord(mem, last, NEXT) == 0
    ensures |tos| == |tos'|
    decreases |tos|
  {
    hide LoadWord, Range;
    if tos != [] && tos' != [] {
      LinksLength(mem0, mem, FooterWord(mem, end, NEXT), tos[1..], tos'[1..], last, s);
    }
  }

  /** A writer's footers are all different: following the links never comes back. */
  lemma LinksAcyclic(mem: Mem, mem': Mem, w: Window, w': Window, tos: seq<Word>, i: nat, j: nat)
    requires Chained(mem, mem', w, w', tos) && i < j <= |tos|
    ensures Nth(mem', w.end, i) != Nth(mem', w.end, j) && Nth(mem', w.end, |tos|) == w'.end
  {
    hide LoadWord, Range, Follows, Span;
    var s := Span(w');
    LinksFrom(mem, mem', w.end, tos, w'.end, s, i);
    LinksFrom(mem, mem', w.end, tos, w'.end, s, j);
    LinksFrom(mem, mem', w.end, tos, w'.end, s, |tos|);
    if Nth(mem', w.end, i) == Nth(mem', w.end, j) {
      LinksLength(mem, mem', Nth(mem', w.end, i), tos[i..], tos[j..], w'.end, s);
    }
  }

  /** Sizes along a chain that starts with at most 10^9 bytes: they double up to that, */
  lemma {:induction false} LinkSizes(mem0: Mem, mem: Mem, end: int, tos: seq<Word>, last: int, s: set<int>, i: nat)
    requires Links(mem0, mem, end, tos, last, s) && i <= |tos|
    requires Allocated(mem, end, REGION_FOOTER_SIZE) && FooterWord(mem, end, SIZE) <= 1_000_000_000
    ensures Allocated(mem, Nth(mem, end, i), REGION_FOOTER_SIZE)
    ensures var doubled := FooterWord(mem, end, SIZE) * Pow2(i);
            FooterWord(mem, Nth(mem, end, i), SIZE) == if doubled <= 1_000_000_000 then doubled else 1_000_000_000
    decreases i
  {
    hide LoadWord, Range;
    if i > 0 {
      var e: int, size: nat, p := FooterWord(mem, end, NEXT), FooterWord(mem, end, SIZE), Pow2(i - 1);
      assert FooterWord(mem, e, SIZE) == if size * 2 > 1_000_000_000 then 1_000_000_000 else size * 2;
      LinkSizes(mem0, mem, e, tos[1..], last, s, i - 1);
      DoubleOnce(size, p);
    }
  }

  lemma DoubleOnce(size: nat, p: nat)
    requires p > 0
    ensures size * (2 * p) == size * 2 * p && size * 2 <= size * (2 * p) && 1_000_000_000 <= 1_000_000_000 * p
  {
  }

  /** hence they never shrink and never exceed it. */
  lemma SizesGrow(mem0: Mem, mem: Mem, end: int, tos: seq<Word>, last: int, s: set<int>, i: nat)
    requires Links(mem0, mem, end, tos, last, s) && i < |tos|
    requires Allocated(mem, end, REGION_FOOTER_SIZE) && FooterWord(mem, end, SIZE) <= 1_000_000_000
    ensures Allocated(mem, Nth(mem, end, i), REGION_FOOTER_SIZE) && Allocated(mem, Nth(mem, end, i + 1), REGION_FOOTER_SIZE)
    ensures FooterWord(mem, Nth(mem, end, i), SIZE) <= FooterWord(mem, Nth(mem, end, i + 1), SIZE) <= 1_000_000_000
  {
    hide LoadWord, Links, Range;
    LinkSizes(mem0, mem, end, tos, last, s, i);
    LinkSizes(mem0, mem, end, tos, last, s, i + 1);
    assert Pow2(i + 1) == 2 * Pow2(i);
    hide Nth, Pow2;
    DoubleOnce(FooterWord(mem, end, SIZE), Pow2(i));
  }

  lemma FooterOutside(mem: Mem, mem': Mem, s: set<int>, end: int)
    requires Changed(mem, mem', s) && Allocated(mem, end, REGION_FOOTER_SIZE) && Range(end, end + REGION_FOOTER_SIZE) !! s
    ensures Stays(mem, mem', end) && FooterWord(mem', end, NEXT) == FooterWord(mem, end, NEXT)
  {
    hide LoadWord;
    FieldOutside(mem, mem', s, end, SEQ_NO);
    FieldOutside(mem, mem', s, end, SIZE);
    FieldOutside(mem, mem', s, end, REFCOUNT_PTR);
    FieldOutside(mem, mem', s, end, OUTSET_PTR);
    FieldOutside(mem, mem', s, end, NEXT);
    FieldOutside(mem, mem', s, end, PREV);
  }

  lemma FieldOutside(mem: Mem, mem': Mem, s: set<int>, end: int, d: int)
    requires Changed(mem, mem', s) && Allocated(mem, end, REGION_FOOTER_SIZE) && Range(end, end + REGION_FOOTER_SIZE) !! s
    requires 0 <= d <= 40
    ensures Allocated(mem', end, REGION_FOOTER_SIZE) && FooterWord(mem', end, d) == FooterWord(mem, end, d)
  {
    hide LoadWord;
    assert Range(end + d, end + d + 8) <= Range(end, end + REGION_FOOTER_SIZE);
    FrameWordIn(mem, mem', s, end + d);
  }

  /** A later writer leaves the links alone, except that it continues them. */
  lemma {:induction false} LinksKept(mem0: Mem, mem1: Mem, mem2: Mem, end: int, tos: seq<Word>, last: int, s: set<int>, s': set<int>)
    requires Links(mem0, mem1, end, tos, last, s) && Changed(mem1, mem2, s) && Within(mem1, s, s')
    requires Stays(mem1, mem2, last)
    ensures Links(mem0, mem2, end, tos, last, s') && Stays(mem1, mem2, end)
    ensures FootersFrom(mem2, end, |tos|) == FootersFrom(mem1, end, |tos|)
    decreases |tos|
  {
    hide LoadWord, Range, FooterWord, Changed, Within;
    if tos != [] {
      FooterOutside(mem1, mem2, s, end);
      StillOutside(mem1, end, s, s');
      LinksKept(mem0, mem1, mem2, FooterWord(mem1, end, NEXT), tos[1..], last, s, s');
    }
  }

  lemma StillOutside(mem: Mem, end: int, s: set<int>, s': set<int>)
    requires Allocated(mem, end, REGION_FOOTER_SIZE) && Range(end, end + REGION_FOOTER_SIZE) !! s && Within(mem, s, s')
    ensures Range(end, end + REGION_FOOTER_SIZE) !! s'
  {
    forall x | x in Range(end, end + REGION_FOOTER_SIZE)
      ensures x !in s'
    {
      assert x in mem;
    }
  }

  lemma {:induction false} LinksJoined(mem0: Mem, mem1: Mem, mem: Mem, end: int, tos: seq<Word>, mid: int, tos': seq<Word>,
                                       last: int, s: set<int>)
    requires Links(mem0, mem, end, tos, mid, s) && Links(mem1, mem, mid, tos', last, s)
    requires forall x :: x in mem0 ==> x in mem1
    ensures Links(mem0, mem, end, tos + tos', last, s)
    decreases |tos| + |tos'|
  {
    hide Follows, FooterWord;
    if tos != [] {
      assert (tos + tos')[1..] == tos[1..] + tos';
      LinksJoined(mem0, mem1, mem, FooterWord(mem, end, NEXT), tos[1..], mid, tos', last, s);
    } else if tos' != [] {
      assert tos + tos' == tos' && [] + tos'[1..] == tos'[1..];
      var e := FooterWord(mem, mid, NEXT);
      LinksJoined(mem0, mem1, mem, e, [], e, tos'[1..], last, s);
    }
  }

  /** What exists already is none of the new footers. */
  lemma {:induction false} LinksMore(mem0: Mem, mem: Mem, end: int, tos: seq<Word>, last: int, s: set<int>, t: set<int>)
    requires Links(mem0, mem, end, tos, last, s) && Range(end, end + REGION_FOOTER_SIZE) !! t && forall x :: x in t ==> x in mem0
    ensures Links(mem0, mem, end, tos, last, s + t)
    decreases |tos|
  {
    hide Follows, FooterWord, Range;
    if tos != [] {
      var e: int := FooterWord(mem, end, NEXT);
      assert Range(e, e + REGION_FOOTER_SIZE) !! t;
      LinksMore(mem0, mem, e, tos[1..], last, s, t);
    }
  }

  // Where the redirections lie.

  /** The footers met by following n links. */
  ghost function FootersFrom(mem: Mem, end: int, n: nat): seq<int>
    decreases n
  {
    if n == 0 || !Allocated(mem, end, REGION_FOOTER_SIZE) then []
    else [FooterWord(mem, end, NEXT)] + FootersFrom(mem, FooterWord(mem, end, NEXT), n - 1)
  }

  function LastOf(end: int, es: seq<int>): int {
    if es == [] then end else es[|es| - 1]
  }

  /** A redirection lies at a node's cursor if and only if less than 31 bytes were left
      there; es are the footers of the chunks the redirections lead to. */
  predicate Paced(out: int, end: int, c: Cells, es: seq<int>)
    decreases c, 1
  {
    && |es| == |Jumps(c)| && (c.Jump? <==> out + 31 > end)
    && match c
       case ACell(_) => true
       case BCell(_, f1, f2) =>
         var es1, es2 := es[..|Jumps(f1)|], es[|Jumps(f1)|..];
         Paced(out + 9, end, f1, es1) && Paced(EndOf(out + 9, f1), LastOf(end, es1), f2, es2)
       case CTmp(_, _, f1, f2, f3) => PacedThree(out + 17, end, c, f1, f2, f3, es)
       case CBig(_, _, f1, f2, f3) => PacedThree(out + 17, end, c, f1, f2, f3, es)
       case Jump(_, to, rest) => Paced(to, es[0], rest, es[1..])
  }

  /** The same for the children f1, f2 and f3 of c. */
  predicate PacedThree(out: int, end: int, c: Cells, f1: Cells, f2: Cells, f3: Cells, es: seq<int>)
    requires |es| == |Jumps(f1)| + |Jumps(f2)| + |Jumps(f3)| && f1 < c && f2 < c && f3 < c
    decreases c, 0
  {
    var k1, k2 := |Jumps(f1)|, |Jumps(f1)| + |Jumps(f2)|;
    var e1, e2 := EndOf(out, f1), EndOf(EndOf(out, f1), f2);
    && Paced(out, end, f1, es[..k1]) && Paced(e1, LastOf(end, es[..k1]), f2, es[k1..k2])
    && Paced(e2, LastOf(end, es[..k2]), f3, es[k2..])
  }

  /** The links from `end` on to `last`, and what a later writer leaves of them. */
  lemma {:induction false} LinksFooters(mem0: Mem, mem: Mem, end: int, tos: seq<Word>, last: int, s: set<int>, n: nat)
    requires Links(mem0, mem, end, tos, last, s)
    ensures var es := FootersFrom(mem, end, |tos|);
            && |es| == |tos| && LastOf(end, es) == last && FootersFrom(mem, end, |tos| + n) == es + FootersFrom(mem, last, n)
    decreases |tos|
  {
    hide Follows, FooterWord, Range, FootersFrom, LastOf;
    if tos == [] {
      FootersNone(mem, end);
      assert [] + FootersFrom(mem, last, n) == FootersFrom(mem, last, n);
      NoneLast(end);
    } else {
      var e: int := FooterWord(mem, end, NEXT);
      LinksFooters(mem0, mem, e, tos[1..], last, s, n);
      FootersStep(mem, end, |tos|);
      FootersStep(mem, end, |tos| + n);
      InFront(end, e, FootersFrom(mem, e, |tos| - 1), FootersFrom(mem, last, n));
    }
  }

  lemma InFront(end: int, e: int, rest: seq<int>, more: seq<int>)
    ensures [e] + (rest + more) == [e] + rest + more && LastOf(end, [e] + rest) == LastOf(e, rest)
  {
  }

  lemma FootersNone(mem: Mem, end: int)
    ensures FootersFrom(mem, end, 0) == []
  {
  }

  lemma NoneLast(end: int)
    ensures LastOf(end, []) == end
  {
  }

  lemma FootersStep(mem: Mem, end: int, n: nat)
    requires Allocated(mem, end, REGION_FOOTER_SIZE) && n > 0
    ensures var e: int := FooterWord(mem, end, NEXT); FootersFrom(mem, end, n) == [e] + FootersFrom(mem, e, n - 1)
  {
  }

  /** The writer has written the value c at its cursor. */
  ghost predicate Written(mem: Mem, mem': Mem, w: Window, w': Window, c: Cells) {
    && At(mem', w.out, c) && EndOf(w.out, c) == w'.out
    && Piece(mem, mem', w, w', Bytes(w.out, c)) && Chained(mem, mem', w, w', Jumps(c))
    && Paced(w.out, w.end, c, FootersFrom(mem', w.end, |Jumps(c)|))
  }

  /** A step within the chunk. */
  lemma ChainedHere(mem: Mem, mem': Mem, w: Window, w': Window, s: set<int>)
    requires Room(mem, w) && Changed(mem, mem', s) && Range(w.end, w.end + REGION_FOOTER_SIZE) !! s && w'.end == w.end
    ensures Chained(mem, mem', w, w', [])
  {
    hide LoadWord, Range;
    FooterOutside(mem, mem', s, w.end);
  }

  lemma HeaderChained(mem: Mem, mem': Mem, w: Window, w': Window, size: int)
    requires Room(mem, w) && 0 <= size && w' == w.(out := w.out + size) && w'.out + MIN_ROOM <= w.end
    requires Changed(mem, mem', Range(w.out, w.out + size))
    ensures Chained(mem, mem', w, w', [])
  {
    hide LoadWord;
    ChainedHere(mem, mem', w, w', Range(w.out, w.out + size));
  }

  lemma ChainedThen(mem0: Mem, mem1: Mem, mem2: Mem, w0: Window, w1: Window, w2: Window, bs: set<int>,
                    tos: seq<Word>, tos': seq<Word>)
    requires Chained(mem0, mem1, w0, w1, tos) && Chained(mem1, mem2, w1, w2, tos')
    requires Piece(mem1, mem2, w1, w2, bs) && forall x :: x in mem0 ==> x in mem1
    ensures Chained(mem0, mem2, w0, w2, tos + tos')
    ensures var es := FootersFrom(mem1, w0.end, |tos|);
            && |es| == |tos| && LastOf(w0.end, es) == w1.end
            && FootersFrom(mem2, w0.end, |tos + tos'|) == es + FootersFrom(mem2, w1.end, |tos'|)
  {
    hide FootersFrom;
    hide Span, Range, Room, FooterWord, LoadWord, Links, Last;
    LinksKept(mem0, mem1, mem2, w0.end, tos, w1.end, Span(w1), Span(w2));
    LinksFooters(mem0, mem2, w0.end, tos, w1.end, Span(w2), |tos'|);
    LinksJoined(mem0, mem1, mem2, w0.end, tos, w1.end, tos', w2.end, Span(w2));
    StaysTwice(mem0, mem1, mem2, w0.end);
    LastThen(mem0, mem1, mem2, w1.end, tos, w2.end, tos', Span(w2));
  }

  lemma LastThen(mem0: Mem, mem1: Mem, mem2: Mem, end1: int, tos: seq<Word>, end2: int, tos': seq<Word>, s: set<int>)
    requires Last(mem0, mem1, tos, end1) && Last(mem1, mem2, tos', end2) && Links(mem1, mem2, end1, tos', end2, s)
    ensures Last(mem0, mem2, tos + tos', end2)
  {
    hide LoadWord, Follows;
    if tos' == [] {
      assert tos + tos' == tos;
    }
  }

  lemma StaysTwice(mem0: Mem, mem1: Mem, mem2: Mem, end: int)
    requires Stays(mem0, mem1, end) && Stays(mem1, mem2, end)
    ensures Stays(mem0, mem2, end)
  {
    hide LoadWord;
  }

  lemma PieceExtends(mem: Mem, mem': Mem, w: Window, w': Window, bs: set<int>)
    requires Piece(mem, mem', w, w', bs)
    ensures forall x :: x in mem ==> x in mem'
  {
    hide Span, Room, Within;
  }

  /** What lies before a writer's window stays apart from what it writes. */
  lemma PieceApart(mem: Mem, mem': Mem, w: Window, w': Window, bs: set<int>, before: set<int>)
    requires Piece(mem, mem', w, w', bs) && before !! Span(w) && forall x :: x in before ==> x in mem
    ensures before !! bs && before !! Span(w')
  {
    hide Span, Range;
    forall x | x in before
      ensures x !in bs && x !in Span(w')
    {
      assert x in mem;
    }
  }

  lemma WithinStep(mem: Mem, mem': Mem, w: Window, w': Window, s: set<int>, bs: set<int>)
    requires Piece(mem, mem', w, w', bs) && Within(mem', Span(w'), s)
    ensures Within(mem, Span(w), s)
  {
    hide Span, Range, Room;
    forall x | x in s && x in mem
      ensures x in Span(w)
    {
      assert x in mem' && x in Span(w');
    }
  }

  lemma PieceThen(mem0: Mem, mem1: Mem, mem2: Mem, w0: Window, w1: Window, w2: Window, b1: set<int>, b2: set<int>)
    requires Piece(mem0, mem1, w0, w1, b1) && Piece(mem1, mem2, w1, w2, b2)
    ensures Piece(mem0, mem2, w0, w2, b1 + b2)
  {
    hide Span, Range, Room;
    ChangedStep(mem0, mem1, mem2, Span(w0), Span(w1));
    PieceApart(mem1, mem2, w1, w2, b2, b1);
    WithinStep(mem0, mem1, w0, w1, Span(w2), b1);
    WithinStep(mem0, mem1, w0, w1, b2, b1);
  }

  /** Writing behind a value leaves it alone. */
  lemma PieceKeeps(mem: Mem, mem': Mem, w: Window, w': Window, bs: set<int>, a: int, c: Cells)
    requires Piece(mem, mem', w, w', bs) && At(mem, a, c) && Bytes(a, c) !! Span(w)
    ensures At(mem', a, c) && Bytes(a, c) !! Span(w')
  {
    hide Span, Range, Room, At, Bytes;
    BytesAllocated(mem, a, c);
    PieceApart(mem, mem', w, w', bs, Bytes(a, c));
    FrameAt(mem, mem', Span(w), a, c);
  }

  lemma HeaderPiece(mem: Mem, mem': Mem, w: Window, w': Window, size: int)
    requires Room(mem, w) && 0 <= size && w' == w.(out := w.out + size) && w'.out + MIN_ROOM <= w.end
    requires Changed(mem, mem', Range(w.out, w.out + size))
    ensures Piece(mem, mem', w, w', Range(w.out, w.out + size))
  {
    hide LoadWord;
    assert Range(w.out, w.out + size) <= Range(w.out, w.end + REGION_FOOTER_SIZE);
    assert Range(w'.out, w.end + REGION_FOOTER_SIZE) <= Range(w.out, w.end + REGION_FOOTER_SIZE);
    FrameWordIn(mem, mem', Range(w.out, w.out + size), w.end + SIZE);
  }

  lemma AWritten(mem: Mem, mem': Mem, w: Window, n: Word)
    requires Room(mem, w) && w.out + 31 <= w.end
    requires Changed(mem, mem', Range(w.out, w.out + 9)) && Header(mem', w.out, A_TAG, n)
    ensures Written(mem, mem', w, w.(out := w.out + 9), ACell(n))
  {
    hide Range, Span, LoadWord, Room, Changed, Chained;
    HeaderPiece(mem, mem', w, w.(out := w.out + 9), 9);
    HeaderChained(mem, mem', w, w.(out := w.out + 9), 9);
  }

  /** memH holds the node's header; the children follow. */
  lemma BWritten(mem0: Mem, memH: Mem, mem1: Mem, mem2: Mem, w0: Window, wH: Window, w1: Window, w2: Window,
                 n: Word, f1: Cells, f2: Cells)
    requires wH == w0.(out := w0.out + 9) && Piece(mem0, memH, w0, wH, Range(w0.out, w0.out + 9))
    requires Chained(mem0, memH, w0, wH, []) && Header(memH, w0.out, B_TAG, n)
    requires Written(memH, mem1, wH, w1, f1) && Written(mem1, mem2, w1, w2, f2) && w0.out + 31 <= w0.end
    ensures Written(mem0, mem2, w0, w2, BCell(n, f1, f2))
  {
    var hdr, b1, b2 := Range(w0.out, w0.out + 9), Bytes(wH.out, f1), Bytes(w1.out, f2);
    hide Piece, Range, Header, Bytes, At, EndOf, Chained, Paced, FootersFrom;
    PieceExtends(memH, mem1, wH, w1, b1);
    ChainedThen(memH, mem1, mem2, wH, w1, w2, b2, Jumps(f1), Jumps(f2));
    BPaced(w0.out, w0.end, n, f1, f2, w1.out, w1.end, FootersFrom(mem1, w0.end, |Jumps(f1)|), FootersFrom(mem2, w1.end, |Jumps(f2)|));
    PairChained(mem0, memH, mem1, mem2, w0, wH, w1, w2, hdr, b1, b2, Jumps(f1), Jumps(f2));
    BPiece(mem0, memH, mem1, mem2, w0, wH, w1, w2, n, hdr, b1, b2);
    PieceKeeps(mem1, mem2, w1, w2, b2, wH.out, f1);
    BParts(mem2, w0.out, n, f1, f2, w1.out);
  }

  lemma BPaced(out: int, end: int, n: Word, f1: Cells, f2: Cells, e: int, end1: int, es1: seq<int>, es2: seq<int>)
    requires out + 31 <= end && Paced(out + 9, end, f1, es1) && EndOf(out + 9, f1) == e && LastOf(end, es1) == end1
    requires Paced(e, end1, f2, es2)
    ensures Paced(out, end, BCell(n, f1, f2), es1 + es2)
  {
    assert (es1 + es2)[..|es1|] == es1 && (es1 + es2)[|es1|..] == es2;
  }

  lemma CPaced(out: int, end: int, slot: Word, n: Word, f1: Cells, f2: Cells, f3: Cells, e1: int, end1: int, e2: int, end2: int,
               es1: seq<int>, es2: seq<int>, es3: seq<int>)
    requires out + 31 <= end && Paced(out + 17, end, f1, es1) && EndOf(out + 17, f1) == e1 && LastOf(end, es1) == end1
    requires Paced(e1, end1, f2, es2) && EndOf(e1, f2) == e2 && LastOf(end, es1 + es2) == end2 && Paced(e2, end2, f3, es3)
    ensures Paced(out, end, CTmp(slot, n, f1, f2, f3), es1 + es2 + es3)
  {
    var es := es1 + es2 + es3;
    assert es[..|es1|] == es1 && es[|es1|..|es1| + |es2|] == es2 && es[..|es1| + |es2|] == es1 + es2;
    assert es[|es1| + |es2|..] == es3;
  }

  lemma BPiece(mem0: Mem, memH: Mem, mem1: Mem, mem2: Mem, w0: Window, wH: Window, w1: Window, w2: Window,
               n: Word, hdr: set<int>, b1: set<int>, b2: set<int>)
    requires hdr == Range(w0.out, w0.out + 9) && Header(memH, w0.out, B_TAG, n)
    requires Piece(mem0, memH, w0, wH, hdr) && Piece(memH, mem1, wH, w1, b1) && Piece(mem1, mem2, w1, w2, b2)
    ensures Piece(mem0, mem2, w0, w2, hdr + b1 + b2) && b1 !! Span(w1) && Header(mem2, w0.out, B_TAG, n)
  {
    hide Range, Span, Room, Changed, Within, Header;
    PieceThen(mem0, memH, mem1, w0, wH, w1, hdr, b1);
    PieceThen(mem0, mem1, mem2, w0, w1, w2, hdr + b1, b2);
    FrameNode(memH, mem1, Span(wH), w0.out, B_TAG, n);
    FrameNode(mem1, mem2, Span(w1), w0.out, B_TAG, n);
  }

  /** A two-child node from its parts; e is where the first child ends. */
  lemma BParts(mem: Mem, a: int, n: Word, f1: Cells, f2: Cells, e: int)
    requires Header(mem, a, B_TAG, n) && At(mem, a + 9, f1) && EndOf(a + 9, f1) == e && At(mem, e, f2)
    ensures At(mem, a, BCell(n, f1, f2)) && EndOf(a, BCell(n, f1, f2)) == EndOf(e, f2)
    ensures Bytes(a, BCell(n, f1, f2)) == Range(a, a + 9) + Bytes(a + 9, f1) + Bytes(e, f2)
  {
    hide Header, Range;
  }

  lemma PairChained(mem0: Mem, memH: Mem, mem1: Mem, mem2: Mem, w0: Window, wH: Window, w1: Window, w2: Window,
                    hdr: set<int>, b1: set<int>, b2: set<int>, j1: seq<Word>, j2: seq<Word>)
    requires Piece(mem0, memH, w0, wH, hdr) && Piece(memH, mem1, wH, w1, b1) && Piece(mem1, mem2, w1, w2, b2)
    requires Chained(mem0, memH, w0, wH, []) && Chained(memH, mem1, wH, w1, j1) && Chained(mem1, mem2, w1, w2, j2)
    ensures Chained(mem0, mem2, w0, w2, j1 + j2) && forall x :: x in mem0 ==> x in mem2
  {
    hide Piece, Chained;
    PieceExtends(mem0, memH, w0, wH, hdr);
    PieceExtends(memH, mem1, wH, w1, b1);
    PieceExtends(mem1, mem2, w1, w2, b2);
    ChainedThen(mem0, memH, mem1, w0, wH, w1, b1, [], j1);
    assert [] + j1 == j1;
    ChainedThen(mem0, mem1, mem2, w0, w1, w2, b2, j1, j2);
  }

  /** The same for three children, before the node may become a big one. */
  lemma CWritten(mem0: Mem, memH: Mem, mem1: Mem, mem2: Mem, mem3: Mem,
                 w0: Window, wH: Window, w1: Window, w2: Window, w3: Window,
                 slot: Word, n: Word, f1: Cells, f2: Cells, f3: Cells)
    requires wH == w0.(out := w0.out + 17) && Piece(mem0, memH, w0, wH, Range(w0.out, w0.out + 17))
    requires Chained(mem0, memH, w0, wH, [])
    requires CHeader(memH, w0.out, C_TMP_TAG, slot, n)
    requires Written(memH, mem1, wH, w1, f1) && Written(mem1, mem2, w1, w2, f2) && Written(mem2, mem3, w2, w3, f3)
    requires w0.out + 31 <= w0.end
    ensures Written(mem0, mem3, w0, w3, CTmp(slot, n, f1, f2, f3))
    ensures var hdr := Range(w0.out, w0.out + 17);
            hdr !! Bytes(wH.out, f1) && hdr !! Bytes(w1.out, f2) && hdr !! Bytes(w2.out, f3)
  {
    var hdr, b1, b2, b3 := Range(w0.out, w0.out + 17), Bytes(wH.out, f1), Bytes(w1.out, f2), Bytes(w2.out, f3);
    hide Piece, CHeader, Range, Bytes, At, EndOf, Chained, Paced, FootersFrom;
    ThreePaced(memH, mem1, mem2, mem3, wH, w1, w2, w3, w0.out, slot, n, f1, f2, f3, b1, b2, b3);
    PairChained(mem0, memH, mem1, mem2, w0, wH, w1, w2, hdr, b1, b2, Jumps(f1), Jumps(f2));
    ChainedThen(mem0, mem2, mem3, w0, w2, w3, b3, Jumps(f1) + Jumps(f2), Jumps(f3));
    CPiece(mem0, memH, mem1, mem2, mem3, w0, wH, w1, w2, w3, hdr, b1, b2, b3);
    CHeaderKept(memH, mem1, mem2, mem3, wH, w1, w2, w3, w0.out, slot, n, b1, b2, b3);
    PieceKeeps(mem1, mem2, w1, w2, b2, wH.out, f1);
    PieceKeeps(mem2, mem3, w2, w3, b3, wH.out, f1);
    PieceKeeps(mem2, mem3, w2, w3, b3, w1.out, f2);
    CParts(mem3, w0.out, slot, n, f1, f2, f3, w1.out, w2.out, w3.out);
    CBytes(w0.out, slot, n, f1, f2, f3, w1.out, w2.out, w3.out);
  }

  lemma ThreePaced(memH: Mem, mem1: Mem, mem2: Mem, mem3: Mem, wH: Window, w1: Window, w2: Window, w3: Window,
                   out: int, slot: Word, n: Word, f1: Cells, f2: Cells, f3: Cells, b1: set<int>, b2: set<int>, b3: set<int>)
    requires Written(memH, mem1, wH, w1, f1) && Written(mem1, mem2, w1, w2, f2) && Written(mem2, mem3, w2, w3, f3)
    requires b1 == Bytes(wH.out, f1) && b2 == Bytes(w1.out, f2) && b3 == Bytes(w2.out, f3)
    requires wH.out == out + 17 && out + 31 <= wH.end
    ensures Paced(out, wH.end, CTmp(slot, n, f1, f2, f3), FootersFrom(mem3, wH.end, |Jumps(CTmp(slot, n, f1, f2, f3))|))
  {
    hide Piece, Bytes, At, EndOf, Chained, Paced, FootersFrom;
    PieceExtends(memH, mem1, wH, w1, b1);
    PieceExtends(mem1, mem2, w1, w2, b2);
    ChainedThen(memH, mem1, mem2, wH, w1, w2, b2, Jumps(f1), Jumps(f2));
    ChainedThen(memH, mem2, mem3, wH, w2, w3, b3, Jumps(f1) + Jumps(f2), Jumps(f3));
    CPaced(out, wH.end, slot, n, f1, f2, f3, w1.out, w1.end, w2.out, w2.end, FootersFrom(mem1, wH.end, |Jumps(f1)|),
           FootersFrom(mem2, w1.end, |Jumps(f2)|), FootersFrom(mem3, w2.end, |Jumps(f3)|));
  }

  /** A three-child node from its parts; e1, e2, e3 are where its children end. */
  lemma CParts(mem: Mem, a: int, slot: Word, n: Word, f1: Cells, f2: Cells, f3: Cells, e1: int, e2: int, e3: int)
    requires At(mem, a + 17, f1) && EndOf(a + 17, f1) == e1
    requires At(mem, e1, f2) && EndOf(e1, f2) == e2 && At(mem, e2, f3) && EndOf(e2, f3) == e3
    ensures CHeader(mem, a, C_TMP_TAG, slot, n) ==> At(mem, a, CTmp(slot, n, f1, f2, f3))
    ensures CHeader(mem, a, C_BIG_TAG, slot, n) && SlotHolds(mem, slot, e1, e2) ==> At(mem, a, CBig(slot, n, f1, f2, f3))
  {
    hide CHeader, SlotHolds, Bytes, Range;
  }

  lemma CBytes(a: int, slot: Word, n: Word, f1: Cells, f2: Cells, f3: Cells, e1: int, e2: int, e3: int)
    requires EndOf(a + 17, f1) == e1 && EndOf(e1, f2) == e2 && EndOf(e2, f3) == e3
    ensures var bs := Range(a, a + 17) + Bytes(a + 17, f1) + Bytes(e1, f2) + Bytes(e2, f3);
            && Bytes(a, CTmp(slot, n, f1, f2, f3)) == bs
            && Bytes(a, CBig(slot, n, f1, f2, f3)) == bs + Range(slot, slot + 16)
    ensures EndOf(a, CTmp(slot, n, f1, f2, f3)) == EndOf(a, CBig(slot, n, f1, f2, f3)) == e3
  {
    hide Range;
  }

  lemma CPiece(mem0: Mem, memH: Mem, mem1: Mem, mem2: Mem, mem3: Mem, w0: Window, wH: Window, w1: Window, w2: Window,
               w3: Window, hdr: set<int>, b1: set<int>, b2: set<int>, b3: set<int>)
    requires Piece(mem0, memH, w0, wH, hdr) && Piece(memH, mem1, wH, w1, b1)
    requires Piece(mem1, mem2, w1, w2, b2) && Piece(mem2, mem3, w2, w3, b3)
    ensures Piece(mem0, mem3, w0, w3, hdr + b1 + b2 + b3)
    ensures hdr !! b1 && hdr !! b2 && hdr !! b3 && hdr !! Span(wH) && hdr !! Span(w1) && hdr !! Span(w2)
    ensures b1 !! Span(w1) && b2 !! Span(w2)
  {
    hide Range, Span, Room, Changed, Within;
    PieceThen(mem0, memH, mem1, w0, wH, w1, hdr, b1);
    PieceThen(mem0, mem1, mem2, w0, w1, w2, hdr + b1, b2);
    PieceThen(mem0, mem2, mem3, w0, w2, w3, hdr + b1 + b2, b3);
    PieceApart(memH, mem1, wH, w1, b1, hdr);
    PieceApart(mem1, mem2, w1, w2, b2, hdr);
    PieceApart(mem2, mem3, w2, w3, b3, hdr);
  }

  lemma CHeaderKept(memH: Mem, mem1: Mem, mem2: Mem, mem3: Mem, wH: Window, w1: Window, w2: Window, w3: Window,
                    a: int, slot: Word, n: Word, b1: set<int>, b2: set<int>, b3: set<int>)
    requires Piece(memH, mem1, wH, w1, b1) && Piece(mem1, mem2, w1, w2, b2) && Piece(mem2, mem3, w2, w3, b3)
    requires CHeader(memH, a, C_TMP_TAG, slot, n)
    requires var hdr := Range(a, a + 17); hdr !! Span(wH) && hdr !! Span(w1) && hdr !! Span(w2)
    ensures CHeader(mem3, a, C_TMP_TAG, slot, n)
  {
    hide Range, Span, LoadWord, Room, Changed, Within, CHeader;
    FrameCHeader(memH, mem1, Span(wH), a, C_TMP_TAG, slot, n);
    FrameCHeader(mem1, mem2, Span(w1), a, C_TMP_TAG, slot, n);
    FrameCHeader(mem2, mem3, Span(w2), a, C_TMP_TAG, slot, n);
  }

  /** What promoting the node at a to a big one writes. */
  function Promotion(a: int, ran: int): set<int> {
    Range(a, a + 9) + Range(ran, ran + 16)
  }

  /** A written C_tmp node becomes a C_big node with the slot at the random-access
      cursor; e1 and e2 are where its first two children end. */
  lemma BigWritten(mem0: Mem, mem3: Mem, mem4: Mem, w0: Window, w3: Window, slot: Word, n: Word,
                   f1: Cells, f2: Cells, f3: Cells, e1: int, e2: int)
    requires Room(mem0, w0) && Written(mem0, mem3, w0, w3, CTmp(slot, n, f1, f2, f3))
    requires EndOf(w0.out + 17, f1) == e1 && EndOf(e1, f2) == e2
    requires var hdr := Range(w0.out, w0.out + 17);
             hdr !! Bytes(w0.out + 17, f1) && hdr !! Bytes(e1, f2) && hdr !! Bytes(e2, f3)
    requires w3.ran + 16 <= w3.ranEnd
    requires Changed(mem3, mem4, Promotion(w0.out, w3.ran))
    requires CHeader(mem4, w0.out, C_BIG_TAG, w3.ran, n) && SlotHolds(mem4, w3.ran, e1, e2)
    ensures Written(mem0, mem4, w0, w3.(ran := w3.ran + 16), CBig(w3.ran, n, f1, f2, f3))
  {
    var a, p := w0.out + 17, Promotion(w0.out, w3.ran);
    var hdr, b1, b2, b3 := Range(w0.out, a), Bytes(a, f1), Bytes(e1, f2), Bytes(e2, f3);
    var bs := hdr + b1 + b2 + b3;
    hide Changed, Bytes, CHeader, SlotHolds, At, EndOf, Range, Span, Piece, Written, Chained;
    WrittenParts(mem0, mem3, w0, w3, slot, n, f1, f2, f3, e1, e2);
    PromotionPiece(mem0, mem3, mem4, w0, w3, bs);
    PromotionApart(mem0, mem3, w0, w3, bs);
    PromotionChained(mem0, mem3, mem4, w0, w3, slot, n, f1, f2, f3);
    hide Promotion;
    Disjointness(p, hdr, Range(w3.ran, w3.ran + 16), b1, b2, b3);
    FrameAt(mem3, mem4, p, a, f1);
    FrameAt(mem3, mem4, p, e1, f2);
    FrameAt(mem3, mem4, p, e2, f3);
    CParts(mem4, w0.out, w3.ran, n, f1, f2, f3, e1, e2, w3.out);
    CBytes(w0.out, w3.ran, n, f1, f2, f3, e1, e2, w3.out);
    WrittenFrom(mem0, mem4, w0, w3.(ran := w3.ran + 16), CBig(w3.ran, n, f1, f2, f3));
  }

  lemma WrittenFrom(mem: Mem, mem': Mem, w: Window, w': Window, c: Cells)
    requires At(mem', w.out, c) && EndOf(w.out, c) == w'.out && Piece(mem, mem', w, w', Bytes(w.out, c))
    requires Chained(mem, mem', w, w', Jumps(c)) && Paced(w.out, w.end, c, FootersFrom(mem', w.end, |Jumps(c)|))
    ensures Written(mem, mem', w, w', c)
  {
  }

  lemma WrittenParts(mem: Mem, mem': Mem, w: Window, w': Window, slot: Word, n: Word,
                     f1: Cells, f2: Cells, f3: Cells, e1: int, e2: int)
    requires Written(mem, mem', w, w', CTmp(slot, n, f1, f2, f3))
    requires EndOf(w.out + 17, f1) == e1 && EndOf(e1, f2) == e2
    ensures var hdr := Range(w.out, w.out + 17);
            Piece(mem, mem', w, w', hdr + Bytes(w.out + 17, f1) + Bytes(e1, f2) + Bytes(e2, f3))
    ensures Range(w.out, w.out + 9) <= Range(w.out, w.out + 17)
    ensures At(mem', w.out + 17, f1) && At(mem', e1, f2) && At(mem', e2, f3) && EndOf(e2, f3) == w'.out
  {
    hide Piece, CHeader, Range, Chained, Paced, FootersFrom, Jumps;
  }

  lemma Disjointness(p: set<int>, hdr: set<int>, slots: set<int>, b1: set<int>, b2: set<int>, b3: set<int>)
    requires p <= hdr + slots && hdr + b1 + b2 + b3 !! slots && hdr !! b1 && hdr !! b2 && hdr !! b3
    ensures b1 !! p && b2 !! p && b3 !! p
  {
  }

  lemma PromotionApart(mem0: Mem, mem3: Mem, w0: Window, w3: Window, bs: set<int>)
    requires Piece(mem0, mem3, w0, w3, bs) && w3.ran + 16 <= w3.ranEnd
    ensures 0 <= w3.ran < POINTER_LIMIT
    ensures bs !! Range(w3.ran, w3.ran + 16)
    ensures Promotion(w0.out, w3.ran) <= Range(w0.out, w0.out + 17) + Range(w3.ran, w3.ran + 16)
  {
    assert Range(w3.ran, w3.ran + 16) <= Range(w3.ran, w3.ranEnd);
    assert Range(w0.out, w0.out + 9) <= Range(w0.out, w0.out + 17);
  }

  lemma PromotionPiece(mem0: Mem, mem3: Mem, mem4: Mem, w0: Window, w3: Window, bs: set<int>)
    requires Piece(mem0, mem3, w0, w3, bs) && w3.ran + 16 <= w3.ranEnd
    requires Range(w0.out, w0.out + 9) <= bs
    requires Changed(mem3, mem4, Promotion(w0.out, w3.ran))
    ensures Piece(mem0, mem4, w0, w3.(ran := w3.ran + 16), bs + Range(w3.ran, w3.ran + 16))
  {
    var w4, slots := w3.(ran := w3.ran + 16), Range(w3.ran, w3.ran + 16);
    assert Range(w4.ran, w4.ranEnd) + slots <= Range(w3.ran, w3.ranEnd);
    assert slots !! Range(w4.ran, w4.ranEnd);
    assert Span(w4) <= Span(w3);
    assert slots !! Span(w4) && slots <= Span(w3);
    var chunk := Range(w3.out, w3.end + REGION_FOOTER_SIZE);
    assert Promotion(w0.out, w3.ran) <= bs + slots;
    assert chunk !! Promotion(w0.out, w3.ran);
    SizeKept(mem3, mem4, w3, Promotion(w0.out, w3.ran));
    hide Span, Range, FooterWord, LoadWord;
    ChangedStep(mem0, mem3, mem4, Span(w0), Promotion(w0.out, w3.ran));
  }

  /** Promoting keeps off all footers: the node and the slot are older than the chunks
      that were added, and apart from the first footer and the last. */
  lemma PromotionChained(mem0: Mem, mem3: Mem, mem4: Mem, w0: Window, w3: Window, slot: Word, n: Word,
                         f1: Cells, f2: Cells, f3: Cells)
    requires Room(mem0, w0) && Written(mem0, mem3, w0, w3, CTmp(slot, n, f1, f2, f3)) && w3.ran + 16 <= w3.ranEnd
    requires Changed(mem3, mem4, Promotion(w0.out, w3.ran))
    ensures var c := CBig(w3.ran, n, f1, f2, f3);
            Chained(mem0, mem4, w0, w3.(ran := w3.ran + 16), Jumps(c)) && Paced(w0.out, w0.end, c, FootersFrom(mem4, w0.end, |Jumps(c)|))
  {
    hide Paced, FootersFrom, Bytes, At, EndOf, LoadWord, CHeader, Follows, Jumps, Within, Changed, Stays, Last;
    JumpsOf(slot, w3.ran, n, f1, f2, f3, w0.out, w0.end, FootersFrom(mem3, w0.end, |Jumps(CTmp(slot, n, f1, f2, f3))|));
    var tos, t := Jumps(CTmp(slot, n, f1, f2, f3)), Range(w0.out, w0.out + 9);
    var s, w4 := Span(w3) + t, w3.(ran := w3.ran + 16);
    NodeOld(mem0, w0);
    LinksMore(mem0, mem3, w0.end, tos, w3.end, Span(w3), t);
    NodeBytes(w0.out, slot, n, f1, f2, f3);
    PromotionSpan(mem0, mem3, mem4, w0, w3, Bytes(w0.out, CTmp(slot, n, f1, f2, f3)));
    LinksKept(mem0, mem3, mem4, w0.end, tos, w3.end, s, Span(w4));
    StaysTwice(mem0, mem3, mem4, w0.end);
    LastThen(mem0, mem3, mem4, w3.end, tos, w3.end, [], Span(w4));
    assert tos + [] == tos;
  }

  lemma JumpsOf(slot: Word, ran: Word, n: Word, f1: Cells, f2: Cells, f3: Cells, out: int, end: int, es: seq<int>)
    ensures Jumps(CBig(ran, n, f1, f2, f3)) == Jumps(CTmp(slot, n, f1, f2, f3))
    ensures Paced(out, end, CTmp(slot, n, f1, f2, f3), es) ==> Paced(out, end, CBig(ran, n, f1, f2, f3), es)
  {
    if Paced(out, end, CTmp(slot, n, f1, f2, f3), es) {
      SameThree(out + 17, end, CTmp(slot, n, f1, f2, f3), CBig(ran, n, f1, f2, f3), f1, f2, f3, es);
    }
  }

  lemma SameThree(out: int, end: int, c: Cells, c': Cells, f1: Cells, f2: Cells, f3: Cells, es: seq<int>)
    requires f1 < c && f2 < c && f3 < c && f1 < c' && f2 < c' && f3 < c'
    requires |es| == |Jumps(f1)| + |Jumps(f2)| + |Jumps(f3)| && PacedThree(out, end, c, f1, f2, f3, es)
    ensures PacedThree(out, end, c', f1, f2, f3, es)
  {
  }

  lemma NodeBytes(a: int, slot: Word, n: Word, f1: Cells, f2: Cells, f3: Cells)
    ensures Range(a, a + 9) <= Bytes(a, CTmp(slot, n, f1, f2, f3))
  {
    assert Range(a, a + 9) <= Range(a, a + 17);
  }

  lemma NodeOld(mem: Mem, w: Window)
    requires Room(mem, w)
    ensures forall x :: x in Range(w.out, w.out + 9) ==> x in mem
    ensures Range(w.end, w.end + REGION_FOOTER_SIZE) !! Range(w.out, w.out + 9)
  {
    hide LoadWord;
  }

  lemma PromotionSpan(mem0: Mem, mem3: Mem, mem4: Mem, w0: Window, w3: Window, bs: set<int>)
    requires Piece(mem0, mem3, w0, w3, bs) && w3.ran + 16 <= w3.ranEnd && Range(w0.out, w0.out + 9) <= bs
    requires Changed(mem3, mem4, Promotion(w0.out, w3.ran))
    ensures var s := Span(w3) + Range(w0.out, w0.out + 9);
            && Changed(mem3, mem4, s) && Within(mem3, s, Span(w3.(ran := w3.ran + 16)))
    ensures Stays(mem3, mem4, w3.end) && Last(mem3, mem4, [], w3.end)
  {
    hide LoadWord;
    var w4, s := w3.(ran := w3.ran + 16), Span(w3) + Range(w0.out, w0.out + 9);
    assert Range(w3.ran, w3.ran + 16) + Range(w4.ran, w4.ranEnd) <= Range(w3.ran, w3.ranEnd);
    assert Promotion(w0.out, w3.ran) <= s && Span(w4) <= s;
    var foot := Range(w3.end, w3.end + REGION_FOOTER_SIZE);
    assert foot <= Range(w3.out, w3.end + REGION_FOOTER_SIZE);
    assert foot !! Promotion(w0.out, w3.ran);
    FooterOutside(mem3, mem4, Promotion(w0.out, w3.ran), w3.end);
  }

  lemma SizeKept(mem: Mem, mem': Mem, w: Window, s: set<int>)
    requires Room(mem, w) && Changed(mem, mem', s) && Range(w.out, w.end + REGION_FOOTER_SIZE) !! s
    ensures Allocated(mem', w.end, REGION_FOOTER_SIZE) && FooterWord(mem', w.end, SIZE) == FooterWord(mem, w.end, SIZE)
  {
    hide LoadWord;
    assert Range(w.end + SIZE, w.end + SIZE + 8) <= Range(w.out, w.end + REGION_FOOTER_SIZE);
    FrameWordIn(mem, mem', s, w.end + SIZE);
  }

  /** A value written after growing: the old cursor holds a redirection to it. */
  lemma JumpWritten(mem0: Mem, memG: Mem, mem': Mem, w0: Window, wG: Window, w': Window, c: Cells)
    requires Piece(mem0, memG, w0, wG, Range(w0.out, w0.out + 9)) && 0 <= wG.out < POINTER_LIMIT
    requires Header(memG, w0.out, FOO_REDIRECTION_TAG, wG.out) && Chained(mem0, memG, w0, wG, [wG.out])
    requires Written(memG, mem', wG, w', c) && w0.out + 31 > w0.end
    ensures Written(mem0, mem', w0, w', Jump(FOO_REDIRECTION_TAG, wG.out, c))
  {
    hide Range, Span, LoadWord, Room, Changed, Within, Header, Chained, Paced, FootersFrom;
    PieceExtends(mem0, memG, w0, wG, Range(w0.out, w0.out + 9));
    ChainedThen(mem0, memG, mem', w0, wG, w', Bytes(wG.out, c), [wG.out], Jumps(c));
    PieceThen(mem0, memG, mem', w0, wG, w', Range(w0.out, w0.out + 9), Bytes(wG.out, c));
    FrameNode(memG, mem', Span(wG), w0.out, FOO_REDIRECTION_TAG, wG.out);
    JumpPaced(w0.out, w0.end, wG.out, c, FootersFrom(memG, w0.end, 1), FootersFrom(mem', wG.end, |Jumps(c)|), wG.end);
  }

  lemma JumpPaced(out: int, end: int, to: Word, c: Cells, first: seq<int>, es: seq<int>, end1: int)
    requires out + 31 > end && |first| == 1 && LastOf(end, first) == end1 && Paced(to, end1, c, es)
    ensures Paced(out, end, Jump(FOO_REDIRECTION_TAG, to, c), first + es)
  {
    assert (first + es)[1..] == es;
  }

  /** A tree is written without a redirection if and only if there is room for its nodes
      and 22 bytes more. */
  lemma UngrownIff(mem: Mem, mem': Mem, w: Window, w': Window, c: Cells)
    requires Written(mem, mem', w, w', c)
    ensures Jumps(c) == [] <==> w.out + Size(FooOf(c)) + 22 <= w.end
    ensures Jumps(c) == [] ==> w'.out == w.out + Size(FooOf(c))
  {
    hide At, Piece, Chained, Bytes, Paced, EndOf;
    PacedStraight(w.out, w.end, c, FootersFrom(mem', w.end, |Jumps(c)|));
  }

  lemma {:induction false} PacedStraight(out: int, end: int, c: Cells, es: seq<int>)
    requires Paced(out, end, c, es)
    ensures Jumps(c) == [] <==> out + Size(FooOf(c)) + 22 <= end
    ensures Jumps(c) == [] ==> EndOf(out, c) == out + Size(FooOf(c)) && LastOf(end, es) == end
    decreases c, 1
  {
    match c
    case ACell(_) =>
    case BCell(_, f1, f2) =>
      var es1, es2 := es[..|Jumps(f1)|], es[|Jumps(f1)|..];
      assert Jumps(c) == [] <==> Jumps(f1) == [] && Jumps(f2) == [];
      PacedStraight(out + 9, end, f1, es1);
      PacedStraight(EndOf(out + 9, f1), LastOf(end, es1), f2, es2);
    case CTmp(_, _, f1, f2, f3) => StraightThree(out + 17, end, c, f1, f2, f3, es);
    case CBig(_, _, f1, f2, f3) => StraightThree(out + 17, end, c, f1, f2, f3, es);
    case Jump(_, _, _) =>
  }

  lemma {:induction false} StraightThree(out: int, end: int, c: Cells, f1: Cells, f2: Cells, f3: Cells, es: seq<int>)
    requires f1 < c && f2 < c && f3 < c
    requires |es| == |Jumps(f1)| + |Jumps(f2)| + |Jumps(f3)| && PacedThree(out, end, c, f1, f2, f3, es) && out + 14 <= end
    ensures var s := Size(FooOf(f1)) + Size(FooOf(f2)) + Size(FooOf(f3));
            && (Jumps(f1) + Jumps(f2) + Jumps(f3) == [] <==> out + s + 22 <= end)
            && (Jumps(f1) + Jumps(f2) + Jumps(f3) == [] ==> EndOf(EndOf(EndOf(out, f1), f2), f3) == out + s)
    decreases c, 0
  {
    var k1, k2 := |Jumps(f1)|, |Jumps(f1)| + |Jumps(f2)|;
    assert Jumps(f1) + Jumps(f2) + Jumps(f3) == [] <==> Jumps(f1) == [] && Jumps(f2) == [] && Jumps(f3) == [];
    var e1 := EndOf(out, f1);
    PacedStraight(out, end, f1, es[..k1]);
    PacedStraight(e1, LastOf(end, es[..k1]), f2, es[k1..k2]);
    PacedStraight(EndOf(e1, f2), LastOf(end, es[..k2]), f3, es[k2..]);
  }
}

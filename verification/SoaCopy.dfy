/** _copy_Tree over three buffers. At an indirection it goes on with the cursors it was
    given and the chunk ends after growth, so it may write where it does not stand. */
module SoaCopy {
  import opened Memory
  import opened Outcomes
  import opened Runtime
  import opened Chains
  import opened Trees
  import opened SoaTree
  import opened SoaWriters
  import opened SoaPrograms

  datatype Copied = Copied(inEnd: Cursors, end: Cursors, inCur: Cursors, start: Cursors, cur: Cursors)

  // Where the output cursors go until the buffers grow.

  predicate LeafFits(loc: Cursors, own: Cursors) {
    loc.tags + 1 <= own.tags && loc.leaves + 8 <= own.leaves
  }

  predicate InnerFits(loc: Cursors, own: Cursors) {
    loc.tags + 1 <= own.tags && loc.inners + 8 <= own.inners
  }

  /** How a copy ends: with its writer at the end of the value and chunks to spare, before
      a byte of a footer, or without the next chunk. */
  datatype Ending = Stand(w: Writer, left: seq<Chunks>) | Overrun | Starved

  /** The copy without the bytes: it finds the given chunks when it grows. */
  function Run(w: Writer, input: SoaLayout, cs: seq<Chunks>): Ending
    decreases input, 1
  {
    if Roomy(w.loc, w.end) then Steps(w, input, cs)
    else if !RedirectRoom(w.loc, w.own) then Overrun
    else if cs == [] then Starved
    else Steps(GrownTo(w, input, cs[0]), input, cs[1..])
  }

  /** At an indirection it is told to grow from the new chunks, but stays where it is. */
  function GrownTo(w: Writer, input: SoaLayout, c: Chunks): Writer {
    if input.AllIndirected? then Writer(w.loc, c.1, w.own) else Here(c.0, c.1)
  }

  /** Behind the bounds check. */
  function Steps(w: Writer, input: SoaLayout, cs: seq<Chunks>): Ending
    decreases input, 0
  {
    match input
    case LeafCells(_) => if LeafFits(w.loc, w.own) then Stand(w.To(w.loc.AfterLeaf()), cs) else Overrun
    case NodeCells(_, left, right) =>
      if InnerFits(w.loc, w.own) then Then(Run(w.To(w.loc.AfterInner()), left, cs), right) else Overrun
    case AllRedirected(_, _, _, rest) => Run(w, rest, cs)
    case AllIndirected(_, _, _, target) => Run(w, target, cs)
  }

  function Then(first: Ending, right: SoaLayout): Ending
    decreases right, 2
  {
    if first.Stand? then Run(first.w, right, first.left) else first
  }

  /** Chunks that are not needed are left. */
  lemma {:induction false} RunMore(w: Writer, input: SoaLayout, cs: seq<Chunks>, ds: seq<Chunks>)
    requires Run(w, input, cs).Stand?
    ensures Run(w, input, cs + ds) == Stand(Run(w, input, cs).w, Run(w, input, cs).left + ds)
    decreases input, 1
  {
    hide Roomy, RedirectRoom;
    if Roomy(w.loc, w.end) {
      StepsMore(w, input, cs, ds);
    } else {
      assert (cs + ds)[0] == cs[0] && (cs + ds)[1..] == cs[1..] + ds;
      StepsMore(GrownTo(w, input, cs[0]), input, cs[1..], ds);
    }
  }

  lemma {:induction false} StepsMore(w: Writer, input: SoaLayout, cs: seq<Chunks>, ds: seq<Chunks>)
    requires Steps(w, input, cs).Stand?
    ensures Steps(w, input, cs + ds) == Stand(Steps(w, input, cs).w, Steps(w, input, cs).left + ds)
    decreases input, 0
  {
    hide Roomy, RedirectRoom, InnerFits, LeafFits;
    match input
    case LeafCells(_) =>
    case NodeCells(_, left, right) =>
      var first := Run(w.To(w.loc.AfterInner()), left, cs);
      RunMore(w.To(w.loc.AfterInner()), left, cs, ds);
      RunMore(first.w, right, first.left, ds);
    case AllRedirected(_, _, _, rest) => RunMore(w, rest, cs, ds);
    case AllIndirected(_, _, _, target) => RunMore(w, target, cs, ds);
  }

  ghost predicate AllSpacious(cs: seq<Chunks>) {
    forall c :: c in cs ==> Spacious(c.0, c.1)
  }

  /** Told where it stands, a copy of input without indirections overruns nothing, and
      stays where it is told. */
  lemma {:induction false} NeverOverruns(w: Writer, input: SoaLayout, cs: seq<Chunks>)
    requires !w.Astray() && RedirectRoom(w.loc, w.own) && Unshared(input) && AllSpacious(cs)
    ensures !Run(w, input, cs).Overrun?
    ensures Run(w, input, cs).Stand? ==>
      var e := Run(w, input, cs); !e.w.Astray() && RedirectRoom(e.w.loc, e.w.own) && AllSpacious(e.left)
    decreases input, 1
  {
    if Roomy(w.loc, w.end) {
      StepsNever(w, input, cs);
    } else if cs != [] {
      StepsNever(GrownTo(w, input, cs[0]), input, cs[1..]);
    }
  }

  lemma {:induction false} StepsNever(w: Writer, input: SoaLayout, cs: seq<Chunks>)
    requires !w.Astray() && Roomy(w.loc, w.end) && Unshared(input) && AllSpacious(cs)
    ensures !Steps(w, input, cs).Overrun?
    ensures Steps(w, input, cs).Stand? ==>
      var e := Steps(w, input, cs); !e.w.Astray() && RedirectRoom(e.w.loc, e.w.own) && AllSpacious(e.left)
    decreases input, 0
  {
    match input
    case LeafCells(_) =>
    case NodeCells(_, left, right) =>
      NeverOverruns(w.To(w.loc.AfterInner()), left, cs);
      var first := Run(w.To(w.loc.AfterInner()), left, cs);
      if first.Stand? {
        NeverOverruns(first.w, right, first.left);
      }
    case AllRedirected(_, _, _, rest) => NeverOverruns(w, rest, cs);
  }

  function LeavesOf(t: Tree): nat {
    match t
    case Leaf(_) => 1
    case Node(_, left, right) => LeavesOf(left) + LeavesOf(right)
  }

  function InnersOf(t: Tree): nat {
    match t
    case Leaf(_) => 0
    case Node(_, left, right) => 1 + InnersOf(left) + InnersOf(right)
  }

  /** The cursors behind a tree written without growth. */
  function After(loc: Cursors, t: Tree): Cursors {
    loc.Plus(LeavesOf(t) + InnersOf(t), 8 * LeavesOf(t), 8 * InnersOf(t))
  }

  predicate Before(loc: Cursors, own: Cursors) {
    loc.tags <= own.tags && loc.leaves <= own.leaves && loc.inners <= own.inners
  }

  /** From this much room on, and only then, a tree is written without a redirection: a
      byte for each node and 33 more for tags, 8 bytes for each leaf and 9 more, 8 bytes
      for each inner node and 17 more. */
  predicate Holds(loc: Cursors, end: Cursors, t: Tree) {
    && loc.tags + LeavesOf(t) + InnersOf(t) + 33 <= end.tags
    && loc.leaves + 8 * LeavesOf(t) + 9 <= end.leaves
    && loc.inners + 8 * InnersOf(t) + 17 <= end.inners
  }

  lemma UngrownIff(mem: Mem, mem': Mem, loc: Cursors, end: Cursors, loc': Cursors, end': Cursors, l: SoaLayout)
    requires Written(mem, mem', loc, end, loc', end', l)
    ensures AllWords(l) == [] <==> Holds(loc, end, TreeOf(l))
    ensures AllWords(l) == [] ==> loc' == After(loc, TreeOf(l)) && end' == end
  {
    hide At, Avoids, SameBut, Moved, Sound, Extended, NewChunks, Paced, FootersAfter, EndOf, Holds, After;
    PacedStraight(loc, end, l);
  }

  lemma {:induction false} PacedStraight(loc: Cursors, end: Cursors, l: SoaLayout)
    requires Paced(loc, end, l) && Unshared(l)
    ensures AllWords(l) == [] <==> Holds(loc, end, TreeOf(l))
    ensures AllWords(l) == [] ==> EndOf(loc, l) == After(loc, TreeOf(l)) && FootersAfter(end, l) == end
    decreases l
  {
    Occupied(TreeOf(l));
    match l
    case LeafCells(_) =>
    case NodeCells(_, left, right) =>
      assert AllWords(l) == [] <==> AllWords(left) == [] && AllWords(right) == [];
      Occupied(TreeOf(left));
      Occupied(TreeOf(right));
      PacedStraight(loc.AfterInner(), end, left);
      PacedStraight(EndOf(loc.AfterInner(), left), FootersAfter(end, left), right);
    case AllRedirected(_, _, _, _) =>
  }

  lemma {:induction false} Occupied(t: Tree)
    ensures LeavesOf(t) == InnersOf(t) + 1
  {
    if t.Node? {
      Occupied(t.left);
      Occupied(t.right);
    }
  }

  /** Told ends behind the chunks it stands in, the copy never grows: it goes on until
      the tree is written or does not fit. */
  lemma {:induction false} GoesOn(w: Writer, input: SoaLayout, cs: seq<Chunks>)
    requires Before(w.loc, w.own) && Roomy(w.own, w.end)
    ensures Run(w, input, cs) ==
            if Before(After(w.loc, TreeOf(input)), w.own) then Stand(w.To(After(w.loc, TreeOf(input))), cs) else Overrun
    decreases input
  {
    match input
    case LeafCells(_) =>
    case NodeCells(_, left, right) =>
      if InnerFits(w.loc, w.own) {
        GoesOn(w.To(w.loc.AfterInner()), left, cs);
        var loc1 := After(w.loc.AfterInner(), TreeOf(left));
        assert After(loc1, TreeOf(right)) == After(w.loc, TreeOf(input));
        var first := Run(w.To(w.loc.AfterInner()), left, cs);
        assert Run(w, input, cs) == Then(first, right);
        if Before(loc1, w.own) {
          assert first == Stand(w.To(loc1), cs);
          GoesOn(w.To(loc1), right, cs);
        }
      }
    case AllRedirected(_, _, _, rest) => GoesOn(w, rest, cs);
    case AllIndirected(_, _, _, target) => GoesOn(w, target, cs);
  }

  /** Three new chunks, as far as the memory before knows them. */
  ghost predicate NewEnds(mem: Mem, start: Cursors, end: Cursors) {
    Fresh3(mem, start, end) && Spacious(start, end)
  }

  /** All three of them lie above the chunks the writer stands in. */
  predicate Above(own: Cursors, start: Cursors) {
    own.tags < start.tags && own.leaves < start.leaves && own.inners < start.inners
  }

  /** Whether the copy goes on astray or grows once more is a matter of where malloc puts
      the new chunks: it goes on if and only if all three lie above the old ones. */
  lemma RegrowsIff(mem: Mem, w: Writer, start: Cursors, end: Cursors)
    requires Sound(mem, w) && NewEnds(mem, start, end)
    ensures Roomy(w.loc, end) <==> Above(w.own, start)
    ensures Above(w.own, start) ==> Before(w.loc, w.own) && Roomy(w.own, end)
  {
    hide Sound, Sized;
    SoundStands(mem, w);
    FreshClear(mem, w.loc.tags, FootEnd(w.own.tags) - w.loc.tags, start.tags, FootEnd(end.tags));
    FreshClear(mem, w.loc.leaves, FootEnd(w.own.leaves) - w.loc.leaves, start.leaves, FootEnd(end.leaves));
    FreshClear(mem, w.loc.inners, FootEnd(w.own.inners) - w.loc.inners, start.inners, FootEnd(end.inners));
  }

  /** An indirection to a value without others: if it grows once more there, the copy
      overruns nothing. */
  lemma RegrowthHelps(mem: Mem, w: Writer, input: SoaLayout, c: Chunks, cs: seq<Chunks>)
    requires Sound(mem, w) && RedirectRoom(w.loc, w.own) && !Roomy(w.loc, w.end)
    requires NewEnds(mem, c.0, c.1) && AllSpacious(cs) && !Above(w.own, c.0)
    requires input.AllIndirected? && Unshared(input.target)
    ensures !Run(w, input, [c] + cs).Overrun?
  {
    RegrowsIff(mem, w, c.0, c.1);
    Grows(w, input, c, cs);
    if cs != [] {
      StepsNever(GrownTo(Writer(w.loc, c.1, w.own), input.target, cs[0]), input.target, cs[1..]);
    }
  }

  lemma Grows(w: Writer, input: SoaLayout, c: Chunks, cs: seq<Chunks>)
    requires RedirectRoom(w.loc, w.own) && !Roomy(w.loc, w.end) && input.AllIndirected?
    ensures Run(w, input, [c] + cs) == Run(Writer(w.loc, c.1, w.own), input.target, cs)
  {
    assert ([c] + cs)[1..] == cs;
  }

  /** An indirection met when full. There is room for the redirections; then the copy
      overruns a footer if and only if all new chunks lie above the old ones and the tree
      does not fit what is left of those. (If they do not, further indirections may lead
      it astray again.) */
  lemma OverrunsIff(mem: Mem, w: Writer, input: SoaLayout, c: Chunks, cs: seq<Chunks>)
    requires Sound(mem, w) && !Roomy(w.loc, w.end) && input.AllIndirected?
    requires NewEnds(mem, c.0, c.1)
    ensures Above(w.own, c.0) || (Unshared(input.target) && AllSpacious(cs)) ==>
      (Run(w, input, [c] + cs).Overrun? <==>
       !RedirectRoom(w.loc, w.own) || (Above(w.own, c.0) && !Before(After(w.loc, TreeOf(input)), w.own)))
  {
    hide Sound, After, Unshared;
    if RedirectRoom(w.loc, w.own) {
      RegrowsIff(mem, w, c.0, c.1);
      if Above(w.own, c.0) {
        Grows(w, input, c, cs);
        GoesOn(Writer(w.loc, c.1, w.own), input.target, cs);
      } else if Unshared(input.target) && AllSpacious(cs) {
        RegrowthHelps(mem, w, input, c, cs);
      }
    }
  }

  /** The smallest tree that is copied wrongly: with less than 16 bytes left for leaves, the
      second leaf of a node is written over the footer of the full chunk. */
  lemma TwoLeaves(mem: Mem, loc: Cursors, end: Cursors, input: SoaLayout, v: Word, a: Word, b: Word, c: Chunks, cs: seq<Chunks>)
    requires Writable3(mem, loc, end) && !Roomy(loc, end) && NewEnds(mem, c.0, c.1)
    requires input.AllIndirected? && TreeOf(input) == Node(v, Leaf(a), Leaf(b)) && Above(end, c.0)
    ensures Run(Here(loc, end), input, [c] + cs).Overrun? <==> end.leaves < loc.leaves + 16
  {
    assert LeavesOf(Leaf(a)) == LeavesOf(Leaf(b)) == 1 && InnersOf(Leaf(a)) == InnersOf(Leaf(b)) == 0;
    SoundRoom(mem, Here(loc, end));
    OverrunsIff(mem, Here(loc, end), input, c, cs);
  }

  function EndingOf(failed: bool, overrun: bool, w: Writer): Ending {
    if overrun then Overrun else if failed then Starved else Stand(w, [])
  }

  // Runs, put together.

  lemma RunFull(w: Writer, input: SoaLayout)
    requires !Roomy(w.loc, w.end)
    ensures Run(w, input, []) == if RedirectRoom(w.loc, w.own) then Starved else Overrun
  {
  }

  /** A call that grows at most once itself, and finds the chunks cs behind that. */
  lemma RunFrom(mem0: Mem, log0: Log, mem1: Mem, log1: Log, mem: Mem, log: Log, w: Writer, input: SoaLayout,
                got: seq<Chunks>, cs: seq<Chunks>, all: bool)
    requires Sound(mem0, w) && Got(mem0, log0, mem1, log1, got, true) && Got(mem1, log1, mem, log, cs, all)
    requires if Roomy(w.loc, w.end) then got == [] else |got| == 1 && RedirectRoom(w.loc, w.own)
    ensures Run(w, input, got + cs) == Steps(if got == [] then w else GrownTo(w, input, got[0]), input, cs)
    ensures Got(mem0, log0, mem, log, got + cs, all)
    ensures Unshared(input) && !w.Astray() ==> !Run(w, input, got + cs).Overrun?
    ensures Unshared(input) && !w.Astray() && Run(w, input, got + cs).Stand? ==> !Run(w, input, got + cs).w.Astray()
  {
    hide Steps, Sound, Got;
    if got == [] {
      assert got + cs == cs;
    } else {
      assert (got + cs)[1..] == cs;
    }
    SoundRoom(mem0, w);
    GotJoined(mem0, log0, mem1, log1, mem, log, got, cs, all);
    GotSpacious(mem0, log0, mem, log, got + cs, all);
    if Unshared(input) && !w.Astray() {
      NeverOverruns(w, input, got + cs);
    }
  }

  lemma StepsLeaf(w: Writer, input: SoaLayout)
    requires input.LeafCells?
    ensures Steps(w, input, []) == if LeafFits(w.loc, w.own) then Stand(w.To(w.loc.AfterLeaf()), []) else Overrun
  {
  }

  lemma StepsPointer(w: Writer, input: SoaLayout, cs: seq<Chunks>)
    ensures input.AllRedirected? ==> Steps(w, input, cs) == Run(w, input.rest, cs)
    ensures input.AllIndirected? ==> Steps(w, input, cs) == Run(w, input.target, cs)
  {
  }

  lemma StepsUnfit(w: Writer, input: SoaLayout)
    requires input.NodeCells? && !InnerFits(w.loc, w.own)
    ensures Steps(w, input, []) == Overrun
  {
  }

  lemma StepsLeft(w: Writer, input: SoaLayout, cs: seq<Chunks>)
    requires input.NodeCells? && InnerFits(w.loc, w.own) && !Run(w.To(w.loc.AfterInner()), input.left, cs).Stand?
    ensures Steps(w, input, cs) == Run(w.To(w.loc.AfterInner()), input.left, cs)
  {
  }

  lemma StepsNode(w: Writer, input: SoaLayout, cs: seq<Chunks>, w1: Writer, ds: seq<Chunks>)
    requires input.NodeCells? && InnerFits(w.loc, w.own) && Run(w.To(w.loc.AfterInner()), input.left, cs) == Stand(w1, [])
    ensures Steps(w, input, cs + ds) == Run(w1, input.right, ds)
  {
    RunMore(w.To(w.loc.AfterInner()), input.left, cs, ds);
    assert [] + ds == ds;
  }

  // The chunks a program has got.

  type Log = seq<GibChunk>

  function Parts(cs: seq<Chunks>): Log {
    if cs == [] then [] else PartsOf(cs[0]) + Parts(cs[1..])
  }

  lemma {:induction false} PartsAppend(cs: seq<Chunks>, ds: seq<Chunks>)
    ensures Parts(cs + ds) == Parts(cs) + Parts(ds)
  {
    if cs == [] {
      assert cs + ds == ds;
    } else {
      assert (cs + ds)[1..] == cs[1..] + ds;
      PartsAppend(cs[1..], ds);
    }
  }

  ghost predicate There(mem: Mem, c: Chunks) {
    && Allocated(mem, c.0.tags, FootEnd(c.1.tags) - c.0.tags)
    && Allocated(mem, c.0.leaves, FootEnd(c.1.leaves) - c.0.leaves)
    && Allocated(mem, c.0.inners, FootEnd(c.1.inners) - c.0.inners)
  }

  /** From mem0 and log0 on, the chunks cs have been allocated, and nothing else has been
      logged; when it has not got `all` chunks it needs, up to two parts of the next one. */
  ghost predicate Got(mem0: Mem, log0: Log, mem: Mem, log: Log, cs: seq<Chunks>, all: bool) {
    && (forall x :: x in mem0 ==> x in mem)
    && (forall c :: c in cs ==> NewEnds(mem0, c.0, c.1) && There(mem, c))
    && log0 + Parts(cs) <= log && |log| < |log0| + |Parts(cs)| + 3
    && (all ==> log == log0 + Parts(cs))
  }

  lemma GotNone(mem: Mem, mem': Mem, log: Log, log': Log, all: bool)
    requires forall x :: x in mem ==> x in mem'
    requires log <= log' && |log'| < |log| + 3 && (all ==> log' == log)
    ensures Got(mem, log, mem', log', [], all)
  {
  }

  lemma GotOne(mem: Mem, mem': Mem, log: Log, w: Writer, c: Chunks)
    requires GrownFrom3(mem, mem', w.loc, w.end, c.0, c.1)
    ensures Got(mem, log, mem', log + PartsOf(c), [c], true)
    ensures NewEnds(mem, c.0, c.1) && Roomy(c.0, c.1) && forall x :: x in mem ==> x in mem'
  {
    hide SameBut, NewChunks, Grown, Fresh3, Payload;
    SameExtends(mem, mem', Writer(w.loc, w.end, CellEnds(w.loc)));
    assert Parts([c]) == PartsOf(c) + Parts([]);
  }

  /** New chunks were new before, too. */
  lemma GotJoined(mem0: Mem, log0: Log, mem1: Mem, log1: Log, mem2: Mem, log2: Log, cs: seq<Chunks>, ds: seq<Chunks>, all: bool)
    requires Got(mem0, log0, mem1, log1, cs, true) && Got(mem1, log1, mem2, log2, ds, all)
    ensures Got(mem0, log0, mem2, log2, cs + ds, all)
  {
    PartsAppend(cs, ds);
    hide Parts;
    assert log0 + (Parts(cs) + Parts(ds)) == log1 + Parts(ds);
    forall c | c in cs + ds
      ensures NewEnds(mem0, c.0, c.1) && There(mem2, c)
    {
      assert c in cs ==> There(mem1, c);
      assert c in ds ==> NewEnds(mem1, c.0, c.1);
    }
  }

  lemma GotSpacious(mem0: Mem, log0: Log, mem: Mem, log: Log, cs: seq<Chunks>, all: bool)
    requires Got(mem0, log0, mem, log, cs, all)
    ensures AllSpacious(cs)
  {
  }

  /** The bounds check: where the copy goes on unless it is at an indirection, where it
      takes the new ends alone. */
  method MakeRoom(rt: Runtime, end: Cursors, loc: Cursors, arg: Cursors, own: Cursors, ghost input: SoaLayout)
    returns (r: Outcome<Writer>, ghost got: seq<Chunks>, ghost overrun: bool)
    requires rt.Valid() && Sound(rt.mem, Writer(loc, end, own))
    requires At(rt.mem, arg, input) && Avoids(arg, input, Writer(loc, end, own))
    modifies rt`mem, rt`failedAllocs, rt`grown
    ensures rt.failedAllocs == old(rt.failedAllocs) + (if r.Exit? && !overrun then 1 else 0)
    ensures overrun ==> r.Exit?
    ensures r.Exit? ==> got == [] && Run(Writer(loc, end, own), input, []) == EndingOf(true, overrun, Writer(loc, end, own))
    ensures Unshared(input) && own == end ==> !overrun
    ensures Got(old(rt.mem), old(rt.grown), rt.mem, rt.grown, got, r.Done? || overrun)
    ensures r.Done? && Roomy(loc, end) ==> got == [] && r.value == Writer(loc, end, own) && rt.mem == old(rt.mem)
    ensures r.Done? && !Roomy(loc, end) ==> RedirectRoom(loc, own) && got == [(r.value.loc, r.value.end)]
    ensures r.Done? && !Roomy(loc, end) ==>
              r.value.own == r.value.end && GrownFrom3(old(rt.mem), rt.mem, loc, end, r.value.loc, r.value.end)
    ensures r.Done? ==> rt.Valid() && Roomy(r.value.loc, r.value.end) && At(rt.mem, arg, input)
    ensures r.Done? ==> Sound(rt.mem, r.value) && Avoids(arg, input, r.value)
    ensures r.Done? ==> Sound(rt.mem, Writer(loc, r.value.end, own)) && Avoids(arg, input, Writer(loc, r.value.end, own))
  {
    hide SameBut, Sound, Moved, GrownFrom3, GrowReady, Writable3, At, Avoids, LoadWord, NewEnds, RedirectRoom, Redirectable;
    hide Run, Steps, Got, Parts, Unshared;
    ghost var w := Writer(loc, end, own);
    got, overrun := [], false;
    SoundRoom(rt.mem, w);
    GotNone(rt.mem, rt.mem, rt.grown, rt.grown, true);
    if loc.inners + 17 > end.inners || loc.leaves + 17 > end.leaves || loc.tags + 34 > end.tags {
      RunFull(w, input);
      if !RedirectRoom(loc, own) {
        r, overrun := Exit, true;
        return;
      }
      SoundReady(rt.mem, w);
      var grown := GrowAll(rt, loc, end);
      if grown.Exit? {
        GotNone(old(rt.mem), rt.mem, old(rt.grown), rt.grown, false);
        r := Exit;
        return;
      }
      var chunks := grown.value;
      got := [chunks];
      GotOne(old(rt.mem), rt.mem, old(rt.grown), w, chunks);
      StrayedSound(old(rt.mem), rt.mem, w, chunks.0, chunks.1);
      SoundHere(rt.mem, chunks.0, chunks.1);
      GrownInputKept(old(rt.mem), rt.mem, arg, input, w, chunks.0, chunks.1);
      r := Done(Writer(chunks.0, chunks.1, chunks.1));
    } else {
      r := Done(Writer(loc, end, own));
    }
  }

  /** own are the footers of the chunks loc stands in, for the model to stop with `overrun`
      where the program would write over one of them; cs are the chunks it has got when it
      ends. The value can be read from `start` as well, with layout s. */
  method CopyTree(rt: Runtime, inEnd: Cursors, end: Cursors, loc: Cursors, arg: Cursors, own: Cursors, ghost input: SoaLayout)
    returns (r: Outcome<Copied>, own': Cursors, ghost l: SoaLayout, ghost g: SoaLayout, ghost s: SoaLayout,
             ghost cs: seq<Chunks>, ghost overrun: bool)
    requires rt.Valid() && Sound(rt.mem, Writer(loc, end, own))
    requires At(rt.mem, arg, input) && Avoids(arg, input, Writer(loc, end, own))
    modifies rt`mem, rt`failedAllocs, rt`grown
    ensures old(rt.failedAllocs) <= rt.failedAllocs <= old(rt.failedAllocs) + 1
    ensures r.Exit? <==> rt.failedAllocs > old(rt.failedAllocs) || overrun
    // overrunning
    ensures Run(Writer(loc, end, own), input, cs) ==
            EndingOf(r.Exit?, overrun, if r.Done? then Writer(r.value.cur, r.value.end, own') else Writer(loc, end, own))
    ensures Got(old(rt.mem), old(rt.grown), rt.mem, rt.grown, cs, r.Done? || overrun)
    ensures Unshared(input) && own == end ==> !overrun
    // copying
    ensures r.Done? ==> rt.Valid()
    ensures r.Done? ==> Wrote(old(rt.mem), rt.mem, Writer(loc, end, own), Writer(r.value.cur, r.value.end, own'), l, g)
    ensures r.Done? ==> TreeOf(l) == TreeOf(input)
    ensures r.Done? ==> r.value.inCur == EndOf(arg, input) && r.value.inEnd == ReportedEnds(inEnd, input)
    ensures r.Done? ==> At(rt.mem, r.value.start, s) && TreeOf(s) == TreeOf(input) && EndOf(r.value.start, s) == r.value.cur
    ensures r.Done? && Unshared(input) ==> l == g
    ensures r.Done? && Unshared(input) && own == end ==>
              own' == r.value.end && Paced(loc, end, l) && FootersAfter(end, l) == r.value.end
    ensures r.Done? && Unshared(input) && own == end ==> Written(old(rt.mem), rt.mem, loc, end, r.value.cur, r.value.end, l)
    decreases input, 1
  {
    hide SameBut, Sound, Moved, Wrote, GrownFrom3, GrowReady, Writable3, RedirectionWord, At, Avoids, LoadWord, NewEnds, Fits;
    hide TagAt, WordAt, Pointers, RedirectRoom, LeafFits, InnerFits, Redirectable, Run, Steps, Got, Parts;
    hide TreeOf, EndOf, ReportedEnds, Unshared, Paced, FootersAfter;
    l, g, s, own', overrun, cs := LeafCells(0), LeafCells(0), LeafCells(0), own, false, [];
    ghost var w := Writer(loc, end, own);
    Cases(input, arg, inEnd);
    var made, got, short := MakeRoom(rt, end, loc, arg, own, input);
    if made.Exit? {
      r, overrun := Exit, short;
      return;
    }
    var loc1, end1, own1 := made.value.loc, made.value.end, made.value.own;
    ghost var mem1, log1, w1 := rt.mem, rt.grown, made.value;
    Reads(mem1, arg, input);
    var tag := rt.mem[arg.tags];
    if tag == LEAF_TAG {
      r, l, overrun := CopyLeaf(rt, inEnd, end1, loc1, arg, own1, input);
      r := if r.Exit? then Exit else Done(r.value.(start := loc));
      own', g := own1, l;
    } else if tag == INNER_TAG {
      r, own', l, g, cs, overrun := CopyNode(rt, inEnd, end1, loc1, arg, own1, input);
      r := if r.Exit? then Exit else Done(r.value.(start := loc));
    } else if tag == GIB_INDIRECTION_TAG {
      var targets := ReadPointers(rt.mem, arg, input);
      InnerAvoids(arg, input, Writer(loc, end1, own));
      var rec: Outcome<Copied>;
      rec, own', l, g, s, cs, overrun := CopyTree(rt, targets, end1, loc, targets, own, input.target);
      StepsPointer(Writer(loc, end1, own), input, cs);
      r := if rec.Exit? then Exit else Done(Copied(inEnd, rec.value.end, arg.Plus(9, 9, 9), rec.value.start, rec.value.cur));
    } else if tag == GIB_REDIRECTION_TAG {
      var targets := ReadPointers(rt.mem, arg, input);
      InnerAvoids(arg, input, w1);
      r, own', l, g, s, cs, overrun := CopyTree(rt, targets, end1, loc1, targets, own1, input.rest);
      StepsPointer(w1, input, cs);
    } else {
      r := Exit;
    }
    RunFrom(old(rt.mem), old(rt.grown), mem1, log1, rt.mem, rt.grown, w, input, got, cs, r.Done? || overrun);
    cs := got + cs;
    if r.Exit? {
      return;
    }
    ghost var w' := Writer(r.value.cur, r.value.end, own');
    l, g := WroteFrom(old(rt.mem), mem1, rt.mem, w, got != [], tag == GIB_INDIRECTION_TAG, loc1, end1, w', l, g);
    if tag == LEAF_TAG || tag == INNER_TAG {
      s := l;
    }
    WroteHere(old(rt.mem), rt.mem, w, w', l, g);
  }

  /** What is written after growing, astray or not, as seen from before. */
  lemma WroteFrom(mem0: Mem, mem1: Mem, mem2: Mem, w: Writer, full: bool, astray: bool, loc1: Cursors, end1: Cursors,
                  w': Writer, l: SoaLayout, g: SoaLayout) returns (l': SoaLayout, g': SoaLayout)
    requires Sound(mem0, w)
    requires full ==> RedirectRoom(w.loc, w.own) && GrownFrom3(mem0, mem1, w.loc, w.end, loc1, end1)
    requires !full ==> mem1 == mem0 && loc1 == w.loc && end1 == w.end
    requires full <==> !Roomy(w.loc, w.end)
    requires Wrote(mem1, mem2, if !full then w else if astray then Writer(w.loc, end1, w.own) else Here(loc1, end1), w', l, g)
    ensures Wrote(mem0, mem2, w, w', l', g') && TreeOf(l') == TreeOf(l)
    ensures At(mem2, w.loc, l') && EndOf(w.loc, l') == w'.loc
    ensures !astray && l == g ==> l' == g'
    ensures !astray && Paced(loc1, end1, l) && FootersAfter(end1, l) == w'.end ==>
              Paced(w.loc, w.end, l') && FootersAfter(w.end, l') == w'.end
  {
    hide Wrote, At, EndOf, Sound, GrownFrom3, RedirectRoom, Redirectable, Paced, FootersAfter, Roomy;
    l', g' := l, g;
    if full && astray {
      StrayWritten(mem0, mem1, mem2, w, loc1, end1, w', l, g);
      GrownTargets(mem0, mem1, w.loc, w.end, loc1, end1);
      g' := Redirected(loc1, end1, g);
    } else if full {
      GrownWritten(mem0, mem1, mem2, w, loc1, end1, w', l, g);
      GrownTargets(mem0, mem1, w.loc, w.end, loc1, end1);
      l', g' := Redirected(loc1, end1, l), Redirected(loc1, end1, g);
      if Paced(loc1, end1, l) {
        PacedGrown(w.loc, w.end, loc1, end1, l, FootersAfter(end1, l));
      }
    }
    WroteReads(mem0, mem2, w, w', l', g');
  }

  lemma GrownTargets(mem: Mem, mem': Mem, loc: Cursors, end: Cursors, loc': Cursors, end': Cursors)
    requires GrownFrom3(mem, mem', loc, end, loc', end')
    ensures Redirectable(loc', end')
  {
    hide SameBut, Grown, NewChunks;
  }

  /** What a value means, and where it ends, case by case. */
  lemma Cases(l: SoaLayout, c: Cursors, ends: Cursors)
    ensures l.LeafCells? ==> TreeOf(l) == Leaf(l.v) && EndOf(c, l) == c.AfterLeaf() && ReportedEnds(ends, l) == ends
    ensures l.NodeCells? ==>
      && TreeOf(l) == Node(l.v, TreeOf(l.left), TreeOf(l.right)) && EndOf(c, l) == EndOf(EndOf(c.AfterInner(), l.left), l.right)
      && ReportedEnds(ends, l) == ReportedEnds(ReportedEnds(ends, l.left), l.right)
      && (Unshared(l) <==> Unshared(l.left) && Unshared(l.right))
    ensures l.AllRedirected? ==>
      && TreeOf(l) == TreeOf(l.rest) && EndOf(c, l) == EndOf(Targets(l), l.rest)
      && ReportedEnds(ends, l) == ReportedEnds(Targets(l), l.rest) && (Unshared(l) <==> Unshared(l.rest))
    ensures l.AllIndirected? ==>
      && TreeOf(l) == TreeOf(l.target) && EndOf(c, l) == c.Plus(NODE_SIZE, NODE_SIZE, NODE_SIZE)
      && ReportedEnds(ends, l) == ends && !Unshared(l)
  {
  }

  /** The case of a leaf, behind the bounds check. */
  method CopyLeaf(rt: Runtime, inEnd: Cursors, end: Cursors, loc: Cursors, arg: Cursors, own: Cursors, ghost input: SoaLayout)
    returns (r: Outcome<Copied>, ghost l: SoaLayout, ghost overrun: bool)
    requires rt.Valid() && Sound(rt.mem, Writer(loc, end, own)) && Roomy(loc, end)
    requires input.LeafCells? && At(rt.mem, arg, input)
    modifies rt`mem
    ensures r.Exit? <==> overrun
    ensures Steps(Writer(loc, end, own), input, []) ==
            EndingOf(r.Exit?, overrun, if r.Done? then Writer(r.value.cur, r.value.end, own) else Writer(loc, end, own))
    ensures Got(old(rt.mem), rt.grown, rt.mem, rt.grown, [], true)
    ensures r.Done? ==> rt.Valid()
    ensures r.Done? ==> Wrote(old(rt.mem), rt.mem, Writer(loc, end, own), Writer(r.value.cur, r.value.end, own), l, l)
    ensures r.Done? ==> TreeOf(l) == TreeOf(input) && Paced(loc, end, l) && FootersAfter(end, l) == end == r.value.end
    ensures r.Done? ==> r.value.inCur == EndOf(arg, input) && r.value.inEnd == ReportedEnds(inEnd, input)
  {
    hide SameBut, Sound, Moved, Wrote, At, Avoids, LoadWord, Fits, TagAt, WordAt, Roomy, LeafFits, Run, Steps, Got;
    hide TreeOf, EndOf, ReportedEnds, Unshared, Paced, FootersAfter;
    ghost var mem0, w := rt.mem, Writer(loc, end, own);
    l, overrun := LeafCells(0), false;
    StepsLeaf(w, input);
    GotNone(mem0, mem0, rt.grown, rt.grown, true);
    if !LeafFits(loc, own) {
      r, overrun := Exit, true;
      return;
    }
    Cases(input, arg, inEnd);
    Reads(mem0, arg, input);
    FitsNode(mem0, w);
    var v := WordOfCell(rt.mem, arg.leaves, input.v);
    WriteLeaf(rt, loc, w, v);
    l := LeafCells(v);
    PacedLeaf(loc, end, v);
    Cases(l, arg, inEnd);
    WroteInside(mem0, rt.mem, w, w.To(loc.AfterLeaf()), l, l);
    GotNone(mem0, rt.mem, rt.grown, rt.grown, true);
    r := Done(Copied(inEnd, end, Cursors(arg.tags + 1, arg.leaves + 8, arg.inners), loc, loc.AfterLeaf()));
  }

  /** The case of an inner node, behind the bounds check. */
  method CopyNode(rt: Runtime, inEnd: Cursors, end: Cursors, loc: Cursors, arg: Cursors, own: Cursors, ghost input: SoaLayout)
    returns (r: Outcome<Copied>, own': Cursors, ghost l: SoaLayout, ghost g: SoaLayout, ghost cs: seq<Chunks>, ghost overrun: bool)
    requires rt.Valid() && Sound(rt.mem, Writer(loc, end, own)) && Roomy(loc, end)
    requires input.NodeCells? && At(rt.mem, arg, input) && Avoids(arg, input, Writer(loc, end, own))
    modifies rt`mem, rt`failedAllocs, rt`grown
    ensures old(rt.failedAllocs) <= rt.failedAllocs <= old(rt.failedAllocs) + 1
    ensures r.Exit? <==> rt.failedAllocs > old(rt.failedAllocs) || overrun
    ensures Steps(Writer(loc, end, own), input, cs) ==
            EndingOf(r.Exit?, overrun, if r.Done? then Writer(r.value.cur, r.value.end, own') else Writer(loc, end, own))
    ensures Got(old(rt.mem), old(rt.grown), rt.mem, rt.grown, cs, r.Done? || overrun)
    ensures r.Done? ==> rt.Valid()
    ensures r.Done? ==> Wrote(old(rt.mem), rt.mem, Writer(loc, end, own), Writer(r.value.cur, r.value.end, own'), l, g)
    ensures r.Done? ==> TreeOf(l) == TreeOf(input)
    ensures r.Done? ==> r.value.inCur == EndOf(arg, input) && r.value.inEnd == ReportedEnds(inEnd, input)
    ensures r.Done? && Unshared(input) ==> l == g
    ensures r.Done? && Unshared(input) && own == end ==>
              own' == r.value.end && Paced(loc, end, l) && FootersAfter(end, l) == r.value.end
    decreases input, 0
  {
    hide SameBut, Sound, Moved, Wrote, At, Avoids, LoadWord, Fits, TagAt, WordAt, Roomy, InnerFits, Run, Steps, Got;
    hide TreeOf, EndOf, ReportedEnds, Unshared, Paced, FootersAfter;
    l, g, own', cs, overrun := LeafCells(0), LeafCells(0), own, [], false;
    ghost var mem1, log1, w := rt.mem, rt.grown, Writer(loc, end, own);
    GotNone(mem1, mem1, log1, log1, true);
    if !InnerFits(loc, own) {
      StepsUnfit(w, input);
      r, overrun := Exit, true;
      return;
    }
    Cases(input, arg, inEnd);
    Reads(mem1, arg, input);
    FitsNode(mem1, w);
    var v := WordOfCell(rt.mem, arg.inners, input.v);
    WriteInner(rt, loc, w, v);
    ghost var memH, wH := rt.mem, w.To(loc.AfterInner());
    SameExtends(mem1, memH, w);
    GotNone(mem1, memH, log1, log1, true);
    ChildrenKept(mem1, memH, arg, input, w, wH);
    var left, ownL, leftLayout, leftGrown, _, leftChunks, leftOverrun :=
      CopyTree(rt, inEnd, end, loc.AfterInner(), arg.AfterInner(), own, input.left);
    GotJoined(mem1, log1, memH, log1, rt.mem, rt.grown, [], leftChunks, left.Done? || leftOverrun);
    cs, overrun := [] + leftChunks, leftOverrun;
    assert cs == leftChunks;
    if left.Exit? {
      StepsLeft(w, input, leftChunks);
      r := Exit;
      return;
    }
    ghost var memL, logL, wL := rt.mem, rt.grown, Writer(left.value.cur, left.value.end, ownL);
    WrittenChildrenKept(memH, memL, arg, input, wH, wL, leftLayout, leftGrown);
    WroteReads(memH, memL, wH, wL, leftLayout, leftGrown);
    WroteInside(memH, memL, wH, wL, leftLayout, leftGrown);
    var right, ownR, rightLayout, rightGrown, _, rightChunks, rightOverrun :=
      CopyTree(rt, left.value.inEnd, left.value.end, left.value.cur, left.value.inCur, ownL, input.right);
    GotJoined(mem1, log1, memL, logL, rt.mem, rt.grown, leftChunks, rightChunks, right.Done? || rightOverrun);
    StepsNode(w, input, leftChunks, wL, rightChunks);
    cs, overrun := leftChunks + rightChunks, rightOverrun;
    if right.Exit? {
      r := Exit;
      return;
    }
    ghost var wR := Writer(right.value.cur, right.value.end, ownR);
    NodeWritten(mem1, memH, memL, rt.mem, w, v, wL, leftLayout, leftGrown, wR, rightLayout, rightGrown);
    l, g, own' := NodeCells(v, leftLayout, rightLayout), NodeCells(v, leftGrown, rightGrown), ownR;
    Cases(l, arg, inEnd);
    if Unshared(input) && own == end {
      WroteReads(memH, memL, wH, wL, leftLayout, leftGrown);
      PacedNode(loc, end, v, leftLayout, left.value.end, rightLayout, right.value.end);
    }
    r := right;
  }

  lemma WroteHere(mem: Mem, mem': Mem, w: Writer, w': Writer, l: SoaLayout, g: SoaLayout)
    requires Wrote(mem, mem', w, w', l, g)
    ensures w.own == w.end && w'.own == w'.end && l == g && Paced(w.loc, w.end, l) && FootersAfter(w.end, l) == w'.end ==>
              Written(mem, mem', w.loc, w.end, w'.loc, w'.end, l)
  {
    hide Wrote, Paced, FootersAfter;
    if w.own == w.end && w'.own == w'.end && l == g {
      assert w == Here(w.loc, w.end) && w' == Here(w'.loc, w'.end);
    }
  }

  /** A writer that is told where it stands has room for a redirection, and for a node
      as long as it is not full. */
  lemma SoundRoom(mem: Mem, w: Writer)
    requires Sound(mem, w)
    ensures !w.Astray() ==> RedirectRoom(w.loc, w.own)
    ensures !w.Astray() && Roomy(w.loc, w.end) ==> LeafFits(w.loc, w.own) && InnerFits(w.loc, w.own)
  {
    hide LoadWord, Payload, Strayed;
  }

  lemma FitsNode(mem: Mem, w: Writer)
    requires Sound(mem, w) && Roomy(w.loc, w.end)
    ensures LeafFits(w.loc, w.own) ==> Fits(w, w.loc.AfterLeaf())
    ensures InnerFits(w.loc, w.own) ==> Fits(w, w.loc.AfterInner())
  {
    hide Sound, Sized;
    SoundStands(mem, w);
  }

  method WordOfCell(mem: Mem, a: int, ghost v: Word) returns (w: Word)
    requires WordAt(mem, a, v)
    ensures w == v
  {
    w := LoadWord(mem, a);
  }

  /** The three pointers of a redirection or an indirection. */
  method ReadPointers(mem: Mem, c: Cursors, ghost l: SoaLayout) returns (targets: Cursors)
    requires l.AllRedirected? || l.AllIndirected?
    requires Pointers(mem, c, l, if l.AllRedirected? then GIB_REDIRECTION_TAG else GIB_INDIRECTION_TAG)
    ensures targets == Targets(l)
  {
    hide LoadWord;
    var target0 := Untag(LoadWord(mem, c.tags + 1));
    var target1 := Untag(LoadWord(mem, c.leaves + 1));
    var target2 := Untag(LoadWord(mem, c.inners + 1));
    targets := Cursors(target0, target1, target2);
  }
}

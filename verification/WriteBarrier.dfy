/** gib_indirection_barrier: writing an indirection without building chains of them,
    and remembering the old-to-young ones, over whole runs of the mutator. */
module WriteBarrier {
  import opened Memory
  import opened Runtime
  import opened Chains
  import opened PackedTree

  /** One barrier call; l is the layout found at `to`. */
  datatype Call = Call(from: int, fromFooter: int, to: int, toFooter: int, dataType: nat, l: Layout)

  datatype State = State(mem: Mem, remSet: seq<Remembered>, oldToOld: seq<(int, int)>)

  // The pointee behind a chain of indirections: its address, footer and layout.

  function PointeeOf(to: int, l: Layout): int
    decreases l
  {
    if l.Indirected? then PointeeOf(Pointer(l.tagged), l.target) else to
  }

  function PointeeFooter(footer: int, l: Layout): int
    decreases l
  {
    if l.Indirected? then PointeeFooter(FooterOf(l.tagged), l.target) else footer
  }

  function Collapsed(l: Layout): Layout {
    if l.Indirected? then Collapsed(l.target) else l
  }

  lemma {:induction false} CollapsedMeans(mem: Mem, to: int, l: Layout)
    requires At(mem, to, l)
    ensures At(mem, PointeeOf(to, l), Collapsed(l)) && TreeOf(Collapsed(l)) == TreeOf(l)
    ensures PointeeOf(to, l) in mem && mem[PointeeOf(to, l)] != GIB_INDIRECTION_TAG
    decreases l
  {
    if l.Indirected? {
      CollapsedMeans(mem, Pointer(l.tagged), l.target);
    }
  }

  lemma {:induction false} CollapsedAvoids(to: int, l: Layout, lo: int, hi: int)
    requires Avoids(to, l, lo, hi)
    ensures Avoids(PointeeOf(to, l), Collapsed(l), lo, hi)
    decreases l
  {
    if l.Indirected? {
      CollapsedAvoids(Pointer(l.tagged), l.target, lo, hi);
    }
  }

  /** The word the barrier stores: the collapsed pointee and its footer offset. */
  function StoredWord(c: Call): (w: nat) {
    var to := PointeeOf(c.to, c.l);
    Tagged(to % POINTER_LIMIT, (PointeeFooter(c.toFooter, c.l) - to) % 0x1_0000)
  }

  lemma StoredWordPoints(c: Call)
    requires 0 <= c.to < POINTER_LIMIT
    ensures StoredWord(c) < WORD_LIMIT && Pointer(StoredWord(c)) == PointeeOf(c.to, c.l)
    ensures 0 <= PointeeFooter(c.toFooter, c.l) - PointeeOf(c.to, c.l) < 0x1_0000
        ==> FooterOf(StoredWord(c)) == PointeeFooter(c.toFooter, c.l)
  {
    PointeeInRange(c.to, c.l);
  }

  lemma StoredWordIs(c: Call)
    requires 0 <= c.to < POINTER_LIMIT
    ensures 0 <= PointeeOf(c.to, c.l) < POINTER_LIMIT && StoredWord(c) < WORD_LIMIT
    ensures StoredWord(c) == Tagged(PointeeOf(c.to, c.l), (PointeeFooter(c.toFooter, c.l) - PointeeOf(c.to, c.l)) % 0x1_0000)
  {
    StoredWordPoints(c);
    PointeeInRange(c.to, c.l);
  }

  lemma {:induction false} PointeeInRange(to: int, l: Layout)
    requires 0 <= to < POINTER_LIMIT
    ensures 0 <= PointeeOf(to, l) < POINTER_LIMIT
    decreases l
  {
    if l.Indirected? {
      PointeeInRange(Pointer(l.tagged), l.target);
    }
  }

  /** The value the barrier leaves at `from`. */
  function Written(c: Call): Layout
    requires 0 <= c.to < POINTER_LIMIT
  {
    StoredWordPoints(c);
    Indirected(StoredWord(c), Collapsed(c.l))
  }

  /** The barrier's demands: the pointee decodes, and the cell written is none of its bytes. */
  ghost predicate Ready(st: State, c: Call) {
    && 0 <= c.to < POINTER_LIMIT
    && Allocated(st.mem, c.from, NODE_SIZE)
    && At(st.mem, c.to, c.l)
    && Avoids(c.to, c.l, c.from, c.from + NODE_SIZE)
  }

  /** st' is st after the barrier call c. */
  ghost predicate Barrier(st: State, st': State, c: Call)
    requires 0 <= c.to < POINTER_LIMIT
  {
    var to := PointeeOf(c.to, c.l);
    && StoredWord(c) < WORD_LIMIT
    && Same(st.mem, st'.mem, c.from, c.from + NODE_SIZE)
    && Header(st'.mem, c.from, GIB_INDIRECTION_TAG, StoredWord(c))
    && st'.remSet == st.remSet + (if !InNursery(c.from) && InNursery(to) then [Remembered(c.from + 1, c.fromFooter, c.dataType)] else [])
    && st'.oldToOld == st.oldToOld + (if !InNursery(c.from) && !InNursery(to) then [(c.fromFooter, PointeeFooter(c.toFooter, c.l))] else [])
  }

  ghost function StateOf(rt: Runtime): State
    reads rt
  {
    State(rt.mem, rt.remSet, rt.oldToOld)
  }

  /** The loop of the barrier: from any decodable value, the first non-indirection. */
  method FollowIndirections(mem: Mem, to: int, toFooter: int, ghost l: Layout) returns (pointee: int, footer: int)
    requires At(mem, to, l)
    ensures pointee == PointeeOf(to, l) && footer == PointeeFooter(toFooter, l)
  {
    pointee, footer := to, toFooter;
    var pointedToTag := mem[pointee];
    ghost var rest := l;
    while pointedToTag == GIB_INDIRECTION_TAG
      invariant At(mem, pointee, rest) && pointedToTag == mem[pointee]
      invariant PointeeOf(pointee, rest) == PointeeOf(to, l)
      invariant PointeeFooter(footer, rest) == PointeeFooter(toFooter, l)
      decreases rest
    {
      var taggedPtr := LoadWord(mem, pointee + 1);
      pointee := Untag(taggedPtr);
      footer := pointee + Tag(taggedPtr);
      rest := rest.target;
      pointedToTag := mem[pointee];
    }
  }

  method IndirectionBarrier(rt: Runtime, from: int, fromFooter: int, to: int, toFooter: int, dataType: nat, ghost l: Layout)
    requires Ready(StateOf(rt), Call(from, fromFooter, to, toFooter, dataType, l))
    modifies rt`mem, rt`remSet, rt`oldToOld
    ensures Barrier(old(StateOf(rt)), StateOf(rt), Call(from, fromFooter, to, toFooter, dataType, l))
  {
    hide LoadWord, Avoids, At, PointeeOf, PointeeFooter, Collapsed, StoredWord, Tagged, Pointer, Tag, FooterOf;
    StoredWordIs(Call(from, fromFooter, to, toFooter, dataType, l));
    var pointee, footer := FollowIndirections(rt.mem, to, toFooter, l);
    var tagged := StoreTag(pointee, (footer - pointee) % 0x1_0000);
    rt.WriteNode(from, GIB_INDIRECTION_TAG, tagged);
    if !InNursery(from) {
      if InNursery(pointee) {
        rt.remSet := rt.remSet + [Remembered(from + 1, fromFooter, dataType)];
      } else {
        rt.oldToOld := rt.oldToOld + [(fromFooter, footer)];
      }
    }
  }

  /** One call: the new cell means what its argument meant. */
  lemma BarrierMeans(st: State, st': State, c: Call)
    requires Ready(st, c) && Barrier(st, st', c)
    ensures At(st'.mem, c.from, Written(c)) && TreeOf(Written(c)) == TreeOf(c.l)
    ensures !Written(c).target.Indirected?
    ensures Pointer(StoredWord(c)) in st'.mem && st'.mem[Pointer(StoredWord(c))] != GIB_INDIRECTION_TAG
  {
    StoredWordPoints(c);
    CollapsedMeans(st.mem, c.to, c.l);
    CollapsedAvoids(c.to, c.l, c.from, c.from + NODE_SIZE);
    FrameAt(st.mem, st'.mem, c.from, c.from + NODE_SIZE, PointeeOf(c.to, c.l), Collapsed(c.l));
    CollapsedMeans(st'.mem, PointeeOf(c.to, c.l), Collapsed(c.l));
  }

  // Runs. A value is tracked by its address and layout.

  datatype Value = Value(a: int, l: Layout)

  datatype Step =
    | Mutate(st': State, lo: int, hi: int)  // allocation, or ordinary writes inside [lo, hi)
    | Point(st': State, c: Call)            // a barrier call

  ghost predicate AllAt(mem: Mem, vs: seq<Value>) {
    forall v :: v in vs ==> At(mem, v.a, v.l)
  }

  ghost predicate AllAvoid(vs: seq<Value>, lo: int, hi: int) {
    forall v :: v in vs ==> Avoids(v.a, v.l, lo, hi)
  }

  /** A run from st in which no step writes into a tracked value; every barrier call
      adds the value it wrote to those that are tracked. */
  ghost predicate Run(st: State, vs: seq<Value>, steps: seq<Step>)
    decreases |steps|
  {
    steps == [] ||
    match steps[0]
    case Mutate(st', lo, hi) =>
      && Same(st.mem, st'.mem, lo, hi) && AllAvoid(vs, lo, hi)
      && st'.remSet == st.remSet
      && Run(st', vs, steps[1..])
    case Point(st', c) =>
      && Ready(st, c) && Barrier(st, st', c) && AllAvoid(vs, c.from, c.from + NODE_SIZE)
      && Run(st', vs + [Value(c.from, Written(c))], steps[1..])
  }

  function Final(st: State, steps: seq<Step>): State {
    if steps == [] then st else steps[|steps| - 1].st'
  }

  /** What a barrier call has achieved still holds in state st. */
  ghost predicate Lasting(st: State, c: Call) {
    && 0 <= c.to < POINTER_LIMIT
    && At(st.mem, c.from, Written(c)) && TreeOf(Written(c)) == TreeOf(c.l)
    && st.mem[c.from] == GIB_INDIRECTION_TAG && !Written(c).target.Indirected?
    && Pointer(Written(c).tagged) == PointeeOf(c.to, c.l)
    && PointeeOf(c.to, c.l) in st.mem && st.mem[PointeeOf(c.to, c.l)] != GIB_INDIRECTION_TAG
    && (!InNursery(c.from) && InNursery(PointeeOf(c.to, c.l)) ==>
          Remembered(c.from + 1, c.fromFooter, c.dataType) in st.remSet)
  }

  /** Over every run: values that were there keep their meaning, and each indirection
      written decodes to what it was given, points at no indirection, and is
      remembered if it leads from the old generation into the nursery. */
  lemma {:induction false} RunKeeps(st: State, vs: seq<Value>, steps: seq<Step>)
    requires AllAt(st.mem, vs) && Run(st, vs, steps)
    ensures AllAt(Final(st, steps).mem, vs)
    ensures forall s :: s in steps && s.Point? ==> Lasting(Final(st, steps), s.c)
    ensures forall e :: e in st.remSet ==> e in Final(st, steps).remSet
    decreases |steps|
  {
    hide At, Avoids, Lasting, Same, AllAvoid, Header, StoredWord;
    if steps != [] {
      var rest := steps[1..];
      match steps[0] {
        case Mutate(st', lo, hi) =>
          AllKept(st.mem, st'.mem, lo, hi, vs);
          RunKeeps(st', vs, rest);
        case Point(st', c) =>
          var v := Value(c.from, Written(c));
          BarrierMeans(st, st', c);
          AllKept(st.mem, st'.mem, c.from, c.from + NODE_SIZE, vs);
          RunKeeps(st', vs + [v], rest);
          assert v in vs + [v];
          LastingAfter(Final(st', rest), c, st'.remSet);
          assert forall u :: u in vs ==> u in vs + [v];
      }
      assert forall s :: s in steps ==> s == steps[0] || s in rest;
    }
  }

  lemma AllKept(mem: Mem, mem': Mem, lo: int, hi: int, vs: seq<Value>)
    requires AllAt(mem, vs) && Same(mem, mem', lo, hi) && AllAvoid(vs, lo, hi)
    ensures AllAt(mem', vs)
  {
    forall v | v in vs
      ensures At(mem', v.a, v.l)
    {
      FrameAt(mem, mem', lo, hi, v.a, v.l);
    }
  }

  lemma LastingAfter(st: State, c: Call, remSet: seq<Remembered>)
    requires 0 <= c.to < POINTER_LIMIT && At(st.mem, c.from, Written(c))
    requires TreeOf(Written(c)) == TreeOf(c.l)
    requires forall e :: e in remSet ==> e in st.remSet
    requires !InNursery(c.from) && InNursery(PointeeOf(c.to, c.l)) ==> Remembered(c.from + 1, c.fromFooter, c.dataType) in remSet
    ensures Lasting(st, c)
  {
    StoredWordPoints(c);
    CollapsedMeans(st.mem, PointeeOf(c.to, c.l), Collapsed(c.l));
    CollapsedStops(c.l);
  }

  lemma {:induction false} CollapsedStops(l: Layout)
    ensures !Collapsed(l).Indirected? && Collapsed(Collapsed(l)) == Collapsed(l)
  {
    if l.Indirected? {
      CollapsedStops(l.target);
    }
  }
}

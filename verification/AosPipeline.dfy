/** The measured pipeline of MonoTree: build a tree, add one everywhere into a second
    region, sum the result. */
module AosPipeline {
  import opened Memory
  import opened Outcomes
  import opened Runtime
  import opened Chains
  import opened PackedTree
  import opened Trees
  import opened AosWriters
  import opened AosTree
  import opened TreeSums

  /** The layout found at StartOf. */
  function Unwrapped(l: Layout): Layout {
    if l.Redirected? then Unwrapped(l.rest) else l
  }

  /** Skipping the redirections at the head of a value keeps its meaning. */
  lemma {:induction false} AtStart(mem: Mem, a: int, l: Layout, lo: int, hi: int)
    requires At(mem, a, l) && Avoids(a, l, lo, hi)
    ensures At(mem, StartOf(a, l), Unwrapped(l)) && Avoids(StartOf(a, l), Unwrapped(l), lo, hi)
    ensures TreeOf(Unwrapped(l)) == TreeOf(l)
    decreases l
  {
    if l.Redirected? {
      AtStart(mem, Pointer(l.tagged), l.rest, lo, hi);
    }
  }

  method SumOfIncremented(rt: Runtime, d: Word, acc: Word) returns (r: Outcome<Word>)
    requires rt.Valid()
    modifies rt`mem, rt`failedAllocs, rt`grown
    ensures rt.failedAllocs == old(rt.failedAllocs) + (if r.Exit? then 1 else 0)
    ensures r.Done? ==> r.value == Wrap(PipelineFormula(d, acc))
  {
    PipelineSum(d, acc);
    hide PipelineFormula, Wrap, Writable, GrownFrom, Header, Chain, FootersClear, Ended, FootEnd, LoadWord, RoundUp8, At, Avoids, MkSpec;
    var region1 :- rt.AllocRegion(GIB_INIT_CHUNK_SIZE);
    var made, l :- MkTree(rt, region1.end, region1.start, d, acc);
    ghost var memA := rt.mem;
    var region2 :- rt.AllocRegion(GIB_INIT_CHUNK_SIZE);
    RegionSwitch(memA, rt.mem, region1.start, l, made.cur, made.end, region2.start, region2.end);
    AtStart(rt.mem, region1.start, l, region2.start, FootEnd(region2.end));
    var mapped, l' :- Add1Tree(rt, made.end, region2.end, region2.start, made.start, Unwrapped(l));
    AtStart(rt.mem, region2.start, l', mapped.cur, FootEnd(mapped.end));
    var summed := SumTree(rt.mem, region2.end, mapped.start, Unwrapped(l'));
    r := Done(summed.sum);
  }

  lemma RegionSwitch(mem: Mem, mem': Mem, a: int, l: Layout, loc: int, end: int, loc': int, end': int)
    requires At(mem, a, l) && Avoids(a, l, loc, FootEnd(end))
    requires Same(mem, mem', 0, 0) && Fresh(mem, loc', FootEnd(end')) && loc' < end'
    ensures At(mem', a, l) && Avoids(a, l, loc', FootEnd(end'))
  {
    hide At, Avoids;
    InputKept(mem, mem', a, l, loc, end, loc', end');
  }
}

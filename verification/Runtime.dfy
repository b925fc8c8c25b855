/** The region allocator and its growth path (gib_grow_region, built with eager
    promotion: a chunk may lie in the nursery, every new one comes from the heap). */
module Runtime {
  import opened Memory
  import opened Outcomes

  const GIB_REDIRECTION_TAG: Byte := 255
  const GIB_INDIRECTION_TAG: Byte := 254
  const GIB_INIT_CHUNK_SIZE := 512
  const GIB_MAX_CHUNK_SIZE := 65500
  const FOOTER_SIZE := 24   // reg_info, size, next
  const REG_INFO_SIZE := 32 // id, refcount, outset, first_chunk_footer
  const NODE_SIZE := 9      // a tag byte and an 8-byte payload

  // The nursery: nursery->heap_start and nursery->heap_end, whatever they are.

  const NURSERY_START: int
  const NURSERY_END: int
  const NURSERY_FOOTER_SIZE := 2 // size

  // Nursery chunks must leave the chunk they grow into room for a node, and their
  // footer offset must fit the 16 bits of a tagged pointer.
  const MIN_NURSERY_CHUNK := 29
  const MAX_NURSERY_CHUNK := 32776

  /** gib_addr_in_nursery */
  predicate InNursery(a: int) {
    NURSERY_START <= a <= NURSERY_END
  }

  function FooterSize(end: int): (n: nat)
    ensures 2 <= n <= FOOTER_SIZE
  {
    if InNursery(end) then NURSERY_FOOTER_SIZE else FOOTER_SIZE
  }

  /** The address behind a chunk's footer. */
  function FootEnd(end: int): (e: int)
    ensures end + 2 <= e <= end + FOOTER_SIZE
  {
    end + FooterSize(end)
  }

  /** The size gib_grow_region asks for, footer included, before rounding up. */
  function GrownSize(inNursery: bool, oldSize: nat): nat {
    if inNursery then 2 * oldSize
    else if 2 * (FOOTER_SIZE + oldSize) > GIB_MAX_CHUNK_SIZE then GIB_MAX_CHUNK_SIZE
    else 2 * (FOOTER_SIZE + oldSize)
  }

  /** Payload bytes of the chunk that replaces a chunk of the given payload size. */
  function GrownPayload(inNursery: bool, oldSize: nat): int {
    RoundUp8(GrownSize(inNursery, oldSize)) - FOOTER_SIZE
  }

  /** A chunk grown from an old-generation chunk has at least twice the old payload or
      is of maximal size; its footer offset fits the 16 bits of a tagged pointer. */
  lemma GrownPayloadBounds(oldSize: nat)
    ensures FOOTER_SIZE <= GrownPayload(false, oldSize) <= 65504 - FOOTER_SIZE
    ensures GrownPayload(false, oldSize) >= 2 * oldSize || GrownPayload(false, oldSize) == 65504 - FOOTER_SIZE
  {
  }

  /** From either kind of chunk: room for a tag and a redirection in all buffers. */
  lemma GrownRoom(inNursery: bool, oldSize: nat)
    requires if inNursery then MIN_NURSERY_CHUNK <= oldSize <= MAX_NURSERY_CHUNK else NODE_SIZE <= oldSize
    ensures 34 <= GrownPayload(inNursery, oldSize) < 0x1_0000
  {
  }

  // The footer of an old-generation chunk sits right after its payload.

  function RegInfo(mem: Mem, end: int): Word
    requires Allocated(mem, end, FOOTER_SIZE)
  {
    LoadWord(mem, end)
  }

  function ChunkSize(mem: Mem, end: int): Word
    requires Allocated(mem, end, FOOTER_SIZE)
  {
    LoadWord(mem, end + 8)
  }

  function NextFooter(mem: Mem, end: int): Word
    requires Allocated(mem, end, FOOTER_SIZE)
  {
    LoadWord(mem, end + 16)
  }

  /** What the two-byte footer of a nursery chunk records. */
  function NurserySize(mem: Mem, end: int): nat
    requires Allocated(mem, end, NURSERY_FOOTER_SIZE)
  {
    var low: int, high: int := mem[end], mem[end + 1];
    low + 256 * high
  }

  /** The payload bytes a footer records. */
  function Payload(mem: Mem, end: int): nat
    requires Allocated(mem, end, FooterSize(end))
  {
    if InNursery(end) then NurserySize(mem, end) else ChunkSize(mem, end)
  }

  /** Where data may be written (from start) and where the footer begins (end). */
  datatype GibChunk = GibChunk(start: int, end: int)

  /** loc is a write cursor in a chunk with footer end: the chunk is allocated from
      loc on, footer included, and has room for at least one redirection. */
  ghost predicate Writable(mem: Mem, loc: int, end: int) {
    && loc + NODE_SIZE <= end
    && Allocated(mem, loc, FootEnd(end) - loc)
    && end - loc <= Payload(mem, end) <= end < POINTER_LIMIT
    && (InNursery(end) ==> MIN_NURSERY_CHUNK <= Payload(mem, end) <= MAX_NURSERY_CHUNK)
  }

  /** A footer gib_grow_region can go on from: for a smaller nursery chunk the new chunk
      would be smaller than its own footer. */
  ghost predicate Growable(mem: Mem, end: int) {
    Allocated(mem, end, FooterSize(end)) && (InNursery(end) ==> NODE_SIZE <= NurserySize(mem, end))
  }

  /** The chunk behind it will have room for a node in every buffer, and a footer offset
      that fits a tagged pointer. */
  ghost predicate Sized(mem: Mem, end: int) {
    && Allocated(mem, end, FooterSize(end))
    && (if InNursery(end) then MIN_NURSERY_CHUNK <= Payload(mem, end) <= MAX_NURSERY_CHUNK else NODE_SIZE <= Payload(mem, end))
  }

  /** The write cursor moved from (loc, end) to (loc', end'): forward in its chunk,
      or into a chunk that did not exist before. */
  ghost predicate Advanced(mem: Mem, loc: int, end: int, loc': int, end': int) {
    (end' == end && loc <= loc') || Fresh(mem, loc', FootEnd(end'))
  }

  /** A remembered-set entry: the address of an indirection's pointer word. */
  datatype Remembered = Remembered(addr: int, end: int, dataType: nat)

  class Runtime {
    var mem: Mem
    var remSet: seq<Remembered>
    var oldToOld: seq<(int, int)>   // arguments of the gib_add_old_to_old_indirection calls
    ghost var failedAllocs: nat     // how often malloc has returned NULL
    ghost var grown: seq<GibChunk>  // the chunks gib_grow_region has handed out

    /** The nursery, its end address included, belongs to the allocated memory. */
    ghost predicate Valid()
      reads this
    {
      forall a :: InNursery(a) ==> a in mem
    }

    constructor ()
      ensures Valid()
    {
      remSet, oldToOld := [], [];
      mem := Block(NURSERY_START, if NURSERY_START <= NURSERY_END then NURSERY_END + 1 - NURSERY_START else 0);
    }

    /** gib_alloc: any unused range below 2^48, or failure. */
    method Malloc(size: nat) returns (r: Outcome<nat>)
      modifies this`mem, this`failedAllocs
      ensures failedAllocs == old(failedAllocs) + (if r.Exit? then 1 else 0)
      ensures forall x :: x in old(mem) ==> x in mem
      ensures r.Exit? ==> mem == old(mem)
      ensures r.Done? ==> 0 < r.value && r.value + size <= POINTER_LIMIT
      ensures r.Done? ==> Fresh(old(mem), r.value, r.value + size)
      ensures r.Done? ==> Allocated(mem, r.value, size)
      ensures r.Done? ==> Same(old(mem), mem, 0, 0)
      ensures r.Done? ==> forall x :: x in mem ==> x in old(mem) || r.value <= x < r.value + size
    {
      var p: int := *;
      if p <= 0 || p + size > POINTER_LIMIT || exists x :: p <= x < p + size && x in mem {
        failedAllocs := failedAllocs + 1;
        return Exit;
      }
      mem := Block(p, size) + mem;
      r := Done(p);
    }

    /** Writes one packed node: the tag byte, then the payload. */
    method WriteNode(a: int, tag: Byte, w: Word)
      requires Allocated(mem, a, NODE_SIZE)
      modifies this`mem
      ensures Header(mem, a, tag, w)
      ensures Same(old(mem), mem, a, a + NODE_SIZE) && mem.Keys == old(mem).Keys
    {
      mem := mem[a := tag];
      mem := StoreWord(mem, a + 1, w);
    }

    /** Fills in a fresh chunk's footer. */
    method WriteFooter(end: int, regInfo: Word, size: Word)
      requires Allocated(mem, end, FOOTER_SIZE)
      modifies this`mem
      ensures mem.Keys == old(mem).Keys && Same(old(mem), mem, end, end + FOOTER_SIZE)
      ensures RegInfo(mem, end) == regInfo && ChunkSize(mem, end) == size && NextFooter(mem, end) == 0
    {
      var mem1 := StoreWord(mem, end, regInfo);
      var mem2 := StoreWord(mem1, end + 8, size);
      mem := StoreWord(mem2, end + 16, 0);
      FrameWord(mem2, mem, end + 16, end + 24, end + 8);
      FrameWord(mem1, mem, end + 8, end + 24, end);
    }

    /** Points a footer at the chunk that follows. */
    method LinkFooter(end: int, next: Word)
      requires Allocated(mem, end, FOOTER_SIZE)
      modifies this`mem
      ensures mem.Keys == old(mem).Keys && Same(old(mem), mem, end + 16, end + FOOTER_SIZE)
      ensures RegInfo(mem, end) == RegInfo(old(mem), end) && ChunkSize(mem, end) == ChunkSize(old(mem), end)
      ensures NextFooter(mem, end) == next
    {
      mem := StoreWord(mem, end + 16, next);
      FrameWord(old(mem), mem, end + 16, end + FOOTER_SIZE, end);
      FrameWord(old(mem), mem, end + 16, end + FOOTER_SIZE, end + 8);
    }

    /** gib_alloc_region_on_heap: the first chunk of a new region, with its own
        region information. */
    method AllocRegion(size: nat) returns (r: Outcome<GibChunk>)
      requires Valid() && FOOTER_SIZE + NODE_SIZE <= size
      modifies this`mem, this`failedAllocs
      ensures failedAllocs == old(failedAllocs) + (if r.Exit? then 1 else 0)
      ensures r.Done? ==> Valid() && NewRegion(old(mem), mem, r.value.start, r.value.end, RoundUp8(size))
      ensures r.Done? ==> Writable(mem, r.value.start, r.value.end)
    {
      var aligned := AlignUp(size);
      r := InitRegion(aligned);
    }

    /** A chunk of its own region: malloc, and the contract of gib_init_footer_at. */
    method InitRegion(size: nat) returns (r: Outcome<GibChunk>)
      requires Valid() && FOOTER_SIZE <= size
      modifies this`mem, this`failedAllocs
      ensures failedAllocs == old(failedAllocs) + (if r.Exit? then 1 else 0)
      ensures forall x :: x in old(mem) ==> x in mem
      ensures r.Done? ==> Valid() && NewRegion(old(mem), mem, r.value.start, r.value.end, size)
    {
      hide LoadWord, Same, Fresh, RegInfo, ChunkSize, NextFooter, NewRegion;
      var start :- Malloc(size);
      ghost var mem1 := mem;
      var end := start + size - FOOTER_SIZE;
      var regInfo :- Malloc(REG_INFO_SIZE);
      ghost var mem2 := mem;
      FreshOutside(old(mem), start, start + size, end);
      WriteFooter(end, regInfo, end - start);
      RegionMade(old(mem), mem1, mem2, mem, start, end, regInfo);
      r := Done(GibChunk(start, end));
    }

    /** Allocates the next chunk of a region, writes its footer and links the old
        footer to it. */
    method AllocChunk(end: int) returns (r: Outcome<GibChunk>)
      requires Valid() && !InNursery(end) && Allocated(mem, end, FOOTER_SIZE)
      modifies this`mem, this`failedAllocs
      ensures failedAllocs == old(failedAllocs) + (if r.Exit? then 1 else 0)
      ensures forall x :: x in old(mem) ==> x in mem
      ensures r.Done? ==> Linked(old(mem), mem, end, r.value.start, r.value.end)
    {
      hide LoadWord, RoundUp8, GrownSize, RegInfo, ChunkSize, NextFooter, Linked, Same, Fresh;
      var oldSize := ChunkSize(mem, end);
      var size := AlignUp(GrownSize(false, oldSize));
      GrownPayloadBounds(oldSize);
      var start :- Malloc(size);
      var end' := start + size - FOOTER_SIZE;
      ghost var mem1 := mem;
      FreshOutside(old(mem), start, end' + FOOTER_SIZE, end');
      FreshClear(old(mem), end, FOOTER_SIZE, start, end' + FOOTER_SIZE);
      FrameWords(old(mem), mem1, end, end, end);
      WriteFooter(end', RegInfo(mem, end), end' - start);
      ghost var mem2 := mem;
      FrameWords(mem1, mem2, end', end' + FOOTER_SIZE, end);
      LinkFooter(end, end');
      FrameWords(mem2, mem, end + 16, end + FOOTER_SIZE, end');
      ChunkLinked(old(mem), mem1, mem2, mem, end, start, end');
      r := Done(GibChunk(start, end'));
    }

    /** The first heap chunk behind a nursery chunk starts a region of its own; the
        nursery chunk is not linked to it. */
    method PromoteChunk(end: int) returns (r: Outcome<GibChunk>)
      requires Valid() && InNursery(end) && Growable(mem, end)
      modifies this`mem, this`failedAllocs
      ensures failedAllocs == old(failedAllocs) + (if r.Exit? then 1 else 0)
      ensures forall x :: x in old(mem) ==> x in mem
      ensures r.Done? ==> Linked(old(mem), mem, end, r.value.start, r.value.end)
    {
      var oldSize := NurserySize(mem, end);
      var size := AlignUp(GrownSize(true, oldSize));
      var chunk :- InitRegion(size);
      hide LoadWord, RoundUp8;
      r := Done(chunk);
    }

    /** gib_grow_region, on any footer and any cursor apart from it; the second part
        is for chunks whose successor a tagged pointer can name. */
    method GrowRegion(loc: int, end: int) returns (r: Outcome<GibChunk>)
      requires Valid() && Growable(mem, end) && Allocated(mem, loc, NODE_SIZE) && Clear(loc, NODE_SIZE, end, FootEnd(end))
      modifies this`mem, this`failedAllocs, this`grown
      ensures failedAllocs == old(failedAllocs) + (if r.Exit? then 1 else 0)
      ensures grown == old(grown) + (if r.Done? then [r.value] else [])
      ensures forall x :: x in old(mem) ==> x in mem
      ensures r.Done? ==> Valid() && GrownAt(old(mem), mem, loc, end, r.value.start, r.value.end)
      ensures r.Done? && old(Sized(mem, end)) ==>
                && Grown(old(mem), mem, loc, end, r.value.start, r.value.end)
                && Writable(mem, r.value.start, r.value.end)
                && 0 < r.value.start < POINTER_LIMIT && r.value.start + 34 <= r.value.end < r.value.start + 0x1_0000
      ensures r.Done? && old(Writable(mem, loc, end)) ==> GrownFrom(old(mem), mem, loc, end, r.value.start, r.value.end)
    {
      hide LoadWord, GrownPayload, Fresh, Linked, GrownAt, Grown, GrownFrom, Writable, Sized;
      var chunk;
      if InNursery(end) {
        chunk := PromoteChunk(end);
      } else {
        chunk := AllocChunk(end);
      }
      if chunk.Exit? {
        return Exit;
      }
      var start, end' := chunk.value.start, chunk.value.end;
      ghost var mem1 := mem;
      LinkedFacts(old(mem), mem1, loc, end, start, end');
      var offset := (end' - start) % 0x1_0000;
      var tagged := StoreTag(start, offset);
      WriteNode(loc, GIB_REDIRECTION_TAG, tagged);
      LinkedGrown(old(mem), mem1, mem, loc, end, start, end');
      grown := grown + [GibChunk(start, end')];
      r := Done(GibChunk(start, end'));
    }
  }

  /** A fresh heap chunk of the given size, its region information fresh as well. */
  ghost predicate NewRegion(mem: Mem, mem': Mem, start: int, end: int, size: int) {
    && Same(mem, mem', 0, 0)
    && 0 < start && end + FOOTER_SIZE == start + size <= POINTER_LIMIT && !InNursery(end)
    && Fresh(mem, start, end + FOOTER_SIZE) && Allocated(mem', start, size)
    && Allocated(mem', end, FOOTER_SIZE)
    && ChunkSize(mem', end) == end - start && NextFooter(mem', end) == 0
    && Fresh(mem, RegInfo(mem', end), RegInfo(mem', end) + REG_INFO_SIZE)
  }

  /** mem0 -chunk-> mem1 -region information-> mem2 -footer-> mem3 */
  lemma RegionMade(mem0: Mem, mem1: Mem, mem2: Mem, mem3: Mem, start: int, end: int, regInfo: Word)
    requires Same(mem0, mem1, 0, 0) && Same(mem1, mem2, 0, 0) && Same(mem2, mem3, end, end + FOOTER_SIZE)
    requires 0 < start <= end + FOOTER_SIZE <= POINTER_LIMIT && !InNursery(end)
    requires Fresh(mem0, start, end + FOOTER_SIZE) && Allocated(mem1, start, end + FOOTER_SIZE - start)
    requires Fresh(mem1, regInfo, regInfo + REG_INFO_SIZE) && start <= end && Allocated(mem3, end, FOOTER_SIZE)
    requires RegInfo(mem3, end) == regInfo && ChunkSize(mem3, end) == end - start && NextFooter(mem3, end) == 0
    ensures NewRegion(mem0, mem3, start, end, end + FOOTER_SIZE - start)
  {
    hide LoadWord;
    SameStep(mem1, mem2, mem3, end, end + FOOTER_SIZE, end, end + FOOTER_SIZE);
    SameStep(mem0, mem1, mem3, 0, 0, end, end + FOOTER_SIZE);
  }

  /** Where growth may touch the old footer: its link, if it has one. */
  function LinkField(end: int): int {
    if InNursery(end) then FootEnd(end) else end + 16
  }

  /** The footers of consecutive chunks. Only old-generation ones are linked and share
      their region; behind a nursery chunk a new region starts. */
  ghost predicate Behind(mem: Mem, end: int, end': int) {
    && Allocated(mem, end, FooterSize(end)) && Allocated(mem, end', FOOTER_SIZE) && !InNursery(end')
    && (!InNursery(end) ==> NextFooter(mem, end) == end' && RegInfo(mem, end') == RegInfo(mem, end))
  }

  /** A footer keeps everything but its link. */
  ghost predicate FooterKept(mem: Mem, mem': Mem, end: int) {
    && Allocated(mem, end, FooterSize(end)) && Allocated(mem', end, FooterSize(end))
    && Payload(mem', end) == Payload(mem, end)
    && (!InNursery(end) ==> RegInfo(mem', end) == RegInfo(mem, end))
  }

  /** It keeps its link, too. */
  ghost predicate FooterSame(mem: Mem, mem': Mem, end: int) {
    FooterKept(mem, mem', end) && (!InNursery(end) ==> NextFooter(mem', end) == NextFooter(mem, end))
  }

  /** A fresh chunk (loc', end') has been put behind the chunk with footer end. */
  ghost predicate Linked(mem: Mem, mem': Mem, end: int, loc': int, end': int)
    requires Allocated(mem, end, FooterSize(end))
  {
    && Same(mem, mem', LinkField(end), FootEnd(end))
    && 0 < loc' && end' + FOOTER_SIZE <= POINTER_LIMIT
    && Fresh(mem, loc', end' + FOOTER_SIZE)
    && Allocated(mem', loc', end' + FOOTER_SIZE - loc')
    && Behind(mem', end, end') && FooterKept(mem, mem', end)
    && end' - loc' == ChunkSize(mem', end') == GrownPayload(InNursery(end), Payload(mem, end))
    && NextFooter(mem', end') == 0
  }

  lemma FreshOutside(mem: Mem, lo: int, hi: int, a: int)
    requires Fresh(mem, lo, hi) && lo <= a < hi
    ensures a !in mem
  {
  }

  /** mem0 -malloc-> mem1 -new footer-> mem2 -next link-> mem3 */
  lemma ChunkLinked(mem0: Mem, mem1: Mem, mem2: Mem, mem3: Mem, end: int, start: int, end': int)
    requires Allocated(mem0, end, FOOTER_SIZE) && !InNursery(end) && !InNursery(end')
    requires Same(mem0, mem1, 0, 0) && Fresh(mem0, start, end' + FOOTER_SIZE)
    requires Allocated(mem1, start, end' + FOOTER_SIZE - start) && Allocated(mem1, end, FOOTER_SIZE)
    requires 0 < start <= end' && end' + FOOTER_SIZE <= POINTER_LIMIT
    requires mem2.Keys == mem1.Keys && mem3.Keys == mem2.Keys
    requires Same(mem1, mem2, end', end' + FOOTER_SIZE) && Same(mem2, mem3, end + 16, end + FOOTER_SIZE)
    requires Allocated(mem3, end', FOOTER_SIZE) && Allocated(mem3, end, FOOTER_SIZE)
    requires end' - start == ChunkSize(mem3, end') == GrownPayload(false, ChunkSize(mem0, end))
    requires RegInfo(mem3, end') == RegInfo(mem0, end) == RegInfo(mem3, end)
    requires ChunkSize(mem3, end) == ChunkSize(mem0, end) && NextFooter(mem3, end) == end' && NextFooter(mem3, end') == 0
    ensures Linked(mem0, mem3, end, start, end')
  {
    hide LoadWord, GrownPayload;
  }

  /** The new chunk can be tagged, and the old cursor is still there. */
  lemma LinkedFacts(mem: Mem, mem': Mem, loc: int, end: int, loc': int, end': int)
    requires Allocated(mem, loc, NODE_SIZE) && Allocated(mem, end, FooterSize(end)) && Linked(mem, mem', end, loc', end')
    ensures 0 < loc' < POINTER_LIMIT && Allocated(mem', loc, NODE_SIZE) && forall x :: x in mem ==> x in mem'
  {
    hide LoadWord, GrownPayload;
  }

  /** Linking a fresh chunk and writing the redirection is one growth step. */
  lemma LinkedGrown(mem0: Mem, mem1: Mem, mem2: Mem, loc: int, end: int, loc': int, end': int)
    requires Growable(mem0, end) && Allocated(mem0, loc, NODE_SIZE) && Clear(loc, NODE_SIZE, end, FootEnd(end))
    requires Linked(mem0, mem1, end, loc', end') && Same(mem1, mem2, loc, loc + NODE_SIZE)
    requires 0 < loc' < POINTER_LIMIT && Header(mem2, loc, GIB_REDIRECTION_TAG, Tagged(loc', (end' - loc') % 0x1_0000))
    ensures GrownAt(mem0, mem2, loc, end, loc', end')
    ensures Sized(mem0, end) ==>
      && Grown(mem0, mem2, loc, end, loc', end') && Writable(mem2, loc', end')
      && loc' + 34 <= end' < loc' + 0x1_0000
    ensures Writable(mem0, loc, end) ==> GrownFrom(mem0, mem2, loc, end, loc', end')
  {
    hide LoadWord, GrownPayload, Tagged;
    RoomyPayload(mem0, end);
    FreshClear(mem0, loc, NODE_SIZE, loc', end' + FOOTER_SIZE);
    FrameFooter(mem1, mem2, loc, loc + NODE_SIZE, end);
    FrameFooter(mem1, mem2, loc, loc + NODE_SIZE, end');
    if Sized(mem0, end) {
      WordTagged(loc', end');
      if Writable(mem0, loc, end) {
        SameWider(mem0, mem1, LinkField(end), FootEnd(end), loc, FootEnd(end));
        SameStep(mem0, mem1, mem2, loc, FootEnd(end), loc, loc + NODE_SIZE);
      }
    }
  }

  lemma RoomyPayload(mem: Mem, end: int)
    requires Growable(mem, end)
    ensures GrownPayload(InNursery(end), Payload(mem, end)) >= 0
    ensures Sized(mem, end) ==> 34 <= GrownPayload(InNursery(end), Payload(mem, end)) < 0x1_0000
    ensures forall loc :: Writable(mem, loc, end) ==> Sized(mem, end)
  {
    hide LoadWord;
  }

  /** What gib_grow_region needs, at any write cursor. */
  lemma GrowableHere(mem: Mem, loc: int, end: int)
    requires Writable(mem, loc, end)
    ensures Growable(mem, end) && Sized(mem, end) && Allocated(mem, loc, NODE_SIZE) && Clear(loc, NODE_SIZE, end, FootEnd(end))
  {
    hide LoadWord;
  }

  lemma WordTagged(start: int, end: int)
    requires 0 <= start < POINTER_LIMIT && start <= end < start + 0x1_0000
    ensures Tagged(start, (end - start) % 0x1_0000) == RedirectionWord(start, end)
  {
  }

  lemma ClearAdvanced(mem: Mem, a: int, n: nat, loc: int, end: int, loc': int, end': int)
    requires Allocated(mem, a, n) && n > 0 && Clear(a, n, loc, FootEnd(end))
    requires Advanced(mem, loc, end, loc', end') && loc' < end'
    ensures Clear(a, n, loc', FootEnd(end'))
  {
    if end' != end || loc' < loc {
      FreshClear(mem, a, n, loc', FootEnd(end'));
    }
  }

  lemma FrameWords(mem: Mem, mem': Mem, lo: int, hi: int, end: int)
    requires Same(mem, mem', lo, hi) && Allocated(mem, end, FOOTER_SIZE) && Clear(end, FOOTER_SIZE, lo, hi)
    ensures Allocated(mem', end, FOOTER_SIZE)
    ensures RegInfo(mem', end) == RegInfo(mem, end)
    ensures ChunkSize(mem', end) == ChunkSize(mem, end)
    ensures NextFooter(mem', end) == NextFooter(mem, end)
  {
    FrameWord(mem, mem', lo, hi, end);
    FrameWord(mem, mem', lo, hi, end + 8);
    FrameWord(mem, mem', lo, hi, end + 16);
  }

  /** A footer outside a write window is untouched. */
  lemma FrameFooter(mem: Mem, mem': Mem, lo: int, hi: int, end: int)
    requires Same(mem, mem', lo, hi) && Allocated(mem, end, FooterSize(end)) && Clear(end, FooterSize(end), lo, hi)
    ensures FooterSame(mem, mem', end)
  {
    if !InNursery(end) {
      FrameWords(mem, mem', lo, hi, end);
    }
  }

  lemma AgreeFooter(mem: Mem, mem': Mem, end: int)
    requires Agree(mem, mem', end, FooterSize(end))
    ensures FooterSame(mem, mem', end)
  {
    if !InNursery(end) {
      AgreeWord(mem, mem', end);
      AgreeWord(mem, mem', end + 8);
      AgreeWord(mem, mem', end + 16);
    }
  }

  /** The word of a redirection to the chunk (start, end). */
  function RedirectionWord(start: int, end: int): (w: Word)
    requires 0 <= start < POINTER_LIMIT && start <= end < start + 0x1_0000
    ensures Pointer(w) == start && Tag(w) == end - start
  {
    Tagged(start, end - start)
  }

  ghost predicate RedirectsTo(mem: Mem, loc: int, start: int, end: int) {
    && 0 <= start < POINTER_LIMIT && start <= end < start + 0x1_0000
    && Header(mem, loc, GIB_REDIRECTION_TAG, RedirectionWord(start, end))
  }

  /** What one growth step does to memory, whatever the sizes: besides fresh memory only
      the cell at loc and the old footer change. */
  ghost predicate GrownAt(mem: Mem, mem': Mem, loc: int, end: int, loc': int, end': int) {
    && (forall x :: x in mem ==>
          x in mem' && (loc <= x < loc + NODE_SIZE || end <= x < FootEnd(end) || mem'[x] == mem[x]))
    && 0 < loc' <= end' && end' + FOOTER_SIZE <= POINTER_LIMIT
    && Fresh(mem, loc', end' + FOOTER_SIZE) && Allocated(mem', loc', end' + FOOTER_SIZE - loc')
    && Header(mem', loc, GIB_REDIRECTION_TAG, Tagged(loc', (end' - loc') % 0x1_0000))
    && Behind(mem', end, end') && FooterKept(mem, mem', end)
    && end' - loc' == ChunkSize(mem', end') == GrownPayload(InNursery(end), Payload(mem, end))
    && NextFooter(mem', end') == 0
  }

  /** The chunk (loc', end') continues the one that loc and end belong to. */
  ghost predicate Grown(mem: Mem, mem': Mem, loc: int, end: int, loc': int, end': int) {
    && Writable(mem', loc', end')
    && RedirectsTo(mem', loc, loc', end')
    && Behind(mem', end, end') && FooterKept(mem, mem', end)
    && end' - loc' == ChunkSize(mem', end') == GrownPayload(InNursery(end), Payload(mem, end))
    && NextFooter(mem', end') == 0
  }

  /** Growth of a chunk that loc is a write cursor in. */
  ghost predicate GrownFrom(mem: Mem, mem': Mem, loc: int, end: int, loc': int, end': int) {
    && Same(mem, mem', loc, FootEnd(end))
    && Fresh(mem, loc', FootEnd(end'))
    && Grown(mem, mem', loc, end, loc', end')
  }
}

/** Trees with a factored-out offset table over a chain of chunks: skip_bytes jumps
    over whole chunks, rightmost jumps over whole subtrees. */
module OffsetTable {
  import opened Memory

  const REDIRECTION_TAG: Byte := 110

  /** The footer fields skip_bytes reads. dataSize is filled in when the chunk is left. */
  datatype Footer = Footer(size: nat, dataSize: nat, next: int)

  type Footers = map<int, Footer>

  /** `ends` lists the footers of a region in order; only the last chunk is still open. */
  ghost predicate ChainOk(footers: Footers, ends: seq<int>) {
    ends != [] && forall i :: 0 <= i < |ends| ==> ChunkOk(footers, ends, i)
  }

  ghost predicate ChunkOk(footers: Footers, ends: seq<int>, i: nat)
    requires i < |ends|
  {
    && ends[i] in footers
    && var f := footers[ends[i]];
    && f.dataSize <= f.size
    && (if i + 1 < |ends| then (f.dataSize > 0 || i == 0) && f.next == ends[i + 1] else f.dataSize == 0)
  }

  /** The first chunk may have been left without any data; skip_bytes would take it for
      the last one. */
  ghost predicate HasData(footers: Footers, ends: seq<int>, i: nat)
    requires i < |ends| && ends[i] in footers
  {
    i + 1 < |ends| ==> footers[ends[i]].dataSize > 0
  }

  function Start(footers: Footers, end: int): int
    requires end in footers
  {
    end - footers[end].size
  }

  /** Where the data of a chunk that has been left ends. */
  function DataEnd(footers: Footers, end: int): int
    requires end in footers
  {
    Start(footers, end) + footers[end].dataSize
  }

  /** cur is in chunk i, or right behind its data. */
  ghost predicate InChunk(footers: Footers, ends: seq<int>, i: nat, cur: int)
    requires i < |ends| && ends[i] in footers
  {
    Start(footers, ends[i]) <= cur && (i + 1 < |ends| ==> cur <= DataEnd(footers, ends[i]))
  }

  /** Data bytes in the chunks before chunk i. */
  ghost function Before(footers: Footers, ends: seq<int>, i: nat): nat
    requires i <= |ends| && ChainOk(footers, ends)
  {
    if i == 0 then 0
    else
      assert ChunkOk(footers, ends, i - 1);
      Before(footers, ends, i - 1) + footers[ends[i - 1]].dataSize
  }

  /** The position of a cursor in the region's data, chunk borders forgotten. */
  ghost function Logical(footers: Footers, ends: seq<int>, i: nat, cur: int): int
    requires i < |ends| && ChainOk(footers, ends)
  {
    assert ChunkOk(footers, ends, i);
    Before(footers, ends, i) + cur - Start(footers, ends[i])
  }

  /** (end, cur) is a cursor of the region at logical position pos. */
  ghost predicate Lands(footers: Footers, ends: seq<int>, j: nat, end: int, cur: int, pos: int) {
    && j < |ends| && ChainOk(footers, ends) && ends[j] == end && end in footers
    && InChunk(footers, ends, j, cur) && Logical(footers, ends, j, cur) == pos
  }

  function SkipBytes(footers: Footers, end: int, cur: int, n: nat, ghost ends: seq<int>, ghost i: nat): (r: (int, int))
    requires ChainOk(footers, ends) && i < |ends| && ends[i] == end && end in footers && InChunk(footers, ends, i, cur)
    requires HasData(footers, ends, i)
    decreases |ends| - i
  {
    assert ChunkOk(footers, ends, i);
    var footer := footers[end];
    var unusedSpace := footer.size - footer.dataSize;
    var dataAfterCur := (end - unusedSpace) - cur;
    if n == 0 then (end, cur)
    else if footer.dataSize == 0 then (end, cur + n)
    else if dataAfterCur > n then (end, cur + n)
    else
      assert ChunkOk(footers, ends, i + 1);
      var nextEnd := footer.next;
      SkipBytes(footers, nextEnd, nextEnd - footers[nextEnd].size, n - dataAfterCur, ends, i + 1)
  }

  /** It ends n data bytes further on, on a data byte if it moves at all. */
  lemma {:induction false} Skips(footers: Footers, end: int, cur: int, n: nat, ends: seq<int>, i: nat) returns (j: nat)
    requires ChainOk(footers, ends) && i < |ends| && ends[i] == end && end in footers && InChunk(footers, ends, i, cur)
    requires HasData(footers, ends, i)
    ensures var r := SkipBytes(footers, end, cur, n, ends, i);
            && i <= j && Lands(footers, ends, j, r.0, r.1, Logical(footers, ends, i, cur) + n) && HasData(footers, ends, j)
            && (n > 0 || OnData(footers, ends, i, cur) ==> OnData(footers, ends, j, r.1))
    decreases |ends| - i
  {
    assert ChunkOk(footers, ends, i);
    var footer := footers[end];
    var dataAfterCur := DataEnd(footers, end) - cur;
    j := i;
    if n > 0 && footer.dataSize > 0 && dataAfterCur <= n {
      assert ChunkOk(footers, ends, i + 1);
      var nextEnd := footer.next;
      j := Skips(footers, nextEnd, Start(footers, nextEnd), n - dataAfterCur, ends, i + 1);
    }
  }

  /** The cursor is at a byte of the chunk's data, not behind it. */
  ghost predicate OnData(footers: Footers, ends: seq<int>, i: nat, cur: int)
    requires i < |ends| && ends[i] in footers
  {
    InChunk(footers, ends, i, cur) && (i + 1 < |ends| ==> cur < DataEnd(footers, ends[i]))
  }

  lemma {:induction false} BeforeGrows(footers: Footers, ends: seq<int>, i: nat, j: nat)
    requires ChainOk(footers, ends) && i < j < |ends|
    ensures ends[i] in footers && Before(footers, ends, i) + footers[ends[i]].dataSize <= Before(footers, ends, j)
    decreases j
  {
    assert ChunkOk(footers, ends, i) && ChunkOk(footers, ends, j - 1);
    if i + 1 < j {
      BeforeGrows(footers, ends, i, j - 1);
    }
  }

  /** A logical position belongs to one data byte. */
  lemma PlaceUnique(footers: Footers, ends: seq<int>, i: nat, cur: int, j: nat, cur': int)
    requires ChainOk(footers, ends) && i < |ends| && j < |ends| && ends[i] in footers && ends[j] in footers
    requires OnData(footers, ends, i, cur) && OnData(footers, ends, j, cur')
    requires Logical(footers, ends, i, cur) == Logical(footers, ends, j, cur')
    ensures i == j && cur == cur'
  {
    if i < j {
      BeforeGrows(footers, ends, i, j);
    } else if j < i {
      BeforeGrows(footers, ends, j, i);
    }
  }

  // Jumping over chunks is walking byte by byte.

  /** Behind a chunk's data the data goes on at the start of the next chunk. */
  function Settle(footers: Footers, end: int, cur: int): (int, int)
    requires end in footers
    requires footers[end].dataSize > 0 ==> footers[end].next in footers
  {
    if footers[end].dataSize > 0 && cur == DataEnd(footers, end)
    then (footers[end].next, Start(footers, footers[end].next)) else (end, cur)
  }

  function Walk(footers: Footers, end: int, cur: int, n: nat, ghost ends: seq<int>, ghost i: nat): (int, int)
    requires ChainOk(footers, ends) && i < |ends| && ends[i] == end && end in footers && InChunk(footers, ends, i, cur)
    requires HasData(footers, ends, i)
    decreases n
  {
    if n == 0 then (end, cur)
    else
      var j := Settled(footers, end, cur, ends, i);
      var next := Settle(footers, end, cur);
      Walk(footers, next.0, next.1 + 1, n - 1, ends, j)
  }

  ghost function Settled(footers: Footers, end: int, cur: int, ends: seq<int>, i: nat): (j: nat)
    requires ChainOk(footers, ends) && i < |ends| && ends[i] == end && end in footers && InChunk(footers, ends, i, cur)
    requires HasData(footers, ends, i)
    ensures footers[end].dataSize > 0 ==> footers[end].next in footers
    ensures var r := Settle(footers, end, cur);
            Lands(footers, ends, j, r.0, r.1, Logical(footers, ends, i, cur)) && OnData(footers, ends, j, r.1) && HasData(footers, ends, j)
  {
    assert ChunkOk(footers, ends, i);
    assert i + 1 < |ends| ==> ChunkOk(footers, ends, i + 1);
    if footers[end].dataSize > 0 && cur == DataEnd(footers, end) then
      assert Before(footers, ends, i + 1) == Before(footers, ends, i) + footers[end].dataSize;
      i + 1
    else i
  }

  lemma {:induction false} Walks(footers: Footers, end: int, cur: int, n: nat, ends: seq<int>, i: nat) returns (j: nat)
    requires ChainOk(footers, ends) && i < |ends| && ends[i] == end && end in footers && InChunk(footers, ends, i, cur)
    requires HasData(footers, ends, i)
    ensures var r := Walk(footers, end, cur, n, ends, i);
            Lands(footers, ends, j, r.0, r.1, Logical(footers, ends, i, cur) + n) && HasData(footers, ends, j)
    decreases n
  {
    j := i;
    if n > 0 {
      var k := Settled(footers, end, cur, ends, i);
      var next := Settle(footers, end, cur);
      j := Walks(footers, next.0, next.1 + 1, n - 1, ends, k);
    }
  }

  /** skip_bytes and the walk stop at the same data byte. */
  lemma JumpIsWalk(footers: Footers, end: int, cur: int, n: nat, ends: seq<int>, i: nat)
    requires ChainOk(footers, ends) && i < |ends| && ends[i] == end && end in footers && InChunk(footers, ends, i, cur)
    requires HasData(footers, ends, i)
    ensures var jump, walk := SkipBytes(footers, end, cur, n, ends, i), Walk(footers, end, cur, n, ends, i);
            && jump.0 in footers && (footers[jump.0].dataSize > 0 ==> footers[jump.0].next in footers)
            && walk.0 in footers && (footers[walk.0].dataSize > 0 ==> footers[walk.0].next in footers)
            && Settle(footers, jump.0, jump.1) == Settle(footers, walk.0, walk.1)
  {
    var jump, walk := SkipBytes(footers, end, cur, n, ends, i), Walk(footers, end, cur, n, ends, i);
    var j := Skips(footers, end, cur, n, ends, i);
    var k := Walks(footers, end, cur, n, ends, i);
    var j' := Settled(footers, jump.0, jump.1, ends, j);
    var k' := Settled(footers, walk.0, walk.1, ends, k);
    var p, q := Settle(footers, jump.0, jump.1), Settle(footers, walk.0, walk.1);
    PlaceUnique(footers, ends, j', p.1, k', q.1);
  }
}

/** The byte-addressed memory of the runtime: a partial map from addresses to
    bytes, whose domain is what has been allocated, with 8-byte little-endian
    words and the 48 + 16 bit tagged pointers stored in them. */
module Memory {
  import opened Bits

  const WORD_LIMIT := 0x1_0000_0000_0000_0000
  const GIB_POINTER_BITS := 48
  const POINTER_LIMIT := 0x1_0000_0000_0000

  type Byte = x: int | 0 <= x < 256
  type Word = x: int | 0 <= x < WORD_LIMIT
  type Mem = map<int, Byte>

  /** n new bytes from address a on. */
  function Block(a: int, n: nat): (mem: Mem)
    ensures forall x :: x in mem <==> a <= x < a + n
    decreases n
  {
    if n == 0 then map[] else Block(a + 1, n - 1)[a := 0]
  }

  predicate Allocated(mem: Mem, a: int, n: int) {
    forall x :: a <= x < a + n ==> x in mem
  }

  function Slice(mem: Mem, a: int, n: nat): (s: seq<Byte>)
    requires Allocated(mem, a, n)
    ensures |s| == n
    ensures forall i :: 0 <= i < n ==> s[i] == mem[a + i]
  {
    seq(n, i requires 0 <= i < n => mem[a + i])
  }

  /** mem with the bytes bs written from address a on. */
  function PutBytes(mem: Mem, a: int, bs: seq<Byte>): (mem': Mem)
    ensures mem'.Keys == mem.Keys
    ensures forall x :: x in mem ==> mem'[x] == if a <= x < a + |bs| then bs[x - a] else mem[x]
  {
    map x | x in mem :: if a <= x < a + |bs| then bs[x - a] else mem[x]
  }

  function Pow256(n: nat): (p: nat)
    ensures p > 0
  {
    if n == 0 then 1 else 256 * Pow256(n - 1)
  }

  function WordOf(bs: seq<Byte>): (w: nat)
    ensures w < Pow256(|bs|)
  {
    if bs == [] then 0 else bs[0] + 256 * WordOf(bs[1..])
  }

  function BytesOf(w: nat, n: nat): (bs: seq<Byte>)
    ensures |bs| == n
    ensures w < Pow256(n) ==> WordOf(bs) == w
  {
    if n == 0 then [] else [w % 256] + BytesOf(w / 256, n - 1)
  }

  lemma {:induction false} BytesOfWordOf(bs: seq<Byte>)
    ensures BytesOf(WordOf(bs), |bs|) == bs
  {
    if bs != [] {
      var low, rest := bs[0], WordOf(bs[1..]);
      assert WordOf(bs) == low + 256 * rest;
      DivModUnique(low + 256 * rest, 256, rest, low);
      assert BytesOf(low + 256 * rest, |bs|) == [low] + BytesOf(rest, |bs| - 1);
      hide WordOf, BytesOf;
      BytesOfWordOf(bs[1..]);
      assert bs == [low] + bs[1..];
    }
  }

  function LoadWord(mem: Mem, a: int): (w: Word)
    requires Allocated(mem, a, 8)
  {
    assert Pow256(8) == WORD_LIMIT;
    WordOf(Slice(mem, a, 8))
  }

  function StoreWord(mem: Mem, a: int, w: Word): (mem': Mem)
    requires Allocated(mem, a, 8)
    ensures mem'.Keys == mem.Keys
    ensures forall x :: x in mem && !(a <= x < a + 8) ==> mem'[x] == mem[x]
    ensures LoadWord(mem', a) == w
  {
    assert Pow256(8) == WORD_LIMIT;
    var bs := BytesOf(w, 8);
    var mem' := PutBytes(mem, a, bs);
    assert Slice(mem', a, 8) == bs;
    mem'
  }

  /** mem' extends mem and differs from it only inside [lo, hi). */
  ghost predicate Same(mem: Mem, mem': Mem, lo: int, hi: int) {
    forall x :: x in mem ==> x in mem' && (lo <= x < hi || mem'[x] == mem[x])
  }

  /** [a, a + n) lies outside [lo, hi). */
  predicate Clear(a: int, n: int, lo: int, hi: int) {
    a + n <= lo || hi <= a
  }

  ghost predicate Fresh(mem: Mem, lo: int, hi: int) {
    forall x :: lo <= x < hi ==> x !in mem
  }

  /** Later windows fall inside the first one or in memory it did not know. */
  lemma SameStep(mem0: Mem, mem1: Mem, mem2: Mem, lo: int, hi: int, lo': int, hi': int)
    requires Same(mem0, mem1, lo, hi) && Same(mem1, mem2, lo', hi')
    requires (lo <= lo' && hi' <= hi) || hi' <= lo' || Fresh(mem0, lo', hi')
    ensures Same(mem0, mem2, lo, hi)
  {
  }

  lemma SameWider(mem: Mem, mem': Mem, lo: int, hi: int, lo': int, hi': int)
    requires Same(mem, mem', lo, hi) && lo' <= lo && hi <= hi'
    ensures Same(mem, mem', lo', hi')
  {
  }

  /** What is allocated lies outside what is not. */
  lemma FreshClear(mem: Mem, a: int, n: nat, lo: int, hi: int)
    requires Allocated(mem, a, n) && Fresh(mem, lo, hi) && n > 0 && lo < hi
    ensures Clear(a, n, lo, hi)
  {
    if lo <= a {
      assert a in mem;
    } else {
      assert lo !in mem;
    }
  }

  /** A packed node: a tag byte and an 8-byte payload. */
  ghost predicate Header(mem: Mem, a: int, tag: Byte, w: Word) {
    Allocated(mem, a, 9) && mem[a] == tag && LoadWord(mem, a + 1) == w
  }

  lemma FrameHeader(mem: Mem, mem': Mem, lo: int, hi: int, a: int, tag: Byte, w: Word)
    requires Same(mem, mem', lo, hi) && Header(mem, a, tag, w) && Clear(a, 9, lo, hi)
    ensures Header(mem', a, tag, w)
  {
    FrameWord(mem, mem', lo, hi, a + 1);
  }

  lemma FrameWord(mem: Mem, mem': Mem, lo: int, hi: int, a: int)
    requires Same(mem, mem', lo, hi) && Allocated(mem, a, 8) && Clear(a, 8, lo, hi)
    ensures Allocated(mem', a, 8) && LoadWord(mem', a) == LoadWord(mem, a)
  {
    assert Slice(mem', a, 8) == Slice(mem, a, 8);
  }

  /** The n bytes from a on are the same in both. */
  ghost predicate Agree(mem: Mem, mem': Mem, a: int, n: int) {
    forall x :: a <= x < a + n ==> x in mem && x in mem' && mem'[x] == mem[x]
  }

  lemma AgreeWord(mem: Mem, mem': Mem, a: int)
    requires Agree(mem, mem', a, 8)
    ensures Allocated(mem, a, 8) && Allocated(mem', a, 8) && LoadWord(mem', a) == LoadWord(mem, a)
  {
    assert Slice(mem', a, 8) == Slice(mem, a, 8);
  }

  lemma AgreeHeader(mem: Mem, mem': Mem, a: int, tag: Byte, w: Word)
    requires Agree(mem, mem', a, 9) && Header(mem, a, tag, w)
    ensures Header(mem', a, tag, w)
  {
    AgreeWord(mem, mem', a + 1);
  }

  // Tagged pointers: the low 48 bits of a word address a chunk, the high 16 hold
  // the distance from there to the chunk's footer. The arithmetic reading comes
  // first; the methods below compute it with the source's bit operations.

  function Tagged(p: nat, tag: nat): nat {
    p + tag * POINTER_LIMIT
  }

  function Pointer(tagged: nat): nat {
    tagged % POINTER_LIMIT
  }

  function Tag(tagged: nat): nat {
    tagged / POINTER_LIMIT % 0x1_0000
  }

  function RoundUp8(n: nat): (r: nat)
    ensures n <= r < n + 8 && r % 8 == 0
  {
    (n + 7) / 8 * 8
  }

  lemma PointerLimit()
    ensures Pow2(GIB_POINTER_BITS) == POINTER_LIMIT
  {
    assert Pow2(2) == 4;
    Pow2Sum(2, 2);
    Pow2Sum(4, 4);
    Pow2Sum(8, 8);
    Pow2Sum(16, 16);
    Pow2Sum(32, 16);
  }

  /** What is stored is recovered. */
  lemma TagRoundTrip(p: nat, tag: nat)
    requires p < POINTER_LIMIT && tag < 0x1_0000
    ensures Tagged(p, tag) < WORD_LIMIT
    ensures Pointer(Tagged(p, tag)) == p && Tag(Tagged(p, tag)) == tag
  {
  }

  /** GIB_STORE_TAG */
  method StoreTag(p: nat, tag: nat) returns (w: nat)
    requires p < POINTER_LIMIT && tag < 0x1_0000
    ensures w == Tagged(p, tag) < WORD_LIMIT
    ensures Pointer(w) == p && Tag(w) == tag
  {
    PointerLimit();
    hide Or, Pow2;
    OrShifted(p, tag, GIB_POINTER_BITS);
    TagRoundTrip(p, tag);
    w := Or(p, tag * Pow2(GIB_POINTER_BITS));
  }

  /** GIB_UNTAG */
  method Untag(tagged: nat) returns (p: nat)
    ensures p == Pointer(tagged)
  {
    PointerLimit();
    hide And, Pow2;
    AndMask(tagged, GIB_POINTER_BITS);
    p := And(tagged, Pow2(GIB_POINTER_BITS) - 1);
  }

  /** gib_align_up_sz(n, 8) */
  method AlignUp(n: nat) returns (r: nat)
    ensures r == RoundUp8(n)
  {
    var mask := Pow2(3) - 1;
    assert mask == 7;
    hide AndNot, Pow2;
    AndNotMask(n + 7, 3);
    r := AndNot(n + 7, mask);
  }
}

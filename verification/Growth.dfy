/** Chunk sizes over whole runs: how the chunks of one region grow, and which footer
    offsets survive the 16 bits they are stored in. */
module Growth {
  import opened Bits
  import opened Memory
  import opened Runtime
  import opened Chains

  const LARGEST_CHUNK := 65504 // GIB_MAX_CHUNK_SIZE, aligned

  function Capped(size: nat): nat {
    if size <= LARGEST_CHUNK then size else LARGEST_CHUNK
  }

  /** Bytes, footer included, of an old-generation chunk after n growths. */
  function TotalSize(first: nat, n: nat): nat
    requires first >= FOOTER_SIZE
    ensures TotalSize(first, n) >= FOOTER_SIZE
  {
    if n == 0 then first
    else
      var last := TotalSize(first, n - 1);
      GrownPayloadBounds(last - FOOTER_SIZE);
      FOOTER_SIZE + GrownPayload(false, last - FOOTER_SIZE)
  }

  /** Sizes double up to the cap. */
  lemma {:induction false} DoubledUpToCap(first: nat, n: nat)
    requires FOOTER_SIZE <= first <= LARGEST_CHUNK && first % 8 == 0
    ensures TotalSize(first, n) == Capped(first * Pow2(n))
  {
    if n == 0 {
      assert first * Pow2(0) == first;
    } else {
      DoubledUpToCap(first, n - 1);
      var last, p := TotalSize(first, n - 1), Pow2(n - 1);
      assert TotalSize(first, n) == FOOTER_SIZE + GrownPayload(false, last - FOOTER_SIZE);
      assert Pow2(n) == 2 * p;
      hide GrownPayload, TotalSize, Pow2;
      Doubled(first, p);
      Multiple8(first, p);
      assert last % 8 == 0;
      CapStep(last);
    }
  }

  lemma Doubled(x: int, p: int)
    ensures x * (2 * p) == 2 * (x * p)
  {
  }

  lemma Multiple8(x: nat, p: nat)
    requires x % 8 == 0
    ensures (x * p) % 8 == 0
  {
    var k := x / 8;
    assert x * p == 8 * (k * p);
  }

  lemma CapStep(last: nat)
    requires FOOTER_SIZE <= last && last % 8 == 0
    ensures FOOTER_SIZE + GrownPayload(false, last - FOOTER_SIZE) == Capped(2 * last)
  {
  }

  /** From at most 65504 bytes on they never shrink and never exceed it, aligned or not. */
  lemma {:induction false} NeverShrinks(first: nat, n: nat)
    requires FOOTER_SIZE <= first <= LARGEST_CHUNK
    ensures TotalSize(first, n) <= TotalSize(first, n + 1) <= LARGEST_CHUNK
  {
    if n > 0 {
      NeverShrinks(first, n - 1);
    }
  }

  /** The chunks a value's redirections lead to have these sizes, and their footer
      offsets, stored in 16 bits, are these. */
  lemma {:induction false} ChainSizes(mem: Mem, end: int, ws: seq<Word>, last: int, i: nat)
    requires Chain(mem, end, ws, last) && i < |ws|
    ensures Behind(mem, end, FooterOf(ws[0])) && Tag(ws[0]) == GrownPayload(InNursery(end), Payload(mem, end))
    ensures Tag(ws[i]) + FOOTER_SIZE == TotalSize(FOOTER_SIZE + Tag(ws[0]), i)
    ensures !InNursery(end) ==> Tag(ws[i]) + FOOTER_SIZE == TotalSize(FOOTER_SIZE + ChunkSize(mem, end), i + 1)
    ensures !InNursery(FooterOf(ws[i])) && Allocated(mem, FooterOf(ws[i]), FOOTER_SIZE)
    ensures ChunkSize(mem, FooterOf(ws[i])) == Tag(ws[i])
    decreases i
  {
    hide GrownPayload, LoadWord, Tag, Pointer, Chain;
    HopAt(mem, end, ws, last, i);
    if i == 0 {
      var first := FOOTER_SIZE + Tag(ws[0]);
      assert TotalSize(first, 0) == first;
      assert !InNursery(end) ==> TotalSize(FOOTER_SIZE + ChunkSize(mem, end), 0 + 1) == first;
    } else {
      ChainSizes(mem, end, ws, last, i - 1);
    }
  }

  // The nursery: sizes are doubled without a cap, and kept in 16 bits.

  /** The chunk that follows a nursery chunk on the heap holds its own footer. */
  lemma PromotedFits(oldSize: nat)
    ensures GrownPayload(true, oldSize) >= 0 <==> oldSize >= 9
  {
  }

  /** Promoting a nursery chunk of oldSize bytes to the heap: the footer offset is
      recovered from the redirection exactly up to 32776 bytes. */
  lemma PromotedOffset(p: nat, oldSize: nat)
    requires p < POINTER_LIMIT && 12 <= oldSize < 0x1_0000
    ensures Tag(Tagged(p, GrownPayload(true, oldSize) % 0x1_0000)) == GrownPayload(true, oldSize) <==> oldSize <= 32776
  {
    TagRoundTrip(p, GrownPayload(true, oldSize) % 0x1_0000);
  }

  lemma PromotedOffsetLost()
    ensures GrownPayload(true, 40000) == 79976
    ensures Tag(Tagged(0x1000, GrownPayload(true, 40000) % 0x1_0000)) == 14440
  {
    TagRoundTrip(0x1000, 14440);
  }

  /** The size a nursery footer records after n growths inside the nursery; it is also
      the footer offset in the redirection written then. */
  function RecordedSize(first: nat, n: nat): nat
    decreases n, 1
  {
    TrueSize(first, n) % 0x1_0000
  }

  /** The bytes of that chunk: growth doubles what the previous footer records. */
  function TrueSize(first: nat, n: nat): nat
    decreases n, 0
  {
    if n == 0 then first else RecordedSize(first, n - 1) * 2
  }

  /** A size is recorded exactly if and only if it fits 16 bits, */
  lemma RecordedExact(first: nat, n: nat)
    ensures RecordedSize(first, n) == TrueSize(first, n) <==> TrueSize(first, n) < 0x1_0000
  {
  }

  /** and what is recorded is the doubled first size modulo 2^16 all along. */
  lemma {:induction false} RecordedIsTruncated(first: nat, n: nat)
    ensures RecordedSize(first, n) == first * Pow2(n) % 0x1_0000
  {
    if n > 0 {
      RecordedIsTruncated(first, n - 1);
      TruncatedStep(first, Pow2(n - 1));
    }
  }

  lemma TruncatedStep(first: nat, p: nat)
    ensures first * p % 0x1_0000 * 2 % 0x1_0000 == first * (2 * p) % 0x1_0000
  {
    Doubled(first, p);
    DoubleMod(first * p);
  }

  lemma DoubleMod(x: nat)
    ensures x % 0x1_0000 * 2 % 0x1_0000 == 2 * x % 0x1_0000
  {
    var q, r := x / 0x1_0000, x % 0x1_0000;
    assert x == 0x1_0000 * q + r;
    var s := 2 * r;
    assert s == 0x1_0000 * (s / 0x1_0000) + s % 0x1_0000;
    DivModUnique(2 * x, 0x1_0000, 2 * q + s / 0x1_0000, s % 0x1_0000);
  }

  /** Every chunk up to the nth is recorded exactly. */
  ghost predicate AllRecorded(first: nat, n: nat) {
    forall k :: 0 <= k <= n ==> RecordedSize(first, k) == TrueSize(first, k)
  }

  lemma {:induction false} SmallSizes(first: nat, n: nat)
    requires first * Pow2(n) < 0x1_0000
    ensures AllRecorded(first, n) && TrueSize(first, n) == first * Pow2(n)
  {
    if n > 0 {
      var p := Pow2(n - 1);
      assert Pow2(n) == 2 * p;
      hide Pow2;
      Doubled(first, p);
      SmallSizes(first, n - 1);
    } else {
      assert first * Pow2(0) == first;
    }
  }

  lemma {:induction false} RecordedSizes(first: nat, n: nat)
    requires AllRecorded(first, n)
    ensures TrueSize(first, n) == first * Pow2(n)
  {
    if n > 0 {
      RecordedSizes(first, n - 1);
      assert RecordedSize(first, n - 1) == TrueSize(first, n - 1);
      Doubled(first, Pow2(n - 1));
    }
  }

  /** The condition a caller can check before n growths. */
  lemma AllRecordedIff(first: nat, n: nat)
    ensures AllRecorded(first, n) <==> first * Pow2(n) < 0x1_0000
  {
    if AllRecorded(first, n) {
      RecordedSizes(first, n);
      assert RecordedSize(first, n) == TrueSize(first, n);
    } else if first * Pow2(n) < 0x1_0000 {
      SmallSizes(first, n);
    }
  }

  /** Whatever the first size, after at most 16 growths a footer records size 0, and
      from then on every chunk is empty: its footer lies at its start. */
  lemma SizeLost(first: nat) returns (n: nat)
    ensures n <= 16 && RecordedSize(first, n) == 0 && TrueSize(first, n + 1) == 0
  {
    hide Pow2, RecordedSize, TrueSize;
    n := 16;
    RecordedIsTruncated(first, n);
    Pow2Of16();
    DivModUnique(first * 0x1_0000, 0x1_0000, first, 0);
    StaysEmpty(first, n, n + 1);
  }

  lemma Pow2Of16()
    ensures Pow2(16) == 0x1_0000
  {
    assert Pow2(4) == 16;
    Pow2Sum(4, 4);
    Pow2Sum(8, 8);
  }

  lemma {:induction false} StaysEmpty(first: nat, n: nat, m: nat)
    requires RecordedSize(first, n) == 0 && n < m
    ensures TrueSize(first, m) == 0
    decreases m
  {
    if n + 1 < m {
      StaysEmpty(first, n, m - 1);
    }
  }

  /** With the default initial size of 512 bytes it is the seventh growth. */
  lemma DefaultSizeLost()
    ensures AllRecorded(512, 6) && TrueSize(512, 7) == 0x1_0000 && RecordedSize(512, 7) == 0 && TrueSize(512, 8) == 0
  {
    assert Pow2(6) == 64;
    AllRecordedIff(512, 6);
    RecordedSizes(512, 6);
  }
}

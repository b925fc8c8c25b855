/** HASH_EXPAND_BUCKETS: moving every item of b buckets into 2b buckets. */
module BucketExpansion {
  import opened DoublyLinked
  import opened Buckets

  /** The items of chain c that hash to bucket j of n, last one first. */
  function Collected(c: seq<Ptr>, hashv: Hashes, j: nat, n: nat): (r: seq<Ptr>)
    requires n > 0 && forall x :: x in c ==> x in hashv
    ensures forall x :: x in r <==> x in c && BucketOf(hashv[x], n) == j
    decreases |c|
  {
    if c == [] then []
    else
      var rest := Collected(c[..|c| - 1], hashv, j, n);
      var x := c[|c| - 1];
      assert forall y :: y in c <==> y in c[..|c| - 1] || y == x;
      if BucketOf(hashv[x], n) == j then [x] + rest else rest
  }

  ghost predicate Hashed(hashv: Hashes, chains: seq<seq<Ptr>>) {
    forall i, x :: 0 <= i < |chains| && x in chains[i] ==> x in hashv
  }

  /** What has been moved when buckets below i and the first k items of chain i are done. */
  ghost function Moved(chains: seq<seq<Ptr>>, hashv: Hashes, i: nat, k: nat): (r: seq<seq<Ptr>>)
    requires Hashed(hashv, chains) && (i < |chains| ==> k <= |chains[i]|)
    ensures |r| == 2 * |chains|
  {
    seq(2 * |chains|, j requires 0 <= j < 2 * |chains| => Collected(Done(chains, i, k, j % |chains|), hashv, j, 2 * |chains|))
  }

  /** The part of chain c that has been moved. */
  function Done(chains: seq<seq<Ptr>>, i: nat, k: nat, c: nat): (r: seq<Ptr>)
    requires c < |chains| && (i < |chains| ==> k <= |chains[i]|)
    ensures forall x :: x in r ==> x in chains[c]
  {
    if c < i then chains[c] else if c == i then chains[c][..k] else []
  }

  /** The new chains: bucket j is fed by old bucket j % b alone, in reverse order. */
  ghost function NewChains(chains: seq<seq<Ptr>>, hashv: Hashes): (r: seq<seq<Ptr>>)
    requires Hashed(hashv, chains)
    ensures |r| == 2 * |chains|
  {
    seq(2 * |chains|, j requires 0 <= j < 2 * |chains| => Collected(chains[j % |chains|], hashv, j, 2 * |chains|))
  }

  /** An item of old bucket i can only go to buckets i and i + b. */
  lemma Halves(h: nat, b: nat)
    requires b > 0
    ensures BucketOf(h, 2 * b) % b == BucketOf(h, b)
    ensures BucketOf(h, 2 * b) == BucketOf(h, b) || BucketOf(h, 2 * b) == BucketOf(h, b) + b
  {
    var q, r := h / (2 * b), h % (2 * b);
    assert h == b * (2 * q) + r by {
      assert h == 2 * b * q + r;
      assert 2 * b * q == b * (2 * q);
    }
    if r < b {
      Bits.DivModUnique(h, b, 2 * q, r);
      Bits.DivModUnique(r, b, 0, r);
    } else {
      assert b * (2 * q + 1) == b * (2 * q) + b;
      Bits.DivModUnique(h, b, 2 * q + 1, r - b);
      Bits.DivModUnique(r, b, 1, r - b);
    }
  }

  lemma MoveOne(chains: seq<seq<Ptr>>, hashv: Hashes, i: nat, k: nat)
    requires Hashed(hashv, chains) && Placed(hashv, chains)
    requires i < |chains| && k < |chains[i]|
    ensures var m, x := Moved(chains, hashv, i, k), chains[i][k];
            var j := BucketOf(hashv[x], 2 * |chains|);
            Moved(chains, hashv, i, k + 1) == m[j := [x] + m[j]]
  {
    var b, x := |chains|, chains[i][k];
    var m, m' := Moved(chains, hashv, i, k), Moved(chains, hashv, i, k + 1);
    var j := BucketOf(hashv[x], 2 * b);
    assert PlacedIn(hashv, chains[i], i, b);
    Halves(hashv[x], b);
    assert chains[i][..k + 1][..k] == chains[i][..k];
    forall n | 0 <= n < 2 * b
      ensures m'[n] == m[j := [x] + m[j]][n]
    {
      if n % b == i {
        assert Done(chains, i, k + 1, n % b) == chains[i][..k + 1];
      } else {
        assert Done(chains, i, k + 1, n % b) == Done(chains, i, k, n % b);
      }
    }
  }

  lemma NextBucket(chains: seq<seq<Ptr>>, hashv: Hashes, i: nat)
    requires Hashed(hashv, chains) && i < |chains|
    ensures Moved(chains, hashv, i, |chains[i]|) == Moved(chains, hashv, i + 1, 0)
  {
    assert chains[i][..|chains[i]|] == chains[i];
    assert forall c :: 0 <= c < |chains| ==> Done(chains, i, |chains[i]|, c) == Done(chains, i + 1, 0, c);
  }

  lemma AllMoved(chains: seq<seq<Ptr>>, hashv: Hashes)
    requires Hashed(hashv, chains)
    ensures Moved(chains, hashv, |chains|, 0) == NewChains(chains, hashv)
  {
    assert forall c :: 0 <= c < |chains| ==> Done(chains, |chains|, 0, c) == chains[c];
  }

  /** expand_mult of a bucket with the given count. */
  function MultFor(count: nat, ideal: nat): nat
    requires ideal > 0
  {
    if count > ideal then count / ideal else 0
  }

  /** Items beyond the ideal chain length, over all chains. */
  function Nonideal(chains: seq<seq<Ptr>>, ideal: nat): nat {
    if chains == [] then 0
    else Excess(|chains[0]|, ideal) + Nonideal(chains[1..], ideal)
  }

  function Excess(count: nat, ideal: nat): nat {
    if count > ideal then count - ideal else 0
  }

  lemma {:induction false} NonidealUpdate(chains: seq<seq<Ptr>>, j: nat, c: seq<Ptr>, ideal: nat)
    requires j < |chains|
    ensures Nonideal(chains[j := c], ideal) == Nonideal(chains, ideal) - Excess(|chains[j]|, ideal) + Excess(|c|, ideal)
  {
    if j > 0 {
      assert chains[j := c][1..] == chains[1..][j - 1 := c];
      NonidealUpdate(chains[1..], j - 1, c, ideal);
    } else {
      assert chains[j := c][1..] == chains[1..];
    }
  }

  ghost predicate Mults(buckets: seq<Bucket>, ideal: nat)
    requires ideal > 0
  {
    forall j :: 0 <= j < |buckets| ==> buckets[j].expandMult == MultFor(buckets[j].count, ideal)
  }

  /** The state of the move: new buckets, their chains, and the untouched rest. */
  ghost predicate Moving(hhNext0: Links, hhNext: Links, hhPrev: Links, hashv: Hashes, chains: seq<seq<Ptr>>,
                         newBuckets: seq<Bucket>, i: nat, k: nat, ideal: nat, nonideal: nat)
    requires ideal > 0
  {
    && Hashed(hashv, chains) && (i < |chains| ==> k <= |chains[i]|)
    && BucketsOk(hhNext, hhPrev, newBuckets, Moved(chains, hashv, i, k))
    && Placed(hashv, Moved(chains, hashv, i, k))
    && Mults(newBuckets, ideal)
    && nonideal == Nonideal(Moved(chains, hashv, i, k), ideal)
    && (i < |chains| ==> Agree(hhNext0, hhNext, chains[i][k..]))
    && forall c :: i < c < |chains| ==> Agree(hhNext0, hhNext, chains[c])
  }

  /** A bucket after one more item has arrived during expansion. */
  function Received(b: Bucket, thh: Ptr, ideal: nat): Bucket
    requires ideal > 0
  {
    var count := b.count + 1;
    Bucket(thh, count, if count > ideal then count / ideal else b.expandMult)
  }

  method Redistribute(hhNext: Links, hhPrev: Links, hashv: Hashes, buckets: seq<Bucket>, ideal: nat, ghost chains: seq<seq<Ptr>>, ghost log2: nat)
    returns (hhNext': Links, hhPrev': Links, newBuckets: seq<Bucket>, nonideal: nat)
    requires BucketsOk(hhNext, hhPrev, buckets, chains) && Placed(hashv, chains) && ideal > 0
    requires |buckets| == Bits.Pow2(log2)
    ensures Hashed(hashv, chains)
    ensures BucketsOk(hhNext', hhPrev', newBuckets, NewChains(chains, hashv)) && Placed(hashv, NewChains(chains, hashv))
    ensures Mults(newBuckets, ideal) && nonideal == Nonideal(NewChains(chains, hashv), ideal)
  {
    assert Hashed(hashv, chains) by {
      assert forall i :: 0 <= i < |chains| ==> PlacedIn(hashv, chains[i], i, |chains|);
    }
    hhNext', hhPrev', nonideal := hhNext, hhPrev, 0;
    newBuckets := seq(2 * |buckets|, _ => Bucket(NULL, 0, 0));
    MoveStart(hhNext, hhPrev, hashv, chains, newBuckets, ideal);
    assert |chains| == |buckets| && 2 * |buckets| == Bits.Pow2(log2 + 1);
    hide Received, Bits.Pow2, Moving, BucketsOk, Placed, Moved, NewChains, Hashed, Mults, Nonideal;
    var i := 0;
    while i < |buckets|
      invariant i <= |buckets|
      invariant Moving(hhNext, hhNext', hhPrev', hashv, chains, newBuckets, i, 0, ideal, nonideal)
    {
      var thh := buckets[i].hhHead;
      ghost var k := 0;
      HeadOf(hhNext, hhPrev, buckets, chains, i);
      while thh != NULL
        invariant k <= |chains[i]| && thh == (if k < |chains[i]| then chains[i][k] else NULL)
        invariant thh == NULL ==> k == |chains[i]|
        invariant Moving(hhNext, hhNext', hhPrev', hashv, chains, newBuckets, i, k, ideal, nonideal)
        decreases |chains[i]| - k
      {
        MovingItem(hhNext, hhNext', hhPrev, hhPrev', hashv, buckets, chains, newBuckets, i, k, ideal, nonideal);
        var nxt := hhNext'[thh];
        hhNext', hhPrev', newBuckets, nonideal :=
          MoveItem(hhNext', hhPrev', hashv, newBuckets, thh, ideal, nonideal, hhNext, hhPrev, buckets, chains, log2, i, k);
        thh := nxt;
        k := k + 1;
      }
      BucketDone(hhNext, hhNext', hhPrev', hashv, chains, newBuckets, i, ideal, nonideal);
      i := i + 1;
    }
    MoveDone(hhNext, hhNext', hhPrev', hashv, chains, newBuckets, ideal, nonideal);
  }

  /** One item goes to the head of its new bucket. */
  method MoveItem(hhNext: Links, hhPrev: Links, hashv: Hashes, newBuckets: seq<Bucket>, thh: Ptr, ideal: nat, nonideal: nat,
                  ghost hhNext0: Links, ghost hhPrev0: Links, ghost buckets: seq<Bucket>, ghost chains: seq<seq<Ptr>>,
                  ghost log2: nat, ghost i: nat, ghost k: nat)
    returns (hhNext': Links, hhPrev': Links, newBuckets': seq<Bucket>, nonideal': nat)
    requires BucketsOk(hhNext0, hhPrev0, buckets, chains) && Placed(hashv, chains) && ideal > 0
    requires |newBuckets| == 2 * |chains| == Bits.Pow2(log2 + 1)
    requires i < |chains| && k < |chains[i]| && thh == chains[i][k] && thh in hashv
    requires Moving(hhNext0, hhNext, hhPrev, hashv, chains, newBuckets, i, k, ideal, nonideal)
    ensures Moving(hhNext0, hhNext', hhPrev', hashv, chains, newBuckets', i, k + 1, ideal, nonideal')
  {
    hide Received, Bits.Pow2, Moving, BucketsOk, Placed;
    var bkt := HashToBkt(hashv[thh], log2 + 1, |newBuckets|);
    var was := newBuckets[bkt];
    var becomes := Received(was, thh, ideal);
    MoveStep(hhNext0, hhNext, hhPrev0, hhPrev, hashv, buckets, chains, newBuckets, i, k, ideal, nonideal, bkt, becomes);
    nonideal' := if becomes.count > ideal then nonideal + 1 else nonideal;
    hhPrev' := hhPrev[thh := NULL];
    hhNext' := hhNext[thh := was.hhHead];
    if was.hhHead != NULL {
      hhPrev' := hhPrev'[was.hhHead := thh];
    }
    newBuckets' := newBuckets[bkt := becomes];
  }

  lemma BucketDone(hhNext0: Links, hhNext: Links, hhPrev: Links, hashv: Hashes, chains: seq<seq<Ptr>>,
                   newBuckets: seq<Bucket>, i: nat, ideal: nat, nonideal: nat)
    requires ideal > 0 && i < |chains|
    requires Moving(hhNext0, hhNext, hhPrev, hashv, chains, newBuckets, i, |chains[i]|, ideal, nonideal)
    ensures Moving(hhNext0, hhNext, hhPrev, hashv, chains, newBuckets, i + 1, 0, ideal, nonideal)
  {
    NextBucket(chains, hashv, i);
  }

  lemma MoveDone(hhNext0: Links, hhNext: Links, hhPrev: Links, hashv: Hashes, chains: seq<seq<Ptr>>,
                 newBuckets: seq<Bucket>, ideal: nat, nonideal: nat)
    requires ideal > 0 && Moving(hhNext0, hhNext, hhPrev, hashv, chains, newBuckets, |chains|, 0, ideal, nonideal)
    ensures Hashed(hashv, chains)
    ensures BucketsOk(hhNext, hhPrev, newBuckets, NewChains(chains, hashv)) && Placed(hashv, NewChains(chains, hashv))
    ensures Mults(newBuckets, ideal) && nonideal == Nonideal(NewChains(chains, hashv), ideal)
  {
    AllMoved(chains, hashv);
  }

  lemma HeadOf(hhNext: Links, hhPrev: Links, buckets: seq<Bucket>, chains: seq<seq<Ptr>>, i: nat)
    requires BucketsOk(hhNext, hhPrev, buckets, chains) && i < |chains|
    ensures buckets[i].hhHead == First(chains[i]) && (chains[i] != [] ==> chains[i][0] != NULL)
  {
    assert ChainOk(hhNext, hhPrev, buckets[i], chains[i]);
    assert chains[i] != [] ==> LinkedAt(hhNext, hhPrev, chains[i], 0);
  }

  /** The item about to move still has its old successor. */
  lemma MovingItem(hhNext0: Links, hhNext: Links, hhPrev0: Links, hhPrev: Links, hashv: Hashes, buckets: seq<Bucket>,
                   chains: seq<seq<Ptr>>, newBuckets: seq<Bucket>, i: nat, k: nat, ideal: nat, nonideal: nat)
    requires BucketsOk(hhNext0, hhPrev0, buckets, chains) && ideal > 0 && i < |chains| && k < |chains[i]|
    requires Moving(hhNext0, hhNext, hhPrev, hashv, chains, newBuckets, i, k, ideal, nonideal)
    ensures |newBuckets| == 2 * |chains|
    ensures chains[i][k] in hashv && chains[i][k] in hhNext
    ensures hhNext[chains[i][k]] == After(chains[i], k)
    ensures k + 1 < |chains[i]| ==> chains[i][k + 1] != NULL
  {
    assert ChainOk(hhNext0, hhPrev0, buckets[i], chains[i]) && LinkedAt(hhNext0, hhPrev0, chains[i], k);
    assert k + 1 < |chains[i]| ==> LinkedAt(hhNext0, hhPrev0, chains[i], k + 1);
    assert chains[i][k..][0] == chains[i][k];
  }

  lemma MoveStart(hhNext: Links, hhPrev: Links, hashv: Hashes, chains: seq<seq<Ptr>>, newBuckets: seq<Bucket>, ideal: nat)
    requires Hashed(hashv, chains) && ideal > 0 && |chains| > 0
    requires newBuckets == seq(2 * |chains|, _ => Bucket(NULL, 0, 0))
    ensures Moving(hhNext, hhNext, hhPrev, hashv, chains, newBuckets, 0, 0, ideal, 0)
  {
    var m := Moved(chains, hashv, 0, 0);
    forall j | 0 <= j < |m|
      ensures m[j] == []
    {
      assert Done(chains, 0, 0, j % |chains|) == [];
    }
    assert forall j :: 0 <= j < |m| ==> ChainOk(hhNext, hhPrev, newBuckets[j], m[j]);
    assert forall j :: 0 <= j < |m| ==> PlacedIn(hashv, m[j], j, |m|);
    NoneNonideal(m, ideal);
  }

  lemma {:induction false} NoneNonideal(m: seq<seq<Ptr>>, ideal: nat)
    requires forall j :: 0 <= j < |m| ==> m[j] == []
    ensures Nonideal(m, ideal) == 0
  {
    if m != [] {
      NoneNonideal(m[1..], ideal);
    }
  }

  lemma MoveStep(hhNext0: Links, hhNext: Links, hhPrev0: Links, hhPrev: Links, hashv: Hashes, buckets: seq<Bucket>,
                 chains: seq<seq<Ptr>>, newBuckets: seq<Bucket>, i: nat, k: nat, ideal: nat, nonideal: nat, bkt: nat, becomes: Bucket)
    requires BucketsOk(hhNext0, hhPrev0, buckets, chains) && Placed(hashv, chains) && ideal > 0
    requires i < |chains| && k < |chains[i]|
    requires Moving(hhNext0, hhNext, hhPrev, hashv, chains, newBuckets, i, k, ideal, nonideal)
    requires bkt == BucketOf(hashv[chains[i][k]], 2 * |chains|)
    requires becomes == Received(newBuckets[bkt], chains[i][k], ideal)
    ensures var x, was := chains[i][k], newBuckets[bkt];
            var prev1 := hhPrev[x := NULL];
            Moving(hhNext0, hhNext[x := was.hhHead], if was.hhHead != NULL then prev1[was.hhHead := x] else prev1, hashv,
                   chains, newBuckets[bkt := becomes], i, k + 1, ideal, if becomes.count > ideal then nonideal + 1 else nonideal)
  {
    var x, m := chains[i][k], Moved(chains, hashv, i, k);
    assert ChainOk(hhNext0, hhPrev0, buckets[i], chains[i]) && LinkedAt(hhNext0, hhPrev0, chains[i], k);
    assert PlacedIn(hashv, chains[i], i, |chains|);
    assert ChainOk(hhNext, hhPrev, newBuckets[bkt], m[bkt]);
    NotYetMoved(chains, hashv, i, k, bkt);
    MoveOne(chains, hashv, i, k);
    Push(hhNext, hhPrev, hashv, newBuckets, m, x, bkt, becomes);
    NonidealUpdate(m, bkt, [x] + m[bkt], ideal);
    RestUntouched(hhNext0, hhNext, hhPrev0, hashv, buckets, chains, i, k, newBuckets[bkt].hhHead);
  }

  lemma NotYetMoved(chains: seq<seq<Ptr>>, hashv: Hashes, i: nat, k: nat, j: nat)
    requires Hashed(hashv, chains) && Placed(hashv, chains) && i < |chains| && k < |chains[i]| && Distinct(chains[i])
    requires j == BucketOf(hashv[chains[i][k]], 2 * |chains|)
    ensures chains[i][k] !in Moved(chains, hashv, i, k)[j]
  {
    assert PlacedIn(hashv, chains[i], i, |chains|);
    Halves(hashv[chains[i][k]], |chains|);
    assert Done(chains, i, k, j % |chains|) == chains[i][..k];
  }

  lemma RestUntouched(hhNext0: Links, hhNext: Links, hhPrev0: Links, hashv: Hashes, buckets: seq<Bucket>,
                      chains: seq<seq<Ptr>>, i: nat, k: nat, target: Ptr)
    requires BucketsOk(hhNext0, hhPrev0, buckets, chains) && Placed(hashv, chains) && i < |chains| && k < |chains[i]|
    requires Agree(hhNext0, hhNext, chains[i][k..])
    requires forall c :: i < c < |chains| ==> Agree(hhNext0, hhNext, chains[c])
    ensures Agree(hhNext0, hhNext[chains[i][k] := target], chains[i][k + 1..])
    ensures forall c :: i < c < |chains| ==> Agree(hhNext0, hhNext[chains[i][k] := target], chains[c])
  {
    assert ChainOk(hhNext0, hhPrev0, buckets[i], chains[i]);
    assert PlacedIn(hashv, chains[i], i, |chains|);
    assert forall y :: y in chains[i][k + 1..] ==> y in chains[i][k..] && y != chains[i][k];
    forall c | i < c < |chains|
      ensures chains[i][k] !in chains[c]
    {
      assert PlacedIn(hashv, chains[c], c, |chains|);
    }
  }
}

/** Conservation across bucket expansion, and the load bound of the adaptive
    expansion threshold. */
module LoadBound {
  import opened DoublyLinked
  import opened Buckets
  import opened BucketExpansion

  // No item is lost or duplicated.

  lemma {:induction false} SplitInTwo(c: seq<Ptr>, hashv: Hashes, i: nat, b: nat)
    requires b > 0 && i < b
    requires forall x :: x in c ==> x in hashv && BucketOf(hashv[x], b) == i
    ensures |Collected(c, hashv, i, 2 * b)| + |Collected(c, hashv, i + b, 2 * b)| == |c|
    decreases |c|
  {
    if c != [] {
      var x := c[|c| - 1];
      SplitInTwo(c[..|c| - 1], hashv, i, b);
      Halves(hashv[x], b);
    }
  }

  lemma {:induction false} TotalAppend(s: seq<seq<Ptr>>, t: seq<seq<Ptr>>)
    ensures Total(s + t) == Total(s) + Total(t)
  {
    if s == [] {
      assert s + t == t;
    } else {
      assert (s + t)[1..] == s[1..] + t;
      TotalAppend(s[1..], t);
    }
  }

  lemma {:induction false} TotalPointwise(s: seq<seq<Ptr>>, t: seq<seq<Ptr>>, u: seq<seq<Ptr>>)
    requires |s| == |t| == |u|
    requires forall i :: 0 <= i < |s| ==> |s[i]| + |t[i]| == |u[i]|
    ensures Total(s) + Total(t) == Total(u)
  {
    if s != [] {
      TotalPointwise(s[1..], t[1..], u[1..]);
    }
  }

  lemma ExpansionConserves(chains: seq<seq<Ptr>>, hashv: Hashes)
    requires Hashed(hashv, chains) && Placed(hashv, chains)
    ensures Total(NewChains(chains, hashv)) == Total(chains)
  {
    hide NewChains, Total, Placed, Hashed;
    var b := |chains|;
    var n: seq<seq<Ptr>> := NewChains(chains, hashv);
    var low, high := n[..b], n[b..];
    forall i | 0 <= i < b
      ensures |low[i]| + |high[i]| == |chains[i]|
    {
      HalvesOfChain(chains, hashv, i);
    }
    TotalPointwise(low, high, chains);
    TotalAppend(low, high);
    assert low + high == n;
  }

  lemma HalvesOfChain(chains: seq<seq<Ptr>>, hashv: Hashes, i: nat)
    requires Hashed(hashv, chains) && Placed(hashv, chains) && i < |chains|
    ensures |NewChains(chains, hashv)[i]| + |NewChains(chains, hashv)[i + |chains|]| == |chains[i]|
  {
    var b := |chains|;
    assert PlacedIn(hashv, chains[i], i, b);
    Bits.DivModUnique(i, b, 0, i);
    Bits.DivModUnique(i + b, b, 1, i);
    SplitInTwo(chains[i], hashv, i, b);
  }

  /** An item is in the bucket its hash selects before an expansion iff it is after. */
  lemma ExpansionKeepsItems(chains: seq<seq<Ptr>>, hashv: Hashes, x: Ptr)
    requires Hashed(hashv, chains) && Placed(hashv, chains) && x in hashv
    ensures x in chains[BucketOf(hashv[x], |chains|)]
       <==> x in NewChains(chains, hashv)[BucketOf(hashv[x], 2 * |chains|)]
  {
    Halves(hashv[x], |chains|);
  }

  // The load bound.

  /** Each bucket stays within its threshold, strictly once its multiplier has grown,
      and the thresholds add up to at most twice the number of buckets. */
  ghost predicate LoadOk(buckets: seq<Bucket>) {
    && Thresholds(buckets) <= 2 * |buckets|
    && forall j :: 0 <= j < |buckets| ==> WithinThreshold(buckets[j])
  }

  predicate WithinThreshold(b: Bucket) {
    var limit := HASH_BKT_CAPACITY_THRESH * (b.expandMult + 1);
    b.count <= limit && (b.expandMult >= 1 ==> b.count < limit)
  }

  /** The sum of expand_mult + 1. */
  function Thresholds(buckets: seq<Bucket>): nat {
    if buckets == [] then 0 else buckets[0].expandMult + 1 + Thresholds(buckets[1..])
  }

  function Counts(buckets: seq<Bucket>): nat {
    if buckets == [] then 0 else buckets[0].count + Counts(buckets[1..])
  }

  /** The number of buckets whose multiplier has grown. */
  function Overused(buckets: seq<Bucket>): nat {
    if buckets == [] then 0 else (if buckets[0].expandMult >= 1 then 1 else 0) + Overused(buckets[1..])
  }

  lemma {:induction false} CountsBelowThresholds(buckets: seq<Bucket>)
    requires forall j :: 0 <= j < |buckets| ==> WithinThreshold(buckets[j])
    ensures Counts(buckets) <= HASH_BKT_CAPACITY_THRESH * Thresholds(buckets) - Overused(buckets)
    ensures Overused(buckets) == 0 ==> Thresholds(buckets) == |buckets|
  {
    if buckets != [] {
      assert WithinThreshold(buckets[0]);
      CountsBelowThresholds(buckets[1..]);
    }
  }

  /** While the thresholds hold, one more item still leaves at most 20 per bucket. */
  lemma LoadBounded(buckets: seq<Bucket>)
    requires LoadOk(buckets) && buckets != []
    ensures Counts(buckets) < 2 * HASH_BKT_CAPACITY_THRESH * |buckets|
  {
    CountsBelowThresholds(buckets);
  }

  lemma {:induction false} CountsAreTotal(hhNext: Links, hhPrev: Links, buckets: seq<Bucket>, chains: seq<seq<Ptr>>)
    requires BucketsOk(hhNext, hhPrev, buckets, chains)
    ensures Counts(buckets) == Total(chains)
    decreases |buckets|
  {
    if buckets != [] {
      assert ChainOk(hhNext, hhPrev, buckets[0], chains[0]);
      var bs, cs := buckets[1..], chains[1..];
      forall j | 0 <= j < |cs|
        ensures ChainOk(hhNext, hhPrev, bs[j], cs[j])
      {
        assert ChainOk(hhNext, hhPrev, buckets[j + 1], chains[j + 1]);
      }
      CountsAreTotal(hhNext, hhPrev, buckets[1..], chains[1..]);
    }
  }

  lemma {:induction false} ThresholdsUpdate(buckets: seq<Bucket>, j: nat, b: Bucket)
    requires j < |buckets| && b.expandMult == buckets[j].expandMult
    ensures Thresholds(buckets[j := b]) == Thresholds(buckets)
  {
    if j > 0 {
      assert buckets[j := b][1..] == buckets[1..][j - 1 := b];
      ThresholdsUpdate(buckets[1..], j - 1, b);
    } else {
      assert buckets[j := b][1..] == buckets[1..];
    }
  }

  /** A bucket whose count stays within its threshold does not disturb the others. */
  lemma LoadUpdate(buckets: seq<Bucket>, j: nat, b: Bucket)
    requires LoadOk(buckets) && j < |buckets| && b.expandMult == buckets[j].expandMult && WithinThreshold(b)
    ensures LoadOk(buckets[j := b])
  {
    ThresholdsUpdate(buckets, j, b);
  }

  lemma {:induction false} MultsBelowCounts(buckets: seq<Bucket>, ideal: nat)
    requires ideal > 0 && Mults(buckets, ideal)
    ensures ideal * (Thresholds(buckets) - |buckets|) <= Counts(buckets)
  {
    if buckets != [] {
      MultsBelowCounts(buckets[1..], ideal);
      MultTimesIdeal(buckets[0].count, ideal);
      var t := Thresholds(buckets[1..]) - |buckets[1..]|;
      assert ideal * (MultFor(buckets[0].count, ideal) + t) == ideal * MultFor(buckets[0].count, ideal) + ideal * t;
    }
  }

  lemma MultTimesIdeal(count: nat, ideal: nat)
    requires ideal > 0
    ensures ideal * MultFor(count, ideal) <= count < ideal * (MultFor(count, ideal) + 1) + (if count == ideal then 1 else 0)
    ensures count <= ideal ==> MultFor(count, ideal) == 0
    ensures count > ideal ==> MultFor(count, ideal) >= 1
  {
    var q := count / ideal;
    assert ideal * q <= count < ideal * (q + 1) by {
      assert count == ideal * q + count % ideal;
      assert ideal * (q + 1) == ideal * q + ideal;
    }
    assert count > ideal ==> q != 0;
  }

  /** Right after an expansion with an ideal chain length of at most 10, the load is
      as required: no threshold check needs to have passed before. */
  lemma ExpandedLoad(buckets: seq<Bucket>, ideal: nat)
    requires 0 < ideal <= HASH_BKT_CAPACITY_THRESH && Mults(buckets, ideal)
    requires Counts(buckets) <= ideal * |buckets|
    ensures LoadOk(buckets)
  {
    hide WithinThreshold, MultFor, Counts;
    MultsBelowCounts(buckets, ideal);
    CancelFactor(ideal, Thresholds(buckets) - |buckets|, |buckets|);
    forall j | 0 <= j < |buckets|
      ensures WithinThreshold(buckets[j])
    {
      MultKeepsThreshold(buckets[j], ideal);
    }
  }

  lemma MultKeepsThreshold(b: Bucket, ideal: nat)
    requires 0 < ideal <= HASH_BKT_CAPACITY_THRESH && b.expandMult == MultFor(b.count, ideal)
    ensures WithinThreshold(b)
  {
    hide MultFor;
    MultTimesIdeal(b.count, ideal);
    ScaleUp(b.expandMult + 1, ideal);
  }

  lemma ScaleUp(m: nat, ideal: nat)
    requires ideal <= HASH_BKT_CAPACITY_THRESH
    ensures ideal * m <= HASH_BKT_CAPACITY_THRESH * m
  {
  }

  lemma CancelFactor(a: nat, b: int, c: int)
    requires a > 0 && a * b <= a * c
    ensures b <= c
  {
    MonotoneProduct(a, c + 1, b);
    assert a * (c + 1) == a * c + a;
  }

  lemma MonotoneProduct(a: nat, b: int, c: int)
    ensures b <= c ==> a * b <= a * c
  {
  }
}

/** The bucket array of a uthash table: chains of items, and HASH_EXPAND_BUCKETS. */
module Buckets {
  import opened Bits
  import opened DoublyLinked

  const HASH_BKT_CAPACITY_THRESH := 10

  datatype Bucket = Bucket(hhHead: Ptr, count: nat, expandMult: nat)

  /** HASH_TO_BKT for a power of two number of buckets (HashToBkt computes it). */
  function BucketOf(hashv: nat, numBuckets: nat): (b: nat)
    requires numBuckets > 0
    ensures b < numBuckets
  {
    hashv % numBuckets
  }

  method HashToBkt(hashv: nat, ghost log2: nat, numBuckets: nat) returns (b: nat)
    requires numBuckets == Pow2(log2)
    ensures b == BucketOf(hashv, numBuckets)
  {
    AndMask(hashv, log2);
    b := And(hashv, numBuckets - 1);
  }

  type Hashes = map<Ptr, nat>

  ghost predicate ChainOk(hhNext: Links, hhPrev: Links, bucket: Bucket, chain: seq<Ptr>) {
    List(hhNext, hhPrev, chain) && bucket.hhHead == First(chain) && bucket.count == |chain|
  }

  /** Every bucket holds its chain: the bucket part of HASH_FSCK. */
  ghost predicate BucketsOk(hhNext: Links, hhPrev: Links, buckets: seq<Bucket>, chains: seq<seq<Ptr>>) {
    |buckets| == |chains| && forall j :: 0 <= j < |chains| ==> ChainOk(hhNext, hhPrev, buckets[j], chains[j])
  }

  /** Items sit in the bucket their hash value selects. */
  ghost predicate Placed(hashv: Hashes, chains: seq<seq<Ptr>>) {
    |chains| > 0 && forall j :: 0 <= j < |chains| ==> PlacedIn(hashv, chains[j], j, |chains|)
  }

  ghost predicate PlacedIn(hashv: Hashes, chain: seq<Ptr>, j: nat, n: nat)
    requires n > 0
  {
    forall x :: x in chain ==> x in hashv && BucketOf(hashv[x], n) == j
  }

  function Total(chains: seq<seq<Ptr>>): nat {
    if chains == [] then 0 else |chains[0]| + Total(chains[1..])
  }

  lemma {:induction false} TotalUpdate(chains: seq<seq<Ptr>>, j: nat, c: seq<Ptr>)
    requires j < |chains|
    ensures Total(chains[j := c]) == Total(chains) - |chains[j]| + |c|
  {
    if j > 0 {
      assert chains[j := c][1..] == chains[1..][j - 1 := c];
      TotalUpdate(chains[1..], j - 1, c);
    } else {
      assert chains[j := c][1..] == chains[1..];
    }
  }

  // Adding and removing an item (HASH_ADD_TO_BKT without its expansion, HASH_DEL_IN_BKT).

  lemma Push(hhNext: Links, hhPrev: Links, hashv: Hashes, buckets: seq<Bucket>, chains: seq<seq<Ptr>>, x: Ptr, j: nat, bucket: Bucket)
    requires BucketsOk(hhNext, hhPrev, buckets, chains) && Placed(hashv, chains)
    requires j < |chains| && x != NULL && x in hashv && BucketOf(hashv[x], |chains|) == j && x !in chains[j]
    requires bucket.hhHead == x && bucket.count == buckets[j].count + 1
    ensures var prev1 := hhPrev[x := NULL];
            && BucketsOk(hhNext[x := buckets[j].hhHead],
                         if buckets[j].hhHead == NULL then prev1 else prev1[buckets[j].hhHead := x],
                         buckets[j := bucket], chains[j := [x] + chains[j]])
            && Placed(hashv, chains[j := [x] + chains[j]])
  {
    var chain := chains[j];
    assert ChainOk(hhNext, hhPrev, buckets[j], chain);
    assert PlacedIn(hashv, chain, j, |chains|);
    assert chain != [] ==> LinkedAt(hhNext, hhPrev, chain, 0);
    ListPush(hhNext, hhPrev, chain, x);
    var next' := hhNext[x := buckets[j].hhHead];
    var prev' := if chain == [] then hhPrev[x := NULL] else hhPrev[x := NULL][chain[0] := x];
    forall i | 0 <= i < |chains| && i != j
      ensures ChainOk(next', prev', buckets[i], chains[i])
    {
      assert ChainOk(hhNext, hhPrev, buckets[i], chains[i]);
      assert PlacedIn(hashv, chains[i], i, |chains|);
      ListFrame(hhNext, hhPrev, next', prev', chains[i]);
    }
    var chains' := chains[j := [x] + chain];
    forall i | 0 <= i < |chains|
      ensures PlacedIn(hashv, chains'[i], i, |chains|)
    {
      assert PlacedIn(hashv, chains[i], i, |chains|);
    }
  }

  lemma Remove(hhNext: Links, hhPrev: Links, hashv: Hashes, buckets: seq<Bucket>, chains: seq<seq<Ptr>>, j: nat, k: nat, bucket: Bucket)
    requires BucketsOk(hhNext, hhPrev, buckets, chains) && Placed(hashv, chains)
    requires j < |chains| && k < |chains[j]|
    requires bucket.count == buckets[j].count - 1
    requires bucket.hhHead == if k == 0 then After(chains[j], k) else buckets[j].hhHead
    ensures var p, n := Before(chains[j], k), After(chains[j], k);
            && BucketsOk(if p != NULL then hhNext[p := n] else hhNext, if n != NULL then hhPrev[n := p] else hhPrev,
                         buckets[j := bucket], chains[j := Without(chains[j], k)])
            && Placed(hashv, chains[j := Without(chains[j], k)])
  {
    hide List;
    var chain := chains[j];
    assert ChainOk(hhNext, hhPrev, buckets[j], chain);
    assert PlacedIn(hashv, chain, j, |chains|);
    ListRemove(hhNext, hhPrev, chain, k);
    var p, n := Before(chain, k), After(chain, k);
    var next' := if p != NULL then hhNext[p := n] else hhNext;
    var prev' := if n != NULL then hhPrev[n := p] else hhPrev;
    forall i | 0 <= i < |chains| && i != j
      ensures ChainOk(next', prev', buckets[i], chains[i])
    {
      assert ChainOk(hhNext, hhPrev, buckets[i], chains[i]);
      assert PlacedIn(hashv, chains[i], i, |chains|);
      ListFrame(hhNext, hhPrev, next', prev', chains[i]);
    }
    var chains' := chains[j := Without(chain, k)];
    forall i | 0 <= i < |chains|
      ensures PlacedIn(hashv, chains'[i], i, |chains|)
    {
      assert PlacedIn(hashv, chains[i], i, |chains|);
    }
  }
}

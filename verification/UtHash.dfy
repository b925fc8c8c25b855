/** uthash tables: the application-order list, the buckets and the adaptive
    expansion, kept consistent by every operation (HASH_FSCK). Handles live in a heap
    with one map per pointer field; an element and its handle share an address. */
module UtHashTable {
  import opened Bits
  import opened DoublyLinked
  import opened Buckets
  import opened BucketExpansion
  import opened LoadBound

  const HASH_INITIAL_NUM_BUCKETS := 32
  const HASH_INITIAL_NUM_BUCKETS_LOG2 := 5

  /** UT_hash_table */
  datatype Table = Table(
    buckets: seq<Bucket>, numBuckets: nat, log2NumBuckets: nat, numItems: nat, tail: Ptr,
    idealChainMaxlen: nat, nonidealItems: nat, ineffExpands: nat, noexpand: bool)

  /** An expansion: how many items were spread over how many buckets, and how many of them
      exceed the ideal chain length there. */
  datatype Expansion = Expansion(items: nat, buckets: nat, nonideal: nat) {
    predicate Ineffective() {
      nonideal > items / 2
    }
  }

  /** How many expansions in a row have been ineffective up to now. */
  function Trailing(log: seq<Expansion>): nat {
    if log == [] || !log[|log| - 1].Ineffective() then 0 else 1 + Trailing(log[..|log| - 1])
  }

  predicate LastTwoIneffective(log: seq<Expansion>) {
    |log| >= 2 && log[|log| - 1].Ineffective() && log[|log| - 2].Ineffective()
  }

  /** What the expansions of a table since it was made have led to. */
  ghost predicate History(tbl: Table, log: seq<Expansion>) {
    && tbl.numBuckets == 32 * Pow2(|log|)
    && tbl.ineffExpands == Trailing(log)
    && (tbl.noexpand <==> tbl.ineffExpands > 1)
  }

  /** Expansion is inhibited exactly after two ineffective ones in a row. */
  lemma InhibitedIff(tbl: Table, log: seq<Expansion>)
    requires History(tbl, log)
    ensures tbl.noexpand <==> LastTwoIneffective(log)
  {
    if log != [] {
      var rest := log[..|log| - 1];
      assert Trailing(log) == if log[|log| - 1].Ineffective() then 1 + Trailing(rest) else 0;
      assert Trailing(rest) > 0 <==> rest != [] && rest[|rest| - 1].Ineffective();
    }
  }

  lemma HistorySame(tbl0: Table, tbl: Table, log: seq<Expansion>)
    requires History(tbl0, log) && tbl.numBuckets == tbl0.numBuckets
    requires tbl.ineffExpands == tbl0.ineffExpands && tbl.noexpand == tbl0.noexpand
    ensures History(tbl, log)
  {
  }

  /** A table as HASH_MAKE_TABLE leaves it, up to its items. */
  ghost predicate Unexpanded(tbl: Table) {
    && |tbl.buckets| == tbl.numBuckets == 32 && (forall j :: 0 <= j < |tbl.buckets| ==> tbl.buckets[j].expandMult == 0)
    && tbl.idealChainMaxlen == tbl.nonidealItems == tbl.ineffExpands == 0 && !tbl.noexpand
  }

  ghost predicate NoItems(tbl: Table) {
    forall j :: 0 <= j < |tbl.buckets| ==> tbl.buckets[j].count == 0
  }

  /** Nothing that an expansion sets has changed. */
  ghost predicate Steady(tbl0: Table, tbl: Table) {
    && |tbl.buckets| == |tbl0.buckets|
    && (forall j :: 0 <= j < |tbl.buckets| ==> tbl.buckets[j].expandMult == tbl0.buckets[j].expandMult)
    && tbl.numBuckets == tbl0.numBuckets && tbl.log2NumBuckets == tbl0.log2NumBuckets
    && tbl.idealChainMaxlen == tbl0.idealChainMaxlen && tbl.nonidealItems == tbl0.nonidealItems
    && tbl.ineffExpands == tbl0.ineffExpands && tbl.noexpand == tbl0.noexpand
  }

  /** HASH_EXPAND_BUCKETS has left `chains`. */
  ghost predicate Expanded(tbl0: Table, tbl: Table, chains: seq<seq<Ptr>>) {
    && tbl.numItems > 0 && tbl.numBuckets == 2 * tbl0.numBuckets > 0
    && tbl.idealChainMaxlen == CeilDiv(tbl.numItems, tbl.numBuckets) > 0
    && Mults(tbl.buckets, tbl.idealChainMaxlen)
    && tbl.nonidealItems == Nonideal(chains, tbl.idealChainMaxlen)
    && tbl.ineffExpands == (if tbl.nonidealItems > tbl.numItems / 2 then tbl0.ineffExpands + 1 else 0)
    && (tbl.noexpand <==> tbl0.noexpand || tbl.ineffExpands > 1)
  }

  function Entry(tbl: Table): Expansion {
    Expansion(tbl.numItems, tbl.numBuckets, tbl.nonidealItems)
  }

  function EmptyChains(): seq<seq<Ptr>> {
    seq(32, _ => [])
  }

  /** x in front of its chain. */
  function Pushed(chains: seq<seq<Ptr>>, x: Ptr, hashv: nat): seq<seq<Ptr>>
    requires |chains| > 0
  {
    var b := BucketOf(hashv, |chains|);
    chains[b := [x] + chains[b]]
  }

  /** x has been added to a table: it doubles if and only if that fills the bucket and
      expansion is not inhibited. */
  ghost predicate Grown(tbl0: Table, log0: seq<Expansion>, chains0: seq<seq<Ptr>>, hashv: Hashes, x: Ptr,
                        tbl: Table, log: seq<Expansion>, chains: seq<seq<Ptr>>) {
    && x in hashv && |chains0| > 0
    && var pushed := Pushed(chains0, x, hashv[x]);
    if FillsBucket(tbl0, hashv[x]) && !tbl0.noexpand
    then Hashed(hashv, pushed) && chains == NewChains(pushed, hashv) && Expanded(tbl0, tbl, chains) && log == log0 + [Entry(tbl)]
    else chains == pushed && Steady(tbl0, tbl) && log == log0
  }

  /** The same for the first element, which gets a table of its own. */
  ghost predicate Begun(hashv: Hashes, x: Ptr, tbl: Table, log: seq<Expansion>, chains: seq<seq<Ptr>>) {
    x in hashv && Unexpanded(tbl) && log == [] && chains == Pushed(EmptyChains(), x, hashv[x])
  }

  /** What an operation may do to the buckets and to the record of expansions. */
  ghost predicate Grew(tbl0: Table, log0: seq<Expansion>, tbl: Table, log: seq<Expansion>, chains: seq<seq<Ptr>>) {
    if log == log0 then Steady(tbl0, tbl)
    else !tbl0.noexpand && Expanded(tbl0, tbl, chains) && log == log0 + [Entry(tbl)]
  }

  lemma HistoryGrows(tbl0: Table, log: seq<Expansion>, tbl: Table, chains: seq<seq<Ptr>>)
    requires History(tbl0, log) && Expanded(tbl0, tbl, chains) && !tbl0.noexpand
    ensures History(tbl, log + [Entry(tbl)])
  {
    assert (log + [Entry(tbl)])[..|log|] == log;
    hide Nonideal, CeilDiv, Mults;
  }

  /** The list in application order. */
  ghost predicate AppOrderOk(next: Links, prev: Links, head: Ptr, tail: Ptr, order: seq<Ptr>) {
    List(next, prev, order) && head == First(order) && tail == Last(order)
  }

  /** The bucket half of HASH_FSCK: chains linked both ways, counts exact, items placed. */
  ghost predicate BucketsFsck(hhNext: Links, hhPrev: Links, hashv: Hashes, tbl: Table, chains: seq<seq<Ptr>>) {
    && |tbl.buckets| == tbl.numBuckets == Pow2(tbl.log2NumBuckets)
    && BucketsOk(hhNext, hhPrev, tbl.buckets, chains)
    && Placed(hashv, chains)
  }

  /** Both structures hold the same items, numItems of them. */
  ghost predicate SameItems(hashv: Hashes, chains: seq<seq<Ptr>>, order: seq<Ptr>, numItems: nat)
    requires |chains| > 0
  {
    && Total(chains) == |order| == numItems
    && (forall x :: x in order ==> x in hashv && x in chains[BucketOf(hashv[x], |chains|)])
    && (forall j, x :: 0 <= j < |chains| && x in chains[j] ==> x in order)
  }

  /** The load of a table that may still expand. */
  ghost predicate Adaptive(tbl: Table) {
    !tbl.noexpand ==> LoadOk(tbl.buckets) && tbl.idealChainMaxlen <= HASH_BKT_CAPACITY_THRESH
  }

  /** One more item with this hash value brings its bucket to its threshold. */
  predicate FillsBucket(tbl: Table, hashv: nat) {
    |tbl.buckets| > 0 &&
    var b := tbl.buckets[BucketOf(hashv, |tbl.buckets|)];
    b.count + 1 >= (b.expandMult + 1) * HASH_BKT_CAPACITY_THRESH
  }

  /** Less than 20 items per bucket while expansion is not inhibited. */
  lemma AdaptiveLoad(hhNext: Links, hhPrev: Links, hashv: Hashes, tbl: Table, chains: seq<seq<Ptr>>)
    requires BucketsFsck(hhNext, hhPrev, hashv, tbl, chains) && Adaptive(tbl) && !tbl.noexpand
    ensures Total(chains) < 20 * tbl.numBuckets
  {
    LoadBounded(tbl.buckets);
    CountsAreTotal(hhNext, hhPrev, tbl.buckets, chains);
  }

  /** tbl->ideal_chain_maxlen, by shift and mask. */
  function IdealChain(numItems: nat, log2: nat, numBuckets: nat): nat
    requires numBuckets > 0
  {
    ShiftRight(numItems, log2 + 1) + (if And(numItems, 2 * numBuckets - 1) != 0 then 1 else 0)
  }

  function CeilDiv(n: nat, m: nat): nat
    requires m > 0
  {
    n / m + (if n % m != 0 then 1 else 0)
  }

  /** It is the ceiling of items per new bucket. */
  lemma IdealIsCeiling(n: nat, log2: nat, b: nat)
    requires b == Pow2(log2)
    ensures IdealChain(n, log2, b) == CeilDiv(n, 2 * b)
  {
    assert Pow2(log2 + 1) == 2 * b;
    hide And, Pow2, ShiftRight;
    ShiftDivides(n, log2 + 1);
    AndMask(n, log2 + 1);
  }

  /** Enough for all items, and no more than needed; never 0 for a nonempty table. */
  lemma CeilDivBounds(n: nat, m: nat)
    requires m > 0
    ensures n <= m * CeilDiv(n, m) < n + m
    ensures n > 0 ==> CeilDiv(n, m) > 0
  {
    var q, r := n / m, n % m;
    assert n == m * q + r;
    assert m * (q + 1) == m * q + m;
  }

  /** An ideal length over 10 would need more than 20 items per bucket before doubling. */
  lemma CeilDivAtMost(n: nat, m: nat, k: nat)
    requires m > 0 && n <= m * k
    ensures CeilDiv(n, m) <= k
  {
    CeilDivBounds(n, m);
    var c := CeilDiv(n, m);
    hide CeilDiv;
    if c > k {
      MonotoneProduct(m, k + 1, c);
    }
    assert m * (k + 1) == m * k + m;
  }

  lemma SameItemsPush(hashv: Hashes, chains: seq<seq<Ptr>>, order: seq<Ptr>, n: nat, x: Ptr, j: nat)
    requires Placed(hashv, chains) && SameItems(hashv, chains, order, n)
    requires x in hashv && j == BucketOf(hashv[x], |chains|)
    ensures SameItems(hashv, chains[j := [x] + chains[j]], order + [x], n + 1)
  {
    TotalUpdate(chains, j, [x] + chains[j]);
  }

  lemma SameItemsExpand(hashv: Hashes, chains: seq<seq<Ptr>>, order: seq<Ptr>, n: nat)
    requires Hashed(hashv, chains) && Placed(hashv, chains) && SameItems(hashv, chains, order, n)
    ensures SameItems(hashv, NewChains(chains, hashv), order, n)
  {
    ExpansionConserves(chains, hashv);
    forall x | x in order
      ensures x in NewChains(chains, hashv)[BucketOf(hashv[x], 2 * |chains|)]
    {
      ExpansionKeepsItems(chains, hashv, x);
    }
  }

  lemma SameItemsRemove(hashv: Hashes, chains: seq<seq<Ptr>>, order: seq<Ptr>, n: nat, i: nat, j: nat, k: nat)
    requires Placed(hashv, chains) && SameItems(hashv, chains, order, n) && Distinct(order)
    requires i < |order| && j < |chains| && k < |chains[j]| && chains[j][k] == order[i] && Distinct(chains[j])
    ensures n > 0 && SameItems(hashv, chains[j := Without(chains[j], k)], Without(order, i), n - 1)
  {
    var chain', order' := Without(chains[j], k), Without(order, i);
    TotalUpdate(chains, j, chain');
    WithoutMembers(order, i);
    WithoutMembers(chains[j], k);
    assert PlacedIn(hashv, chains[j], j, |chains|);
    var chains' := chains[j := chain'];
    forall b, x | 0 <= b < |chains'| && x in chains'[b]
      ensures x in order'
    {
      assert PlacedIn(hashv, chains[b], b, |chains|);
    }
  }

  /** HASH_MAKE_TABLE */
  lemma NewTableOk(hhNext: Links, hhPrev: Links, hashv: Hashes, tbl: Table, chains: seq<seq<Ptr>>)
    requires tbl.buckets == seq(HASH_INITIAL_NUM_BUCKETS, _ => Bucket(NULL, 0, 0))
    requires chains == EmptyChains()
    requires tbl.numBuckets == HASH_INITIAL_NUM_BUCKETS && tbl.log2NumBuckets == HASH_INITIAL_NUM_BUCKETS_LOG2
    requires tbl.idealChainMaxlen == 0
    ensures BucketsFsck(hhNext, hhPrev, hashv, tbl, chains) && Adaptive(tbl) && SameItems(hashv, chains, [], 0)
  {
    forall j | 0 <= j < |chains|
      ensures ChainOk(hhNext, hhPrev, tbl.buckets[j], chains[j]) && PlacedIn(hashv, chains[j], j, |chains|)
    {
    }
    EmptyTotals(tbl.buckets, chains);
  }

  lemma {:induction false} EmptyTotals(buckets: seq<Bucket>, chains: seq<seq<Ptr>>)
    requires |buckets| == |chains|
    requires forall j :: 0 <= j < |chains| ==> chains[j] == [] && buckets[j].expandMult == 0
    ensures Total(chains) == 0 && Thresholds(buckets) == |buckets|
    decreases |chains|
  {
    if chains != [] {
      EmptyTotals(buckets[1..], chains[1..]);
    }
  }

  /** The hash value of an element outside the table does not matter to it. */
  lemma HashedFrame(hashv: Hashes, chains: seq<seq<Ptr>>, order: seq<Ptr>, n: nat, x: Ptr, h: nat)
    requires Placed(hashv, chains) && SameItems(hashv, chains, order, n) && x !in order
    ensures Placed(hashv[x := h], chains) && SameItems(hashv[x := h], chains, order, n)
  {
    forall j | 0 <= j < |chains|
      ensures PlacedIn(hashv[x := h], chains[j], j, |chains|)
    {
      assert PlacedIn(hashv, chains[j], j, |chains|);
    }
  }

  lemma TableFrame(hhNext: Links, hhPrev: Links, hashv: Hashes, tbl: Table, chains: seq<seq<Ptr>>, order: seq<Ptr>, x: Ptr, h: nat)
    requires BucketsFsck(hhNext, hhPrev, hashv, tbl, chains) && SameItems(hashv, chains, order, tbl.numItems) && x !in order
    ensures BucketsFsck(hhNext, hhPrev, hashv[x := h], tbl, chains) && SameItems(hashv[x := h], chains, order, tbl.numItems)
  {
    HashedFrame(hashv, chains, order, tbl.numItems, x, h);
  }

  /** tail and numItems do not matter to the buckets. */
  lemma TableRest(hhNext: Links, hhPrev: Links, hashv: Hashes, tbl: Table, chains: seq<seq<Ptr>>, tail: Ptr, numItems: nat)
    requires BucketsFsck(hhNext, hhPrev, hashv, tbl, chains)
    ensures BucketsFsck(hhNext, hhPrev, hashv, tbl.(tail := tail, numItems := numItems), chains)
    ensures Adaptive(tbl) ==> Adaptive(tbl.(tail := tail, numItems := numItems))
    ensures |chains| > 0
  {
  }

  lemma SameItemsTotal(hashv: Hashes, chains: seq<seq<Ptr>>, order: seq<Ptr>, n: nat)
    requires |chains| > 0 && SameItems(hashv, chains, order, n)
    ensures Total(chains) == n
  {
  }

  lemma ChainCount(hhNext: Links, hhPrev: Links, hashv: Hashes, tbl: Table, chains: seq<seq<Ptr>>)
    requires BucketsFsck(hhNext, hhPrev, hashv, tbl, chains)
    ensures |chains| == |tbl.buckets| == tbl.numBuckets > 0
  {
  }

  lemma OutsideChains(hashv: Hashes, chains: seq<seq<Ptr>>, order: seq<Ptr>, n: nat, x: Ptr, j: nat)
    requires |chains| > 0 && SameItems(hashv, chains, order, n) && x !in order && j < |chains|
    ensures x !in chains[j]
  {
  }

  lemma InChain(hashv: Hashes, chains: seq<seq<Ptr>>, order: seq<Ptr>, n: nat, x: Ptr)
    requires |chains| > 0 && SameItems(hashv, chains, order, n) && x in order
    ensures x in hashv && x in chains[BucketOf(hashv[x], |chains|)]
  {
  }

  lemma WithoutMembers(s: seq<Ptr>, k: nat)
    requires k < |s| && Distinct(s)
    ensures forall x :: x in Without(s, k) <==> x in s && x != s[k]
  {
    assert forall i :: 0 <= i < |s| && i != k ==> s[i] == Without(s, k)[if i < k then i else i - 1];
  }

  class UtHash<Key(==)> {
    var head: Ptr          // the application's pointer; NULL for an empty table
    var tbl: Table
    var next: Links
    var prev: Links
    var hhNext: Links
    var hhPrev: Links
    var hashv: Hashes
    var key: map<Ptr, Key>

    ghost var order: seq<Ptr>        // items in application order
    ghost var chains: seq<seq<Ptr>>  // items by bucket
    ghost var expansions: seq<Expansion> // of the current table

    /** HASH_FSCK, and the load invariant. */
    ghost predicate Fsck()
      reads this
    {
      if head == NULL then order == []
      else
        && order != []
        && AppOrderOk(next, prev, head, tbl.tail, order)
        && BucketsFsck(hhNext, hhPrev, hashv, tbl, chains)
        && SameItems(hashv, chains, order, tbl.numItems)
        && Adaptive(tbl) && History(tbl, expansions)
        && forall x :: x in order ==> x in key
    }

    constructor ()
      ensures Fsck() && order == [] && head == NULL
    {
      head, tbl := NULL, Table([], 0, 0, 0, NULL, 0, 0, 0, false);
      next, prev, hhNext, hhPrev, hashv, key := map[], map[], map[], map[], map[], map[];
      order, chains, expansions := [], [], [];
    }

    /** HASH_FIND_BYHASHVALUE */
    method Find(k: Key, hashval: nat) returns (out: Ptr)
      requires Fsck()
      ensures out != NULL ==> out in order && out in key && key[out] == k && out in hashv && hashv[out] == hashval
      ensures out == NULL ==> forall x :: x in order ==> x in key && x in hashv && !(hashv[x] == hashval && key[x] == k)
    {
      out := NULL;
      if head != NULL {
        var bkt := HashToBkt(hashval, tbl.log2NumBuckets, tbl.numBuckets);
        ghost var chain := chains[bkt];
        assert ChainOk(hhNext, hhPrev, tbl.buckets[bkt], chain);
        out := tbl.buckets[bkt].hhHead;
        ghost var i := 0;
        while out != NULL
          invariant i <= |chain| && out == (if i < |chain| then chain[i] else NULL)
          invariant forall j :: 0 <= j < i ==> chain[j] in order && !(hashv[chain[j]] == hashval && key[chain[j]] == k)
          decreases |chain| - i
        {
          assert LinkedAt(hhNext, hhPrev, chain, i);
          if hashv[out] == hashval && key[out] == k {
            break;
          }
          out := hhNext[out];
          i := i + 1;
        }
        if out == NULL {
          assert i < |chain| ==> LinkedAt(hhNext, hhPrev, chain, i);
        }
      }
    }

    method ExpandBuckets()
      requires BucketsFsck(hhNext, hhPrev, hashv, tbl, chains) && Total(chains) == tbl.numItems > 0
      requires tbl.noexpand || tbl.numItems <= 2 * HASH_BKT_CAPACITY_THRESH * tbl.numBuckets
      requires |chains| == tbl.numBuckets
      modifies `tbl, `hhNext, `hhPrev, `chains, `expansions
      ensures Hashed(hashv, old(chains)) && chains == NewChains(old(chains), hashv)
      ensures BucketsFsck(hhNext, hhPrev, hashv, tbl, chains) && Adaptive(tbl)
      ensures tbl.numItems == old(tbl).numItems && tbl.tail == old(tbl).tail && Expanded(old(tbl), tbl, chains)
      ensures expansions == old(expansions) + [Entry(tbl)]
    {
      var ideal := IdealChain(tbl.numItems, tbl.log2NumBuckets, tbl.numBuckets);
      IdealIsCeiling(tbl.numItems, tbl.log2NumBuckets, tbl.numBuckets);
      CeilDivBounds(tbl.numItems, 2 * tbl.numBuckets);
      ghost var chains0 := chains;
      var newBuckets, nonideal;
      hhNext, hhPrev, newBuckets, nonideal := Redistribute(hhNext, hhPrev, hashv, tbl.buckets, ideal, chains, tbl.log2NumBuckets);
      chains := NewChains(chains0, hashv);
      ExpandedAdaptive(hhNext, hhPrev, hashv, newBuckets, chains0, ideal, tbl);
      var ineff := if nonideal > tbl.numItems / 2 then tbl.ineffExpands + 1 else 0;
      tbl := tbl.(
        buckets := newBuckets,
        numBuckets := 2 * tbl.numBuckets,
        log2NumBuckets := tbl.log2NumBuckets + 1,
        idealChainMaxlen := ideal,
        nonidealItems := nonideal,
        ineffExpands := ineff,
        noexpand := tbl.noexpand || ineff > 1);
      expansions := expansions + [Entry(tbl)];
    }

    /** HASH_ADD_TO_BKT up to its test: x goes in front of its chain. */
    method PushItem(x: Ptr, ghost items: seq<Ptr>) returns (full: bool)
      requires BucketsFsck(hhNext, hhPrev, hashv, tbl, chains) && Adaptive(tbl) && x != NULL && x in hashv && x !in items
      requires tbl.numItems > 0 && SameItems(hashv, chains, items, tbl.numItems - 1)
      modifies `tbl, `hhNext, `hhPrev, `chains
      ensures |old(chains)| > 0 && chains == Pushed(old(chains), x, hashv[x]) && Steady(old(tbl), tbl)
      ensures tbl == old(tbl).(buckets := tbl.buckets) && BucketsFsck(hhNext, hhPrev, hashv, tbl, chains)
      ensures SameItems(hashv, chains, items + [x], tbl.numItems) && Total(chains) == tbl.numItems
      ensures full <==> FillsBucket(old(tbl), hashv[x])
      ensures full || tbl.noexpand ==> tbl.noexpand || tbl.numItems <= 2 * HASH_BKT_CAPACITY_THRESH * tbl.numBuckets
      ensures !full || tbl.noexpand ==> Adaptive(tbl)
    {
      hide BucketsOk, Placed, SameItems, LoadOk;
      ChainCount(hhNext, hhPrev, hashv, tbl, chains);
      SameItemsTotal(hashv, chains, items, tbl.numItems - 1);
      if !tbl.noexpand {
        AdaptiveLoad(hhNext, hhPrev, hashv, tbl, chains);
      }
      var bkt := HashToBkt(hashv[x], tbl.log2NumBuckets, tbl.numBuckets);
      OutsideChains(hashv, chains, items, tbl.numItems - 1, x, bkt);
      var was := tbl.buckets[bkt];
      var becomes := was.(count := was.count + 1, hhHead := x);
      Push(hhNext, hhPrev, hashv, tbl.buckets, chains, x, bkt, becomes);
      SameItemsPush(hashv, chains, items, tbl.numItems - 1, x, bkt);
      if !tbl.noexpand && WithinThreshold(becomes) {
        LoadUpdate(tbl.buckets, bkt, becomes);
      }
      hhNext := hhNext[x := was.hhHead];
      hhPrev := hhPrev[x := NULL];
      if was.hhHead != NULL {
        hhPrev := hhPrev[was.hhHead := x];
      }
      tbl := tbl.(buckets := tbl.buckets[bkt := becomes]);
      chains := chains[bkt := [x] + chains[bkt]];
      SameItemsTotal(hashv, chains, items + [x], tbl.numItems);
      full := becomes.count >= (becomes.expandMult + 1) * HASH_BKT_CAPACITY_THRESH;
    }

    /** HASH_ADD_TO_BKT */
    method AddToBkt(x: Ptr, ghost items: seq<Ptr>)
      requires BucketsFsck(hhNext, hhPrev, hashv, tbl, chains) && Adaptive(tbl) && History(tbl, expansions)
      requires x != NULL && x in hashv && x !in items
      requires tbl.numItems > 0 && SameItems(hashv, chains, items, tbl.numItems - 1)
      modifies `tbl, `hhNext, `hhPrev, `chains, `expansions
      ensures BucketsFsck(hhNext, hhPrev, hashv, tbl, chains) && Adaptive(tbl) && History(tbl, expansions)
      ensures SameItems(hashv, chains, items + [x], tbl.numItems)
      ensures tbl.numItems == old(tbl).numItems && tbl.tail == old(tbl).tail
      ensures Grown(old(tbl), old(expansions), old(chains), hashv, x, tbl, expansions, chains)
    {
      hide BucketsOk, Placed, SameItems, Adaptive, History, Nonideal, CeilDiv, Mults, FillsBucket, Pushed, NewChains, Hashed;
      var full := PushItem(x, items);
      HistorySame(old(tbl), tbl, expansions);
      if full && !tbl.noexpand {
        ghost var tbl1, chains1 := tbl, chains;
        ChainCount(hhNext, hhPrev, hashv, tbl, chains);
        ExpandBuckets();
        HistoryGrows(tbl1, old(expansions), tbl, chains);
        SameItemsExpand(hashv, chains1, items + [x], tbl.numItems);
      }
    }

    method MakeTable()
      modifies `tbl, `chains, `expansions
      ensures BucketsFsck(hhNext, hhPrev, hashv, tbl, chains) && Adaptive(tbl) && History(tbl, expansions)
      ensures SameItems(hashv, chains, [], 0) && tbl.numItems == 0 && tbl.tail == head
      ensures Unexpanded(tbl) && NoItems(tbl) && expansions == [] && chains == EmptyChains()
    {
      tbl := Table(seq(HASH_INITIAL_NUM_BUCKETS, _ => Bucket(NULL, 0, 0)), HASH_INITIAL_NUM_BUCKETS,
                   HASH_INITIAL_NUM_BUCKETS_LOG2, 0, head, 0, 0, 0, false);
      chains, expansions := EmptyChains(), [];
      NewTableOk(hhNext, hhPrev, hashv, tbl, chains);
    }

    method AppendList(x: Ptr)
      requires order != [] && AppOrderOk(next, prev, head, tbl.tail, order) && x != NULL && x !in order
      modifies `next, `prev, `tbl
      ensures AppOrderOk(next, prev, head, tbl.tail, order + [x]) && tbl == old(tbl).(tail := x)
    {
      ListAppend(next, prev, order, x);
      hide List;
      next := next[x := NULL];
      prev := prev[x := tbl.tail];
      next := next[tbl.tail := x];
      tbl := tbl.(tail := x);
    }

    /** The first element of a table. */
    method StartList(x: Ptr)
      requires x != NULL
      modifies `head, `next, `prev, `tbl, `chains, `expansions
      ensures head == x && AppOrderOk(next, prev, head, tbl.tail, [x])
      ensures BucketsFsck(hhNext, hhPrev, hashv, tbl, chains) && Adaptive(tbl) && History(tbl, expansions)
      ensures SameItems(hashv, chains, [], 0) && tbl.numItems == 0
      ensures Unexpanded(tbl) && NoItems(tbl) && expansions == [] && chains == EmptyChains()
    {
      hide BucketsFsck, Adaptive, List, SameItems, History, Unexpanded, NoItems;
      next, prev := next[x := NULL], prev[x := NULL];
      head := x;
      ListSingleton(next, prev, x);
      MakeTable();
    }

    /** HASH_ADD_KEYPTR_BYHASHVALUE: a new element goes last in application order. */
    method Add(x: Ptr, k: Key, hashval: nat)
      requires Fsck() && x != NULL && x !in order
      modifies this
      ensures Fsck() && order == old(order) + [x]
      ensures hashv == old(hashv)[x := hashval] && key == old(key)[x := k]
      ensures old(head) == NULL ==> Begun(hashv, x, tbl, expansions, chains)
      ensures old(head) != NULL ==> Grown(old(tbl), old(expansions), old(chains), hashv, x, tbl, expansions, chains)
    {
      hide BucketsFsck, Adaptive, List, SameItems, FillsBucket, AppOrderOk, History, Unexpanded, NoItems, Grown, Begun;
      hashv := hashv[x := hashval];
      key := key[x := k];
      if head == NULL {
        assert order + [x] == [x];
        StartList(x);
      } else {
        TableFrame(hhNext, hhPrev, old(hashv), tbl, chains, order, x, hashval);
        TableRest(hhNext, hhPrev, hashv, tbl, chains, x, tbl.numItems);
        AppendList(x);
      }
      TableRest(hhNext, hhPrev, hashv, tbl, chains, tbl.tail, tbl.numItems + 1);
      ghost var tbl0 := tbl;
      tbl := tbl.(numItems := tbl.numItems + 1);
      HistorySame(if old(head) == NULL then tbl0 else old(tbl), tbl, expansions);
      ghost var tbl1, log1, chains1 := tbl, expansions, chains;
      AddToBkt(x, order);
      if old(head) == NULL {
        FirstAdded(hashv, x, tbl0, tbl1, tbl, expansions, chains);
      } else {
        GrownRest(old(tbl), old(expansions), old(chains), hashv, x, tbl, expansions, chains, tbl1);
      }
      order := order + [x];
    }

    /** HASH_DEL_IN_BKT; k is the position of the item in its chain. */
    method DelInBkt(bkt: nat, del: Ptr, ghost k: nat)
      requires BucketsFsck(hhNext, hhPrev, hashv, tbl, chains) && Adaptive(tbl)
      requires bkt < |chains| && k < |chains[bkt]| && chains[bkt][k] == del
      modifies `tbl, `hhNext, `hhPrev, `chains
      ensures BucketsFsck(hhNext, hhPrev, hashv, tbl, chains) && Adaptive(tbl)
      ensures chains == old(chains)[bkt := Without(old(chains)[bkt], k)]
      ensures tbl.numItems == old(tbl).numItems && tbl.tail == old(tbl).tail && Steady(old(tbl), tbl)
    {
      ghost var chain := chains[bkt];
      assert ChainOk(hhNext, hhPrev, tbl.buckets[bkt], chain) && LinkedAt(hhNext, hhPrev, chain, k);
      assert LinkedAt(hhNext, hhPrev, chain, 0);
      assert k > 0 ==> LinkedAt(hhNext, hhPrev, chain, k - 1);
      assert k + 1 < |chain| ==> LinkedAt(hhNext, hhPrev, chain, k + 1);
      var n, p := hhNext[del], hhPrev[del];
      var was := tbl.buckets[bkt];
      var becomes := was.(count := was.count - 1, hhHead := if was.hhHead == del then n else was.hhHead);
      Remove(hhNext, hhPrev, hashv, tbl.buckets, chains, bkt, k, becomes);
      if !tbl.noexpand {
        LoadUpdate(tbl.buckets, bkt, becomes);
      }
      hide BucketsOk, Placed, LoadOk;
      if p != NULL {
        hhNext := hhNext[p := n];
      }
      if n != NULL {
        hhPrev := hhPrev[n := p];
      }
      tbl := tbl.(buckets := tbl.buckets[bkt := becomes]);
      chains := chains[bkt := Without(chain, k)];
    }

    /** The application-order part of HASH_DELETE; i is the element's position. */
    method Unlink(del: Ptr, ghost i: nat)
      requires AppOrderOk(next, prev, head, tbl.tail, order) && |order| > 1 && i < |order| && order[i] == del
      modifies `next, `prev, `head, `tbl
      ensures AppOrderOk(next, prev, head, tbl.tail, Without(order, i)) && head != NULL
      ensures tbl == old(tbl).(tail := tbl.tail)
    {
      assert LinkedAt(next, prev, order, i);
      assert i > 0 ==> LinkedAt(next, prev, order, i - 1);
      assert i + 1 < |order| ==> LinkedAt(next, prev, order, i + 1);
      assert order[|order| - 1] == del ==> i == |order| - 1;
      assert LinkedAt(next, prev, order, 0) && LinkedAt(next, prev, order, 1);
      ListRemove(next, prev, order, i);
      hide List;
      var p, n := prev[del], next[del];
      if del == tbl.tail {
        tbl := tbl.(tail := p);
      }
      if p != NULL {
        next := next[p := n];
      } else {
        head := n;
      }
      if n != NULL {
        prev := prev[n := p];
      }
    }

    /** HASH_DELETE of one element among others. */
    method DeleteAmong(del: Ptr, ghost i: nat)
      requires Fsck() && i < |order| && order[i] == del && |order| > 1
      modifies this
      ensures Fsck() && order == Without(old(order), i) && head != NULL && hashv == old(hashv) && key == old(key)
      ensures Steady(old(tbl), tbl) && expansions == old(expansions)
    {
      hide List, Placed, SameItems, Adaptive, BucketsOk, History, Steady;
      Ends(next, prev, order, i);
      WithoutMembers(order, i);
      ghost var order' := Without(order, i);
      ChainCount(hhNext, hhPrev, hashv, tbl, chains);
      InChain(hashv, chains, order, tbl.numItems, del);
      var bkt := HashToBkt(hashv[del], tbl.log2NumBuckets, tbl.numBuckets);
      ghost var k := IndexOf(chains[bkt], del);
      ChainDistinct(hhNext, hhPrev, tbl, chains, bkt);
      SameItemsRemove(hashv, chains, order, tbl.numItems, i, bkt, k);
      Unlink(del, i);
      TableRest(hhNext, hhPrev, hashv, old(tbl), chains, tbl.tail, tbl.numItems);
      ghost var tbl1 := tbl;
      DelInBkt(bkt, del, k);
      TableRest(hhNext, hhPrev, hashv, tbl, chains, tbl.tail, tbl.numItems - 1);
      SteadyRest(old(tbl), tbl1, tbl, expansions, tbl.numItems - 1);
      tbl := tbl.(numItems := tbl.numItems - 1);
      order := order';
    }

    /** HASH_DELETE: deleting the last element frees the table. */
    method Delete(del: Ptr)
      requires Fsck() && del in order
      modifies this
      ensures Fsck() && order == Without(old(order), IndexOf(old(order), del))
      ensures hashv == old(hashv) && key == old(key)
      ensures |old(order)| > 1 <==> head != NULL
      ensures head != NULL ==> Steady(old(tbl), tbl) && expansions == old(expansions)
    {
      hide List, Placed, SameItems, Adaptive, BucketsFsck, History, Steady;
      ghost var i := IndexOf(order, del);
      Ends(next, prev, order, i);
      if prev[del] == NULL && next[del] == NULL {
        WithoutMembers(order, i);
        head := NULL;
        order := Without(order, i);
      } else {
        DeleteAmong(del, i);
      }
    }

    /** HASH_REPLACE_BYHASHVALUE: the element found under the key, if any, gives way
        to the new one, which goes last. */
    method Replace(add: Ptr, k: Key, hashval: nat) returns (replaced: Ptr)
      requires Fsck() && add != NULL && add !in order
      modifies this
      ensures Fsck()
      ensures replaced != NULL ==>
        && replaced in old(order) && old(key)[replaced] == k && old(hashv)[replaced] == hashval
        && order == Without(old(order), IndexOf(old(order), replaced)) + [add]
      ensures replaced == NULL ==> order == old(order) + [add]
      ensures replaced == NULL ==> forall x :: x in old(order) ==> !(old(hashv)[x] == hashval && old(key)[x] == k)
      ensures hashv == old(hashv)[add := hashval] && key == old(key)[add := k]
      ensures |order| == 1 ==> Begun(hashv, add, tbl, expansions, chains)
      ensures |order| > 1 ==> Grew(old(tbl), old(expansions), tbl, expansions, chains)
    {
      hide Begun, Grown, Grew, Steady, BucketsFsck, List, SameItems, Adaptive, History;
      replaced := Find(k, hashval);
      if replaced != NULL {
        Delete(replaced);
      } else if head != NULL {
        SteadySelf(tbl);
      }
      ghost var tbl1, chains1 := tbl, chains;
      Add(add, k, hashval);
      if |order| > 1 {
        GrownGrew(old(tbl), tbl1, old(expansions), chains1, hashv, add, tbl, expansions, chains);
      }
    }
  }

  /** The table the first element gets, with the element in it. */
  lemma FirstAdded(hashv: Hashes, x: Ptr, tbl0: Table, tbl1: Table, tbl: Table, log: seq<Expansion>, chains: seq<seq<Ptr>>)
    requires Unexpanded(tbl0) && NoItems(tbl0) && tbl1 == tbl0.(numItems := tbl1.numItems)
    requires Grown(tbl1, [], EmptyChains(), hashv, x, tbl, log, chains)
    ensures Begun(hashv, x, tbl, log, chains)
  {
    hide NewChains, Hashed, Expanded;
  }

  lemma SteadyRest(tbl0: Table, tbl1: Table, tbl: Table, log: seq<Expansion>, n: nat)
    requires History(tbl0, log) && tbl1 == tbl0.(tail := tbl1.tail) && Steady(tbl1, tbl)
    ensures Steady(tbl0, tbl.(numItems := n)) && History(tbl.(numItems := n), log)
  {
  }

  lemma SteadySelf(tbl: Table)
    ensures Steady(tbl, tbl)
  {
  }

  lemma GrownGrew(tbl0: Table, tbl1: Table, log0: seq<Expansion>, chains0: seq<seq<Ptr>>, hashv: Hashes, x: Ptr,
                  tbl: Table, log: seq<Expansion>, chains: seq<seq<Ptr>>)
    requires Steady(tbl0, tbl1) && Grown(tbl1, log0, chains0, hashv, x, tbl, log, chains)
    ensures Grew(tbl0, log0, tbl, log, chains)
  {
    hide Nonideal, CeilDiv, Mults, NewChains, Hashed, Pushed, FillsBucket;
    assert |log0 + [Entry(tbl)]| > |log0|;
  }

  /** tail and numItems do not matter to growth. */
  lemma GrownRest(tbl0: Table, log0: seq<Expansion>, chains0: seq<seq<Ptr>>, hashv: Hashes, x: Ptr,
                  tbl: Table, log: seq<Expansion>, chains: seq<seq<Ptr>>, tbl1: Table)
    requires tbl1 == tbl0.(tail := tbl1.tail, numItems := tbl1.numItems)
    requires Grown(tbl1, log0, chains0, hashv, x, tbl, log, chains)
    ensures Grown(tbl0, log0, chains0, hashv, x, tbl, log, chains)
  {
    hide Nonideal, CeilDiv, Mults, NewChains, Hashed;
  }

  function IndexOf(s: seq<Ptr>, x: Ptr): (i: nat)
    requires x in s
    ensures i < |s| && s[i] == x
  {
    if s[0] == x then 0 else 1 + IndexOf(s[1..], x)
  }

  lemma InOrderNotNull<Key>(t: UtHash<Key>)
    requires t.Fsck()
    ensures NULL !in t.order
  {
    forall i | 0 <= i < |t.order|
      ensures t.order[i] != NULL
    {
      assert LinkedAt(t.next, t.prev, t.order, i);
    }
  }

  /** An element without neighbours is alone. */
  lemma Ends(next: Links, prev: Links, order: seq<Ptr>, i: nat)
    requires List(next, prev, order) && i < |order|
    ensures Distinct(order) && order[i] in next && order[i] in prev
    ensures prev[order[i]] == NULL && next[order[i]] == NULL <==> |order| == 1
  {
    assert LinkedAt(next, prev, order, i);
    assert i > 0 ==> LinkedAt(next, prev, order, i - 1);
    assert i + 1 < |order| ==> LinkedAt(next, prev, order, i + 1);
  }

  lemma ChainDistinct(hhNext: Links, hhPrev: Links, tbl: Table, chains: seq<seq<Ptr>>, j: nat)
    requires BucketsOk(hhNext, hhPrev, tbl.buckets, chains) && j < |chains|
    ensures Distinct(chains[j])
  {
    assert ChainOk(hhNext, hhPrev, tbl.buckets[j], chains[j]);
  }

  /** After an expansion triggered below 20 items per bucket, the load is in order. */
  lemma ExpandedAdaptive(hhNext: Links, hhPrev: Links, hashv: Hashes, newBuckets: seq<Bucket>, chains: seq<seq<Ptr>>,
                         ideal: nat, tbl: Table)
    requires Hashed(hashv, chains) && Placed(hashv, chains) && |chains| == tbl.numBuckets > 0
    requires BucketsOk(hhNext, hhPrev, newBuckets, NewChains(chains, hashv))
    requires ideal == CeilDiv(tbl.numItems, 2 * tbl.numBuckets) && ideal > 0 && Mults(newBuckets, ideal)
    requires Total(chains) == tbl.numItems
    requires tbl.noexpand || tbl.numItems <= 2 * HASH_BKT_CAPACITY_THRESH * tbl.numBuckets
    ensures !tbl.noexpand ==> LoadOk(newBuckets) && ideal <= HASH_BKT_CAPACITY_THRESH
  {
    if !tbl.noexpand {
      CeilDivBounds(tbl.numItems, 2 * tbl.numBuckets);
      CeilDivAtMost(tbl.numItems, 2 * tbl.numBuckets, HASH_BKT_CAPACITY_THRESH);
      hide CeilDiv;
      ExpansionConserves(chains, hashv);
      CountsAreTotal(hhNext, hhPrev, newBuckets, NewChains(chains, hashv));
      ExpandedLoad(newBuckets, ideal);
    }
  }
}

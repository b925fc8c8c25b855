/** Whole runs of a uthash table against an abstract dictionary: a finite map plus the
    application order. */
module UtHashRuns {
  import opened Bits
  import opened DoublyLinked
  import opened Buckets
  import opened BucketExpansion
  import opened StableSort
  import opened UtHashTable
  import opened UtHashMap
  import opened UtHashSort

  datatype Op<!Key> =
    | PutOp(x: Ptr, k: Key)  // HASH_REPLACE, or HASH_ADD under a new key
    | RemoveOp(x: Ptr)       // HASH_DELETE
    | SortOp(cmp: Cmp)       // HASH_SORT

  datatype Dict<Key> = Dict(m: map<Key, Ptr>, order: seq<Ptr>)

  /** What the macros demand: added elements are new, deleted ones are there. */
  ghost predicate Legal<Key>(d: Dict<Key>, op: Op<Key>) {
    match op
    case PutOp(x, _) => x != NULL && x !in d.order
    case RemoveOp(x) => x in d.order
    case SortOp(_) => |d.order| < UNSIGNED_LIMIT
  }

  /** Adding puts last, replacing drops the old element, sorting is the stable sort. */
  ghost function Step<Key(!new)>(d: Dict<Key>, op: Op<Key>): Dict<Key>
    requires Legal(d, op)
  {
    match op
    case PutOp(x, k) =>
      var kept := if k in d.m && d.m[k] in d.order then Without(d.order, IndexOf(d.order, d.m[k])) else d.order;
      Dict(d.m[k := x], kept + [x])
    case RemoveOp(x) => Dict(map k | k in d.m && d.m[k] != x :: d.m[k], Without(d.order, IndexOf(d.order, x)))
    case SortOp(cmp) => Dict(d.m, SortFrom(d.order, 1, cmp))
  }

  ghost predicate LegalRun<Key(!new)>(d: Dict<Key>, ops: seq<Op<Key>>)
    decreases |ops|
  {
    ops == [] || (Legal(d, ops[0]) && LegalRun(Step(d, ops[0]), ops[1..]))
  }

  ghost function Steps<Key(!new)>(d: Dict<Key>, ops: seq<Op<Key>>): Dict<Key>
    requires LegalRun(d, ops)
    decreases |ops|
  {
    if ops == [] then d else Steps(Step(d, ops[0]), ops[1..])
  }

  ghost function DictOf<Key>(t: UtHash<Key>, h: Key -> nat): Dict<Key>
    requires Keyed(t, h)
    reads t
  {
    Dict(MapOf(t, h), t.order)
  }

  method Perform<Key(==,!new)>(t: UtHash<Key>, h: Key -> nat, op: Op<Key>)
    requires Keyed(t, h) && Legal(DictOf(t, h), op)
    modifies t
    ensures Keyed(t, h) && DictOf(t, h) == Step(old(DictOf(t, h)), op)
    // growing
    ensures op.PutOp? && |t.order| == 1 ==> Begun(t.hashv, op.x, t.tbl, t.expansions, t.chains)
    ensures op.PutOp? && |t.order| > 1 ==> Grew(old(t.tbl), old(t.expansions), t.tbl, t.expansions, t.chains)
    ensures !op.PutOp? && t.head != NULL ==> Steady(old(t.tbl), t.tbl) && t.expansions == old(t.expansions)
  {
    hide UtHash.Fsck, Contents, DistinctKeys, HashedBy, SortFrom, Without, Begun, Grew, Steady;
    MapMembers(t.order, t.key);
    InOrderNotNull(t);
    match op {
      case PutOp(x, k) =>
        var _ := Put(t, h, x, k);
      case RemoveOp(x) =>
        RemoveByValue(t.order, t.key, x);
        UtHashMap.Remove(t, h, x);
      case SortOp(cmp) =>
        SortFromMembers(t.order, 1, cmp);
        ReorderedMap(t.order, SortFrom(t.order, 1, cmp), t.key, t.hashv, h);
        Sort(t, cmp);
        SortSteady(old(t.tbl), t.tbl);
    }
  }

  lemma SortSteady(tbl0: Table, tbl: Table)
    ensures tbl == tbl0.(tail := tbl.tail) ==> Steady(tbl0, tbl)
  {
  }

  /** After any legal run the table is consistent and stands for the dictionary the
      operations describe. It has doubled once per expansion, and has less than 20 items a
      bucket unless the last two expansions have been ineffective. */
  method Run<Key(==,!new)>(t: UtHash<Key>, h: Key -> nat, ops: seq<Op<Key>>)
    requires Keyed(t, h) && LegalRun(DictOf(t, h), ops)
    modifies t
    ensures Keyed(t, h) && DictOf(t, h) == Steps(old(DictOf(t, h)), ops)
    ensures t.head != NULL ==> t.tbl.numBuckets == 32 * Pow2(|t.expansions|)
    ensures t.head != NULL ==> (t.tbl.noexpand <==> LastTwoIneffective(t.expansions))
    ensures t.head != NULL ==> LastTwoIneffective(t.expansions) || |t.order| < 20 * t.tbl.numBuckets
  {
    hide Keyed, MapOf, Legal, Step, LastTwoIneffective;
    var rest := ops;
    while rest != []
      invariant Keyed(t, h) && LegalRun(DictOf(t, h), rest)
      invariant Steps(DictOf(t, h), rest) == Steps(old(DictOf(t, h)), ops)
      decreases |rest|
    {
      Perform(t, h, rest[0]);
      rest := rest[1..];
    }
    if t.head != NULL {
      LoadAfter(t, h);
    }
  }

  lemma LoadAfter<Key>(t: UtHash<Key>, h: Key -> nat)
    requires Keyed(t, h) && t.head != NULL
    ensures t.tbl.numBuckets == 32 * Pow2(|t.expansions|) && (t.tbl.noexpand <==> LastTwoIneffective(t.expansions))
    ensures LastTwoIneffective(t.expansions) || |t.order| < 20 * t.tbl.numBuckets
  {
    InhibitedIff(t.tbl, t.expansions);
    if !t.tbl.noexpand {
      AdaptiveLoad(t.hhNext, t.hhPrev, t.hashv, t.tbl, t.chains);
    }
  }

  lemma MapMembers<Key>(order: seq<Ptr>, key: map<Ptr, Key>)
    requires DistinctKeys(order, key)
    ensures forall x :: x in order ==> key[x] in Contents(order, key) && Contents(order, key)[key[x]] == x
    ensures forall k :: k in Contents(order, key) ==> Contents(order, key)[k] in order
  {
  }

  /** Deleting an element is deleting its key. */
  lemma RemoveByValue<Key(!new)>(order: seq<Ptr>, key: map<Ptr, Key>, x: Ptr)
    requires DistinctKeys(order, key) && x in order
    ensures var m := Contents(order, key); m - {key[x]} == map k | k in m && m[k] != x :: m[k]
  {
    MapMembers(order, key);
  }

  lemma ReorderedMap<Key>(order: seq<Ptr>, order': seq<Ptr>, key: map<Ptr, Key>, hashv: map<Ptr, nat>, h: Key -> nat)
    requires DistinctKeys(order, key) && HashedBy(order, key, hashv, h) && multiset(order') == multiset(order)
    ensures DistinctKeys(order', key) && HashedBy(order', key, hashv, h) && Contents(order', key) == Contents(order, key)
  {
    forall x
      ensures x in order' <==> x in order
    {
      assert x in multiset(order') <==> x in multiset(order);
    }
    ContentsUnique(order', key, Contents(order, key));
  }

  /** The state before the tenth element: all of them in one chain of a fresh table. */
  ghost predicate Filling(tbl: Table, chains: seq<seq<Ptr>>, log: seq<Expansion>, hashval: nat, n: nat) {
    Unexpanded(tbl) && log == [] && |chains| == 32 && |chains[hashval % 32]| == n && tbl.buckets[hashval % 32].count == n
  }

  lemma FillsAtTen(tbl: Table, chains: seq<seq<Ptr>>, hashval: nat, n: nat)
    requires Filling(tbl, chains, [], hashval, n)
    ensures FillsBucket(tbl, hashval) <==> n >= 9
  {
  }

  lemma BucketCount<Key>(t: UtHash<Key>, b: nat)
    requires t.Fsck() && t.head != NULL && b < |t.chains|
    ensures |t.tbl.buckets| == |t.chains| && t.tbl.buckets[b].count == |t.chains[b]|
  {
    assert ChainOk(t.hhNext, t.hhPrev, t.tbl.buckets[b], t.chains[b]);
  }

  /** Ten elements with one hash value: the first nine leave the 32 buckets of a fresh
      table, the tenth doubles them. */
  method TenAlike<Key(==,!new)>(t: UtHash<Key>, xs: seq<Ptr>, ks: seq<Key>, hashval: nat) returns (nine: nat)
    requires t.Fsck() && t.head == NULL && |xs| == |ks| == 10 && NULL !in xs && Distinct(xs)
    modifies t
    ensures nine == 32 && t.tbl.numBuckets == 64 && t.order == xs
  {
    hide UtHash.Fsck, Grown, Begun, Filling, FillsBucket, Expanded;
    nine := 0;
    Empty(t);
    var i := 0;
    while i < 10
      invariant i <= 10 && t.Fsck() && t.order == xs[..i] && (t.head == NULL <==> i == 0)
      invariant 0 < i < 10 ==> Filling(t.tbl, t.chains, t.expansions, hashval, i)
      invariant i == 10 ==> nine == 32 && t.tbl.numBuckets == 64
    {
      ghost var tbl0, log0, chains0 := t.tbl, t.expansions, t.chains;
      nine := t.tbl.numBuckets;
      t.Add(xs[i], ks[i], hashval);
      NotEmpty(t);
      FilledMore(t, i, tbl0, log0, chains0, xs[i], hashval);
      i := i + 1;
    }
    assert xs[..10] == xs;
  }

  lemma Empty<Key>(t: UtHash<Key>)
    requires t.Fsck() && t.head == NULL
    ensures t.order == []
  {
  }

  lemma NotEmpty<Key>(t: UtHash<Key>)
    requires t.Fsck() && t.order != []
    ensures t.head != NULL && |t.chains| > 0
  {
  }

  lemma FilledMore<Key>(t: UtHash<Key>, i: nat, tbl0: Table, log0: seq<Expansion>, chains0: seq<seq<Ptr>>, x: Ptr, hashval: nat)
    requires t.Fsck() && t.head != NULL && x in t.hashv && t.hashv[x] == hashval && i < 10
    requires i == 0 ==> Begun(t.hashv, x, t.tbl, t.expansions, t.chains)
    requires i > 0 ==> Filling(tbl0, chains0, log0, hashval, i)
    requires i > 0 ==> Grown(tbl0, log0, chains0, t.hashv, x, t.tbl, t.expansions, t.chains)
    ensures i < 9 ==> Filling(t.tbl, t.chains, t.expansions, hashval, i + 1)
    ensures i == 9 ==> tbl0.numBuckets == 32 && t.tbl.numBuckets == 64
  {
    hide UtHash.Fsck, NewChains, Hashed, Nonideal, CeilDiv, Mults;
    if i > 0 {
      FillsAtTen(tbl0, chains0, hashval, i);
    }
    if i < 9 {
      BucketCount(t, hashval % 32);
    }
  }
}

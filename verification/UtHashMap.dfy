/** uthash as a finite map with insertion order, for callers that keep keys distinct,
    and the symbol sets of the runtime built on it. */
module UtHashMap {
  import opened DoublyLinked
  import opened UtHashTable

  ghost predicate DistinctKeys<Key>(order: seq<Ptr>, key: map<Ptr, Key>) {
    && (forall x :: x in order ==> x in key)
    && forall x, y :: x in order && y in order && key[x] == key[y] ==> x == y
  }

  /** The map a table stands for. */
  ghost function Contents<Key>(order: seq<Ptr>, key: map<Ptr, Key>): (m: map<Key, Ptr>)
    requires forall x :: x in order ==> x in key
    ensures forall k :: k in m ==> m[k] in order && key[m[k]] == k
    ensures forall x :: x in order ==> key[x] in m
  {
    if order == [] then map[]
    else
      var rest := order[..|order| - 1];
      var x := order[|order| - 1];
      assert forall y :: y in order <==> y in rest || y == x;
      Contents(rest, key)[key[x] := x]
  }

  /** With distinct keys the map is determined by membership alone. */
  lemma ContentsUnique<Key>(order: seq<Ptr>, key: map<Ptr, Key>, m: map<Key, Ptr>)
    requires DistinctKeys(order, key)
    requires forall k :: k in m ==> m[k] in order && key[m[k]] == k
    requires forall x :: x in order ==> key[x] in m
    ensures m == Contents(order, key)
  {
    hide Contents;
    ContentsFacts(order, key);
    var c := Contents(order, key);
    forall k | k in m
      ensures k in c && m[k] == c[k]
    {
      assert key[m[k]] in c;
    }
    forall k | k in c
      ensures k in m
    {
      assert key[c[k]] in m;
    }
  }

  lemma ContentsFacts<Key>(order: seq<Ptr>, key: map<Ptr, Key>)
    requires DistinctKeys(order, key)
    ensures forall x :: x in order ==> key[x] in Contents(order, key) && Contents(order, key)[key[x]] == x
    ensures forall k :: k in Contents(order, key) ==> Contents(order, key)[k] in order && key[Contents(order, key)[k]] == k
  {
  }

  lemma ContentsAdd<Key>(order: seq<Ptr>, key: map<Ptr, Key>, x: Ptr, k: Key)
    requires DistinctKeys(order, key) && x !in order && k !in Contents(order, key)
    ensures DistinctKeys(order + [x], key[x := k])
    ensures Contents(order + [x], key[x := k]) == Contents(order, key)[k := x]
  {
    ContentsUnique(order + [x], key[x := k], Contents(order, key)[k := x]);
  }

  lemma ContentsRemove<Key>(order: seq<Ptr>, key: map<Ptr, Key>, i: nat)
    requires DistinctKeys(order, key) && i < |order| && Distinct(order)
    ensures DistinctKeys(Without(order, i), key)
    ensures Contents(Without(order, i), key) == Contents(order, key) - {key[order[i]]}
  {
    WithoutMembers(order, i);
    ContentsUnique(Without(order, i), key, Contents(order, key) - {key[order[i]]});
  }

  /** Every item carries the hash value of its key. */
  ghost predicate HashedBy<Key>(order: seq<Ptr>, key: map<Ptr, Key>, hashv: map<Ptr, nat>, h: Key -> nat) {
    forall x :: x in order ==> x in key && x in hashv && hashv[x] == h(key[x])
  }

  /** A consistent table with distinct keys, hashed by h. */
  ghost predicate Keyed<Key>(t: UtHash<Key>, h: Key -> nat)
    reads t
  {
    t.Fsck() && DistinctKeys(t.order, t.key) && HashedBy(t.order, t.key, t.hashv, h)
  }

  lemma AbsentKey<Key>(order: seq<Ptr>, key: map<Ptr, Key>, hashv: map<Ptr, nat>, h: Key -> nat, k: Key)
    requires HashedBy(order, key, hashv, h)
    requires forall x :: x in order ==> !(hashv[x] == h(k) && key[x] == k)
    ensures k !in Contents(order, key)
  {
  }

  lemma HashedAfter<Key>(order: seq<Ptr>, key: map<Ptr, Key>, hashv: map<Ptr, nat>, h: Key -> nat,
                         order': seq<Ptr>, x: Ptr, k: Key)
    requires HashedBy(order, key, hashv, h) && forall y :: y in order' ==> y in order || y == x
    ensures HashedBy(order', key[x := k], hashv[x := h(k)], h)
  {
  }

  lemma HashedWithout<Key>(order: seq<Ptr>, key: map<Ptr, Key>, hashv: map<Ptr, nat>, h: Key -> nat, i: nat)
    requires HashedBy(order, key, hashv, h) && i < |order| && Distinct(order)
    ensures HashedBy(Without(order, i), key, hashv, h)
  {
    WithoutMembers(order, i);
  }

  ghost function MapOf<Key>(t: UtHash<Key>, h: Key -> nat): map<Key, Ptr>
    requires Keyed(t, h)
    reads t
  {
    Contents(t.order, t.key)
  }

  lemma OrderDistinct<Key>(t: UtHash<Key>)
    requires t.Fsck()
    ensures Distinct(t.order)
  {
  }

  /** HASH_FIND returns the map's entry. */
  method Lookup<Key(==)>(t: UtHash<Key>, h: Key -> nat, k: Key) returns (out: Ptr)
    requires Keyed(t, h)
    ensures out == if k in MapOf(t, h) then MapOf(t, h)[k] else NULL
    ensures k in MapOf(t, h) ==> out != NULL
  {
    out := t.Find(k, h(k));
    InOrderNotNull(t);
  }

  /** HASH_ADD under a key that is not there. */
  method Insert<Key(==)>(t: UtHash<Key>, h: Key -> nat, x: Ptr, k: Key)
    requires Keyed(t, h) && x != NULL && x !in t.order && k !in MapOf(t, h)
    modifies t
    ensures Keyed(t, h) && MapOf(t, h) == old(MapOf(t, h))[k := x] && t.order == old(t.order) + [x]
    ensures old(t.head) == NULL ==> Begun(t.hashv, x, t.tbl, t.expansions, t.chains)
    ensures old(t.head) != NULL ==>
              Grown(old(t.tbl), old(t.expansions), old(t.chains), t.hashv, x, t.tbl, t.expansions, t.chains)
  {
    hide UtHash.Fsck, Contents, DistinctKeys, HashedBy, Begun, Grown;
    ContentsAdd(t.order, t.key, x, k);
    HashedAfter(t.order, t.key, t.hashv, h, t.order + [x], x, k);
    t.Add(x, k, h(k));
  }

  /** HASH_DELETE */
  method Remove<Key(==)>(t: UtHash<Key>, h: Key -> nat, x: Ptr)
    requires Keyed(t, h) && x in t.order
    modifies t
    ensures Keyed(t, h) && MapOf(t, h) == old(MapOf(t, h)) - {old(t.key)[x]}
    ensures t.order == Without(old(t.order), IndexOf(old(t.order), x))
    ensures t.head != NULL ==> Steady(old(t.tbl), t.tbl) && t.expansions == old(t.expansions)
  {
    hide UtHash.Fsck, Contents, DistinctKeys, Without, IndexOf, HashedBy, Steady;
    ghost var i := IndexOf(t.order, x);
    OrderDistinct(t);
    ContentsRemove(t.order, t.key, i);
    HashedWithout(t.order, t.key, t.hashv, h, i);
    t.Delete(x);
  }

  /** HASH_REPLACE: the map is updated and the replaced element handed back. */
  method Put<Key(==)>(t: UtHash<Key>, h: Key -> nat, x: Ptr, k: Key) returns (replaced: Ptr)
    requires Keyed(t, h) && x != NULL && x !in t.order
    modifies t
    ensures Keyed(t, h) && MapOf(t, h) == old(MapOf(t, h))[k := x]
    ensures replaced == if k in old(MapOf(t, h)) then old(MapOf(t, h))[k] else NULL
    ensures t.order == (if replaced == NULL then old(t.order) else Without(old(t.order), IndexOf(old(t.order), replaced))) + [x]
    ensures |t.order| == 1 ==> Begun(t.hashv, x, t.tbl, t.expansions, t.chains)
    ensures |t.order| > 1 ==> Grew(old(t.tbl), old(t.expansions), t.tbl, t.expansions, t.chains)
  {
    hide UtHash.Fsck, Contents, IndexOf, Without, DistinctKeys, HashedBy, Begun, Grew;
    OrderDistinct(t);
    InOrderNotNull(t);
    ghost var order0, key0, hashv0 := t.order, t.key, t.hashv;
    replaced := t.Replace(x, k, h(k));
    if replaced != NULL {
      ContentsReplace(order0, key0, IndexOf(order0, replaced), x, k);
    } else {
      AbsentKey(order0, key0, hashv0, h, k);
      ContentsAdd(order0, key0, x, k);
    }
    HashedAfter(order0, key0, hashv0, h, t.order, x, k);
  }

  lemma ContentsReplace<Key>(order: seq<Ptr>, key: map<Ptr, Key>, i: nat, x: Ptr, k: Key)
    requires DistinctKeys(order, key) && i < |order| && Distinct(order) && key[order[i]] == k && x !in order
    ensures var order' := Without(order, i) + [x];
            && DistinctKeys(order', key[x := k])
            && Contents(order', key[x := k]) == Contents(order, key)[k := x]
            && forall y :: y in order' ==> y in order || y == x
    ensures k in Contents(order, key) && Contents(order, key)[k] == order[i]
  {
    WithoutMembers(order, i);
    var order', m := Without(order, i) + [x], Contents(order, key);
    assert order[i] in order;
    assert m[k] == order[i];
    hide Contents, Without;
    assert forall y :: y in order' <==> (y in order && y != order[i]) || y == x;
    ContentsUnique(order', key[x := k], m[k := x]);
  }

  // gib_insert_set and gib_contains_set.

  ghost function Symbols(t: UtHash<int>, h: int -> nat): set<int>
    requires Keyed(t, h)
    reads t
  {
    MapOf(t, h).Keys
  }

  /** cell is the address gib_alloc would return for a new element. */
  method InsertSet(t: UtHash<int>, h: int -> nat, sym: int, cell: Ptr)
    requires Keyed(t, h) && cell != NULL && cell !in t.order
    modifies t
    ensures Keyed(t, h) && Symbols(t, h) == old(Symbols(t, h)) + {sym}
  {
    hide Keyed, MapOf;
    var s := Lookup(t, h, sym);
    if s == NULL {
      Insert(t, h, cell, sym);
    }
  }

  method ContainsSet(t: UtHash<int>, h: int -> nat, sym: int) returns (found: bool)
    requires Keyed(t, h)
    ensures found <==> sym in Symbols(t, h)
  {
    var s := Lookup(t, h, sym);
    found := s != NULL;
  }
}

/** Doubly linked lists in a heap of handles: one map per pointer field, 0 for NULL. */
module DoublyLinked {

  type Ptr = nat
  type Links = map<Ptr, Ptr>
  const NULL: Ptr := 0

  ghost predicate Distinct<T>(s: seq<T>) {
    forall i, j :: 0 <= i < j < |s| ==> s[i] != s[j]
  }

  function First(s: seq<Ptr>): Ptr {
    if s == [] then NULL else s[0]
  }

  function Last(s: seq<Ptr>): Ptr {
    if s == [] then NULL else s[|s| - 1]
  }

  /** The element after position i, or NULL. */
  function After(s: seq<Ptr>, i: nat): Ptr
    requires i < |s|
  {
    if i + 1 < |s| then s[i + 1] else NULL
  }

  function Before(s: seq<Ptr>, i: nat): Ptr
    requires i < |s|
  {
    if i > 0 then s[i - 1] else NULL
  }

  /** The links hold exactly the list s, in both directions. */
  ghost predicate List(next: Links, prev: Links, s: seq<Ptr>) {
    Distinct(s) && forall i :: 0 <= i < |s| ==> LinkedAt(next, prev, s, i)
  }

  ghost predicate LinkedAt(next: Links, prev: Links, s: seq<Ptr>, i: nat)
    requires i < |s|
  {
    && s[i] != NULL && s[i] in next && s[i] in prev
    && next[s[i]] == After(s, i) && prev[s[i]] == Before(s, i)
  }

  ghost predicate Agree(m: Links, m': Links, s: seq<Ptr>) {
    forall x :: x in s && x in m ==> x in m' && m'[x] == m[x]
  }

  lemma ListFrame(next: Links, prev: Links, next': Links, prev': Links, s: seq<Ptr>)
    requires List(next, prev, s) && Agree(next, next', s) && Agree(prev, prev', s)
    ensures List(next', prev', s)
  {
    forall i | 0 <= i < |s|
      ensures LinkedAt(next', prev', s, i)
    {
      assert LinkedAt(next, prev, s, i);
    }
  }

  /** HASH_ADD_TO_BKT's relinking: a new first element. */
  lemma ListPush(next: Links, prev: Links, s: seq<Ptr>, x: Ptr)
    requires List(next, prev, s) && x != NULL && x !in s
    ensures var prev1 := prev[x := NULL];
            List(next[x := First(s)], if s == [] then prev1 else prev1[s[0] := x], [x] + s)
  {
    var r := [x] + s;
    var next', prev1 := next[x := First(s)], prev[x := NULL];
    var prev' := if s == [] then prev1 else prev1[s[0] := x];
    forall i | 0 <= i < |r|
      ensures LinkedAt(next', prev', r, i)
    {
      assert i > 0 ==> LinkedAt(next, prev, s, i - 1);
    }
  }

  /** HASH_APPEND_LIST: a new last element. */
  lemma ListAppend(next: Links, prev: Links, s: seq<Ptr>, x: Ptr)
    requires List(next, prev, s) && s != [] && x != NULL && x !in s
    ensures List(next[x := NULL][Last(s) := x], prev[x := Last(s)], s + [x])
  {
    var r := s + [x];
    var next', prev' := next[x := NULL][Last(s) := x], prev[x := Last(s)];
    forall i | 0 <= i < |r|
      ensures LinkedAt(next', prev', r, i)
    {
      assert i < |s| ==> LinkedAt(next, prev, s, i);
    }
  }

  lemma ListSingleton(next: Links, prev: Links, x: Ptr)
    requires x != NULL && x in next && x in prev && next[x] == prev[x] == NULL
    ensures List(next, prev, [x])
  {
  }

  function Without(s: seq<Ptr>, k: nat): (r: seq<Ptr>)
    requires k < |s|
    ensures |r| == |s| - 1
  {
    s[..k] + s[k + 1..]
  }

  /** Unlinking the element at position k, as both deletion macros do. */
  lemma ListRemove(next: Links, prev: Links, s: seq<Ptr>, k: nat)
    requires List(next, prev, s) && k < |s|
    ensures var p, n := Before(s, k), After(s, k);
            List(if p != NULL then next[p := n] else next, if n != NULL then prev[n := p] else prev, Without(s, k))
  {
    var p, n := Before(s, k), After(s, k);
    var r := Without(s, k);
    WithoutDistinct(s, k);
    var next' := if p != NULL then next[p := n] else next;
    var prev' := if n != NULL then prev[n := p] else prev;
    forall i | 0 <= i < |r|
      ensures LinkedAt(next', prev', r, i)
    {
      var j := if i < k then i else i + 1;
      assert LinkedAt(next, prev, s, j) && r[i] == s[j];
    }
  }

  lemma WithoutDistinct<T>(s: seq<T>, k: nat)
    requires Distinct(s) && k < |s|
    ensures Distinct(s[..k] + s[k + 1..])
  {
    var r := s[..k] + s[k + 1..];
    assert forall i :: 0 <= i < |r| ==> r[i] == s[if i < k then i else i + 1];
  }
}

/** The trees of the parallel-sum benchmark and what its programs compute on them.
    This is also the meaning of the pointer-tree version. */
module FooTrees {
  import opened Memory
  import opened Trees

  const PAR_SIZE_THRESHOLD := 8 * 1000
  const PAR_HEIGHT_THRESHOLD := 10   // the pointer version switches by height
  const INT_LIMIT := 0x8000_0000_0000_0000

  datatype Foo =
    | A(n: Word)
    | B(n: Word, f1: Foo, f2: Foo)
    | C(n: Word, f1: Foo, f2: Foo, f3: Foo)

  function MkSpec(n: int): (f: Foo)
    requires n < INT_LIMIT
    decreases if n <= 0 then 0 else n
  {
    if n <= 0 then A(10)
    else if n == 1 then B(n, MkSpec(n - 1), MkSpec(n - 2))
    else C(n, MkSpec(n - 1), MkSpec(n - 2), MkSpec(n - 3))
  }

  function SumSpec(f: Foo): Word {
    match f
    case A(n) => n
    case B(n, f1, f2) => Wrap(SumSpec(f1) + SumSpec(f2) + n)
    case C(n, f1, f2, f3) => Wrap(n + SumSpec(f1) + SumSpec(f2) + SumSpec(f3))
  }

  /** The size mkFoo reports: the bytes of the nodes, not counting redirections. */
  function Size(f: Foo): (s: nat) {
    match f
    case A(_) => 9
    case B(_, f1, f2) => Size(f1) + Size(f2) + 9
    case C(_, f1, f2, f3) => Size(f1) + Size(f2) + Size(f3) + 17
  }

  predicate IsBig(f1: Foo, f2: Foo, f3: Foo) {
    Size(f1) + Size(f2) + Size(f3) + 1 > PAR_SIZE_THRESHOLD
  }

  /** How many nodes get random-access pointers. */
  function BigCount(f: Foo): nat {
    match f
    case A(_) => 0
    case B(_, f1, f2) => BigCount(f1) + BigCount(f2)
    case C(_, f1, f2, f3) => BigCount(f1) + BigCount(f2) + BigCount(f3) + (if IsBig(f1, f2, f3) then 1 else 0)
  }

  // Trees by their paths from the root: the numbers of the children gone through.

  type Path = seq<nat>

  function Child(f: Foo, i: nat): Foo
    requires HasChild(f, i)
  {
    if i == 1 then f.f1 else if i == 2 then f.f2 else f.f3
  }

  predicate HasChild(f: Foo, i: nat) {
    !f.A? && 1 <= i <= (if f.B? then 2 else 3)
  }

  predicate HasPath(f: Foo, p: Path)
    decreases |p|
  {
    p == [] || (HasChild(f, p[0]) && HasPath(Child(f, p[0]), p[1..]))
  }

  function Subtree(f: Foo, p: Path): Foo
    requires HasPath(f, p)
    decreases |p|
  {
    if p == [] then f else Subtree(Child(f, p[0]), p[1..])
  }

  function Steps(p: Path): nat {
    if p == [] then 0 else p[0] + Steps(p[1..])
  }

  /** mkFoo n: the ith child of a node is i steps further down, so a node's place decides
      all: C with three children while more than 1 is left of n, then B, then A. */
  lemma {:induction false} MadeAt(n: int, p: Path)
    requires n < INT_LIMIT && HasPath(MkSpec(n), p)
    ensures var f, m := Subtree(MkSpec(n), p), n - Steps(p);
            && (f.C? <==> m > 1) && (f.B? <==> m == 1) && (f.A? <==> m <= 0)
            && f.n == if m <= 0 then 10 else m
    decreases |p|
  {
    if p != [] {
      MadeAt(n - p[0], p[1..]);
    }
  }

  function Values(f: Foo): seq<Word> {
    match f
    case A(n) => [n]
    case B(n, f1, f2) => [n] + Values(f1) + Values(f2)
    case C(n, f1, f2, f3) => [n] + Values(f1) + Values(f2) + Values(f3)
  }

  /** The sum of all values, modulo 2^64. */
  lemma SumOfValues(f: Foo)
    ensures SumSpec(f) == Total(Values(f)) % 0x1_0000_0000_0000_0000
  {
    hide SumSpec, Values, Total;
    SumWrapped(f);
  }

  lemma {:induction false} SumWrapped(f: Foo)
    ensures SumSpec(f) == Wrap(Total(Values(f)))
  {
    hide Wrap;
    match f
    case A(n) =>
      TotalOne(n);
      WrapWord(n);
    case B(n, f1, f2) =>
      SumWrapped(f1);
      SumWrapped(f2);
      TotalNode(n, Values(f1), Values(f2));
      WrapThree(n, Total(Values(f1)), Total(Values(f2)), 0);
    case C(n, f1, f2, f3) =>
      SumWrapped(f1);
      SumWrapped(f2);
      SumWrapped(f3);
      TotalNode(n, Values(f1), Values(f2));
      TotalAppend([n] + Values(f1) + Values(f2), Values(f3));
      WrapThree(n, Total(Values(f1)), Total(Values(f2)), Total(Values(f3)));
  }

  lemma TotalNode(n: Word, s: seq<Word>, s': seq<Word>)
    ensures Total([n] + s + s') == n + Total(s) + Total(s')
  {
    TotalAppend([n] + s, s');
    TotalAppend([n], s);
    TotalOne(n);
  }

  lemma WrapThree(n: int, a: int, b: int, c: int)
    ensures Wrap(n + Wrap(a) + Wrap(b) + Wrap(c)) == Wrap(n + a + b + c)
    ensures Wrap(Wrap(a) + Wrap(b) + n) == Wrap(n + a + b)
  {
    hide Wrap;
    WrapLeft(a, n + Wrap(b));
    WrapLeft(b, n + a);
    WrapLeft(a, n + Wrap(b) + Wrap(c));
    WrapLeft(b, n + a + Wrap(c));
    WrapLeft(c, n + a + b);
  }

  // The pointer-tree version: sumFoo_seq, and sumFoo with its height threshold.

  function PointerSumSeq(f: Foo): Word {
    match f
    case A(n) => n
    case B(n, f1, f2) => Wrap(n + PointerSumSeq(f1) + PointerSumSeq(f2))
    case C(n, f1, f2, f3) => Wrap(n + PointerSumSeq(f1) + PointerSumSeq(f2) + PointerSumSeq(f3))
  }

  function PointerSum(f: Foo): Word {
    match f
    case A(n) => n
    case B(n, f1, f2) => Wrap(n + PointerSum(f1) + PointerSum(f2))
    case C(n, f1, f2, f3) =>
      if n <= PAR_HEIGHT_THRESHOLD || n >= INT_LIMIT then PointerSumSeq(f)
      else Wrap(n + PointerSum(f1) + PointerSum(f2) + PointerSum(f3))
  }

  /** Whatever the thresholds, both versions mean the same sum. */
  lemma {:induction false} PointerSums(f: Foo)
    ensures PointerSumSeq(f) == SumSpec(f) && PointerSum(f) == SumSpec(f)
  {
    match f
    case A(_) =>
    case B(_, f1, f2) =>
      PointerSums(f1);
      PointerSums(f2);
    case C(_, f1, f2, f3) =>
      PointerSums(f1);
      PointerSums(f2);
      PointerSums(f3);
  }
}

/** What mkTree, add1Tree and sumTree compute, value by value: by the place in the tree,
    and as a sum over all places. */
module TreePaths {
  import opened Memory
  import opened Trees
  import opened TreeSums

  // Trees by their paths from the root; `true` goes right.

  type Path = seq<bool>

  predicate HasPath(t: Tree, p: Path)
    decreases |p|
  {
    p == [] || (t.Node? && HasPath(if p[0] then t.right else t.left, p[1..]))
  }

  /** The subtree at the end of a path. */
  function Subtree(t: Tree, p: Path): Tree
    requires HasPath(t, p)
    decreases |p|
  {
    if p == [] then t else Subtree(if p[0] then t.right else t.left, p[1..])
  }

  /** Paths, the kinds of node at their ends and the values there make up the tree. */
  lemma {:induction false} PathsDetermine(t: Tree, t': Tree)
    requires forall p: Path :: HasPath(t, p) <==> HasPath(t', p)
    requires forall p: Path :: HasPath(t, p) ==> Subtree(t, p).v == Subtree(t', p).v
    ensures t == t'
    decreases t
  {
    assert HasPath(t, []) && Subtree(t, []).v == Subtree(t', []).v;
    assert HasPath(t, [false]) <==> HasPath(t', [false]);
    assert t.Node? <==> HasPath(t, [false]);
    assert t'.Node? <==> HasPath(t', [false]);
    if t.Node? {
      forall p: Path
        ensures HasPath(t.left, p) <==> HasPath(t'.left, p)
        ensures HasPath(t.right, p) <==> HasPath(t'.right, p)
        ensures HasPath(t.left, p) ==> Subtree(t.left, p).v == Subtree(t'.left, p).v
        ensures HasPath(t.right, p) ==> Subtree(t.right, p).v == Subtree(t'.right, p).v
      {
        assert ([false] + p)[1..] == p && ([true] + p)[1..] == p;
        assert HasPath(t, [false] + p) <==> HasPath(t', [false] + p);
        assert HasPath(t, [true] + p) <==> HasPath(t', [true] + p);
        assert HasPath(t, [false] + p) ==> Subtree(t, [false] + p).v == Subtree(t', [false] + p).v;
        assert HasPath(t, [true] + p) ==> Subtree(t, [true] + p).v == Subtree(t', [true] + p).v;
      }
      PathsDetermine(t.left, t'.left);
      PathsDetermine(t.right, t'.right);
    }
  }

  /** mkTree d acc: all leaves lie at depth d and hold acc + d(d+1)/2; an inner node at
      depth k holds d - k. */
  lemma {:induction false} MadeAt(d: Word, acc: Word, p: Path)
    ensures HasPath(MkSpec(d, acc), p) <==> |p| <= d
    ensures |p| == d ==> Subtree(MkSpec(d, acc), p) == Leaf((acc + d * (d + 1) / 2) % 0x1_0000_0000_0000_0000)
    ensures |p| < d ==> Subtree(MkSpec(d, acc), p).Node? && Subtree(MkSpec(d, acc), p).v == d - |p|
    decreases d
  {
    TriangleStep(d);
    if p != [] && d > 0 {
      MadeAt(d - 1, AddWord(acc, d), p[1..]);
      WrapLeft(acc + d, Triangle(d - 1));
    }
  }

  /** add1Tree: the same shape, and at the end of every path one more. */
  lemma {:induction false} IncrementedAt(t: Tree, p: Path)
    ensures HasPath(Add1Spec(t), p) <==> HasPath(t, p)
    ensures HasPath(t, p) ==>
      && Subtree(Add1Spec(t), p).v == (Subtree(t, p).v + 1) % 0x1_0000_0000_0000_0000
      && (Subtree(Add1Spec(t), p).Leaf? <==> Subtree(t, p).Leaf?)
    decreases |p|
  {
    if p != [] && t.Node? {
      IncrementedAt(if p[0] then t.right else t.left, p[1..]);
    }
  }

  /** The values of a tree, in the order in which its nodes are written. */
  function Values(t: Tree): seq<Word> {
    match t
    case Leaf(v) => [v]
    case Node(v, left, right) => [v] + Values(left) + Values(right)
  }

  /** sumTree: the sum of all values. */
  lemma {:induction false} SumOfValues(t: Tree)
    ensures SumSpec(t) == Total(Values(t)) % 0x1_0000_0000_0000_0000 && |Values(t)| == Nodes(t)
  {
    match t
    case Leaf(v) => TotalOne(v);
    case Node(v, left, right) =>
      SumOfValues(left);
      SumOfValues(right);
      TotalAppend([v] + Values(left), Values(right));
      TotalAppend([v], Values(left));
      TotalOne(v);
      hide Wrap;
      var a, b := Total(Values(left)), Total(Values(right));
      SumWraps(v, a, b);
  }

  lemma SumWraps(v: Word, a: int, b: int)
    ensures AddWord(AddWord(v, Wrap(a)), Wrap(b)) == Wrap(v + a + b)
  {
    hide Wrap;
    WrapLeft(a, v);
    WrapBoth(v + a, b);
  }
}

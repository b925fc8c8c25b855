/** What the pipeline mkTree, add1Tree, sumTree computes, as a closed form modulo 2^64. */
module TreeSums {
  import opened Bits
  import opened Memory
  import opened Trees

  function Nodes(t: Tree): nat {
    match t
    case Leaf(_) => 1
    case Node(_, left, right) => 1 + Nodes(left) + Nodes(right)
  }

  function Triangle(d: nat): nat {
    d * (d + 1) / 2
  }

  lemma TriangleStep(d: nat)
    ensures Triangle(d) == if d == 0 then 0 else d + Triangle(d - 1)
  {
    assert d * (d + 1) == 2 * d + (d - 1) * d;
  }

  /** The sum of mkTree d acc over unbounded integers. */
  function MkSum(d: nat, acc: int): int {
    if d == 0 then acc else d + 2 * MkSum(d - 1, acc + d)
  }

  lemma {:induction false} MkSumClosed(d: nat, acc: int)
    ensures MkSum(d, acc) == Pow2(d) * (acc + Triangle(d)) + Pow2(d + 1) - d - 2
    decreases d
  {
    hide Triangle;
    TriangleStep(d);
    if d > 0 {
      MkSumClosed(d - 1, acc + d);
      var p, x := Pow2(d - 1), acc + Triangle(d);
      assert acc + d + Triangle(d - 1) == x;
      DoubledProduct(p, x);
    }
  }

  lemma DoubledProduct(p: int, x: int)
    ensures 2 * p * x == 2 * (p * x)
  {
  }

  lemma {:induction false} SumOfMk(d: Word, acc: int)
    ensures SumSpec(MkSpec(d, Wrap(acc))) == Wrap(MkSum(d, acc))
    decreases d
  {
    hide Wrap;
    if d > 0 {
      var s := MkSum(d - 1, acc + d);
      WrapLeft(acc, d);
      SumOfMk(d - 1, acc + d);
      WrapBoth(s, d);
      WrapBoth(d + s, s);
      assert AddWord(d, Wrap(s)) == Wrap(d + s) by {
        WrapLeft(s, d);
      }
    }
  }

  lemma {:induction false} SumOfAdd1(t: Tree)
    ensures SumSpec(Add1Spec(t)) == Wrap(SumSpec(t) + Nodes(t))
  {
    hide Wrap;
    match t
    case Leaf(v) =>
    case Node(v, left, right) =>
      SumOfAdd1(left);
      SumOfAdd1(right);
      var a, b, m, n := SumSpec(left), SumSpec(right), Nodes(left), Nodes(right);
      WrapBoth(v + 1, a + m);
      WrapBoth(v + 1 + a + m, b + n);
      WrapLeft(v + a, b);
      WrapLeft(v + a + b, 1 + m + n);
  }

  lemma {:induction false} NodesOfMk(d: Word, acc: Word)
    ensures Nodes(MkSpec(d, acc)) == Pow2(d + 1) - 1
    decreases d
  {
    if d > 0 {
      NodesOfMk(d - 1, AddWord(acc, d));
    }
  }

  /** 2^d * (acc + d(d+1)/2) + 2^(d+2) - d - 3 */
  function PipelineFormula(d: nat, acc: int): int {
    Pow2(d) * (acc + Triangle(d)) + Pow2(d + 2) - d - 3
  }

  lemma PipelineTotal(d: nat, acc: int)
    ensures MkSum(d, acc) + Pow2(d + 1) - 1 == PipelineFormula(d, acc)
  {
    MkSumClosed(d, acc);
    assert Pow2(d + 2) == 2 * Pow2(d + 1);
  }

  /** sumTree (add1Tree (mkTree d acc)) is the formula, modulo 2^64. */
  lemma PipelineSum(d: Word, acc: Word)
    ensures SumSpec(Add1Spec(MkSpec(d, acc))) == Wrap(PipelineFormula(d, acc))
  {
    assert Wrap(acc) == acc;
    hide *;
    calc {
      SumSpec(Add1Spec(MkSpec(d, acc)));
      { SumOfAdd1(MkSpec(d, acc)); }
      Wrap(SumSpec(MkSpec(d, acc)) + Nodes(MkSpec(d, acc)));
      { SumOfMk(d, acc); NodesOfMk(d, acc); }
      Wrap(Wrap(MkSum(d, acc)) + (Pow2(d + 1) - 1));
      { WrapLeft(MkSum(d, acc), Pow2(d + 1) - 1); }
      Wrap(MkSum(d, acc) + (Pow2(d + 1) - 1));
      { PipelineTotal(d, acc); }
      Wrap(PipelineFormula(d, acc));
    }
  }
}

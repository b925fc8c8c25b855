/** Binary trees of 64-bit integers and what the tree programs compute on them. */
module Trees {
  import opened Memory

  const LEAF_TAG: Byte := 0
  const INNER_TAG: Byte := 1

  datatype Tree = Leaf(v: Word) | Node(v: Word, left: Tree, right: Tree)

  function Wrap(x: int): Word {
    x % WORD_LIMIT
  }

  /** GibInt addition, as a 64-bit word. */
  function AddWord(x: Word, y: int): Word {
    Wrap(x + y)
  }

  lemma WrapWord(x: Word)
    ensures Wrap(x) == x
  {
  }

  lemma WrapLeft(x: int, y: int)
    ensures Wrap(Wrap(x) + y) == Wrap(x + y)
  {
  }

  lemma WrapBoth(x: int, y: int)
    ensures Wrap(Wrap(x) + Wrap(y)) == Wrap(x + y)
  {
    WrapLeft(x, Wrap(y));
    WrapLeft(y, x);
  }

  lemma AddWordRegroup(a: Word, b: Word, c: Word, d: Word)
    ensures AddWord(AddWord(AddWord(a, b), c), d) == AddWord(a, AddWord(AddWord(b, c), d))
  {
    hide Wrap;
    WrapLeft(a + b, c);
    WrapLeft(a + b + c, d);
    WrapLeft(b + c, d);
    WrapLeft(b + c + d, a);
  }

  function Total(s: seq<Word>): int {
    if s == [] then 0 else s[0] + Total(s[1..])
  }

  lemma {:induction false} TotalAppend(s: seq<Word>, s': seq<Word>)
    ensures Total(s + s') == Total(s) + Total(s')
  {
    if s == [] {
      assert s + s' == s';
    } else {
      assert (s + s')[1..] == s[1..] + s';
      TotalAppend(s[1..], s');
    }
  }

  lemma TotalOne(x: Word)
    ensures Total([x]) == x
  {
    assert [x][1..] == [];
  }

  // What the programs compute, on trees.

  function MkSpec(d: Word, acc: Word): Tree {
    if d == 0 then Leaf(acc)
    else
      var child := MkSpec(d - 1, AddWord(acc, d));
      Node(d, child, child)
  }

  function Add1Spec(t: Tree): Tree {
    match t
    case Leaf(v) => Leaf(AddWord(v, 1))
    case Node(v, left, right) => Node(AddWord(v, 1), Add1Spec(left), Add1Spec(right))
  }

  function SumSpec(t: Tree): Word {
    match t
    case Leaf(v) => v
    case Node(v, left, right) => AddWord(AddWord(v, SumSpec(left)), SumSpec(right))
  }
}

// The rebalancing steps of insertion and erasure, on a subtree and the path above it.
module RbBalance {
  import opened RbShape

  // ----- insertion -----

  // The loop's state: a red subtree in a path that would be valid around a black one.
  predicate RedHole(p: Path, t: Tree) {
    IsRed(t) && RB(t) && PathRB(p, BH(t), false)
  }

  // ... and the parent is red too, so there is a black grandparent.
  predicate Ripe(p: Path, t: Tree) {
    RedHole(p, t) && p.Step? && p.color.Red? && p.up.Step? && p.up.color.Black?
  }

  lemma RipeAbove(p: Path, t: Tree)
    requires RedHole(p, t) && p.Step? && p.color.Red?
    ensures Ripe(p, t) && BH(p.sib) == BH(t) && PathRB(p.up, BH(t), true)
  {
    assert PathRB(p.up, BH(t) + 0, true);
  }

  // Red uncle: the redness moves to the grandparent.
  function Flipped(p: Path, t: Tree): (Path, Tree)
    requires p.Step? && p.up.Step?
  {
    (p.up.up, Join(p.up.(color := Red, sib := Blacken(p.up.sib)), Join(p.(color := Black), t)))
  }

  // Black uncle: the middle of the three nodes becomes the black root of the other two.
  function Turned(p: Path, t: Tree): (Path, Tree)
    requires p.Step? && p.up.Step? && t.Node?
  {
    var g := p.up;
    if p.holeLeft == g.holeLeft then
      (Step(p.node, Black, p.holeLeft, Join(g.(color := Red), p.sib), g.up), t)
    else if g.holeLeft then
      (Step(t.node, Black, true, Node(g.node, Red, t.right, g.sib), g.up), Node(p.node, Red, p.sib, t.left))
    else
      (Step(t.node, Black, false, Node(g.node, Red, g.sib, t.left), g.up), Node(p.node, Red, t.right, p.sib))
  }

  lemma SameAround(p: Path, t: Tree)
    requires p.Step?
    ensures Around(p, Inorder(t)) == Around(p.up, Inorder(Join(p, t)))
    ensures p.up.Step? ==> Around(p, Inorder(t)) == Around(p.up.up, Inorder(Join(p.up, Join(p, t))))
  {
  }

  lemma FlipKeeps(p: Path, t: Tree)
    requires Ripe(p, t) && IsRed(p.up.sib)
    ensures var z := Flipped(p, t); RedHole(z.0, z.1) && Depth(z.0) < Depth(p)
    ensures var z := Flipped(p, t); PathNodes(z.0) + Nodes(z.1) == PathNodes(p) + Nodes(t)
    ensures var z := Flipped(p, t); Around(z.0, Inorder(z.1)) == Around(p, Inorder(t))
  {
    RipeAbove(p, t);
    assert PathRB(p.up.up, BH(t) + 1, false);
    SameAround(p, t);
  }

  lemma Regroup(a: seq<RbNode>, x: RbNode, b: seq<RbNode>, y: RbNode, c: seq<RbNode>)
    ensures a + [x] + (b + [y] + c) == a + [x] + b + [y] + c
  {
  }

  lemma TurnOrder(p: Path, t: Tree)
    requires p.Step? && p.up.Step? && t.Node?
    ensures var z := Turned(p, t); Around(z.0, Inorder(z.1)) == Around(p, Inorder(t))
  {
    var z := Turned(p, t);
    SameAround(p, t);
    SameAround(z.0, z.1);
    var g, a, u := p.up, Inorder(p.sib), Inorder(p.up.sib);
    var l, r := Inorder(t.left), Inorder(t.right);
    if p.holeLeft == g.holeLeft {
      if p.holeLeft {
        Regroup(Inorder(t), p.node, a, g.node, u);
      } else {
        Regroup(u, g.node, a, p.node, Inorder(t));
      }
    } else if g.holeLeft {
      Regroup(a, p.node, l, t.node, r);
      Regroup(a + [p.node] + l, t.node, r, g.node, u);
    } else {
      Regroup(l, t.node, r, p.node, a);
      Regroup(u, g.node, l, t.node, r + [p.node] + a);
    }
  }

  lemma TurnRules(p: Path, t: Tree)
    requires Ripe(p, t) && !IsRed(p.up.sib)
    ensures var z := Turned(p, t); RedHole(z.0, z.1) && Depth(z.0) < Depth(p) && z.0.color.Black?
  {
    RipeAbove(p, t);
    assert PathRB(p.up.up, BH(t) + 1, false);
  }

  lemma TurnKeeps(p: Path, t: Tree)
    requires Ripe(p, t) && !IsRed(p.up.sib)
    ensures var z := Turned(p, t); RedHole(z.0, z.1) && Depth(z.0) < Depth(p) && z.0.color.Black?
    ensures var z := Turned(p, t); PathNodes(z.0) + Nodes(z.1) == PathNodes(p) + Nodes(t)
    ensures var z := Turned(p, t); Around(z.0, Inorder(z.1)) == Around(p, Inorder(t))
  {
    TurnRules(p, t);
    TurnOrder(p, t);
  }

  // ----- erasure -----

  // A node with the child on the hole's side first.
  function Make(near: bool, node: RbNode, color: Color, n: Tree, f: Tree): Tree {
    if near then Node(node, color, n, f) else Node(node, color, f, n)
  }

  function Near(left: bool, t: Tree): Tree
    requires t.Node?
  {
    if left then t.left else t.right
  }

  function Far(left: bool, t: Tree): Tree
    requires t.Node?
  {
    if left then t.right else t.left
  }

  // The far child goes up, with its near subtree handed to the old root.
  function Lifted(left: bool, t: Tree): Tree
    requires t.Node? && Far(left, t).Node?
  {
    var f := Far(left, t);
    Make(left, f.node, f.color, Make(left, t.node, t.color, Near(left, t), Near(left, f)), Far(left, f))
  }

  // The loop's state: the subtree at the hole is one black node short.
  predicate Short(p: Path, t: Tree) {
    WeakRB(t) && PathRB(p, BH(t) + 1, false)
  }

  // ... and the loop goes on: the subtree is black and not the whole tree.
  predicate Needy(p: Path, t: Tree) {
    Short(p, t) && !IsRed(t) && p.Step?
  }

  // Red sibling: it goes up, and the hole gets a black sibling below a red parent.
  function BlackSibling(p: Path): Path
    requires p.Step? && p.sib.Node?
  {
    var o := p.sib;
    Step(p.node, Red, p.holeLeft, Near(p.holeLeft, o), Step(o.node, Black, p.holeLeft, Far(p.holeLeft, o), p.up))
  }

  // Black sibling without red children: the shortage moves to the parent.
  function Lent(p: Path, t: Tree): Tree
    requires p.Step? && p.sib.Node?
  {
    Join(p.(sib := p.sib.(color := Red)), t)
  }

  // Black sibling whose only red child is the near one: that child takes its place.
  function FarRed(p: Path): Path
    requires p.Step? && p.sib.Node? && Near(p.holeLeft, p.sib).Node?
  {
    var l, o := p.holeLeft, p.sib;
    var i := Near(l, o);
    p.(sib := Make(l, i.node, Black, Near(l, i), Make(l, o.node, Red, Far(l, i), Far(l, o))))
  }

  // Black sibling whose far child is red: one rotation at the parent repairs everything.
  function Repaired(p: Path, t: Tree): Tree
    requires p.Step? && p.sib.Node?
  {
    var l, o := p.holeLeft, p.sib;
    Make(l, o.node, p.color, Make(l, p.node, Black, t, Near(l, o)), Blacken(Far(l, o)))
  }

  lemma NeedySibling(p: Path, t: Tree)
    requires Needy(p, t)
    ensures p.sib.Node? && RB(p.sib) && BH(p.sib) == BH(t) + 1
    ensures IsRed(p.sib) ==> p.sib.left.Node? && p.sib.right.Node? && p.color.Black?
  {
  }

  lemma BlackSiblingKeeps(p: Path, t: Tree)
    requires Needy(p, t) && IsRed(p.sib)
    ensures p.sib.Node? && Needy(BlackSibling(p), t) && !IsRed(BlackSibling(p).sib)
    ensures PathNodes(BlackSibling(p)) == PathNodes(p)
    ensures Around(BlackSibling(p), Inorder(t)) == Around(p, Inorder(t))
    ensures BlackSibling(p).color.Red? && Depth(BlackSibling(p)) == Depth(p) + 1
  {
    NeedySibling(p, t);
    var q := BlackSibling(p);
    assert PathRB(p.up, BH(t) + 2, false);
    assert PathRB(q.up, BH(t) + 1, true);
    var x, n, f := Inorder(t), Inorder(Near(p.holeLeft, p.sib)), Inorder(Far(p.holeLeft, p.sib));
    if p.holeLeft {
      Regroup(x, p.node, n, p.sib.node, f);
    } else {
      Regroup(f, p.sib.node, n, p.node, x);
    }
  }

  lemma LentKeeps(p: Path, t: Tree)
    requires Needy(p, t) && p.sib.Node? && !IsRed(p.sib) && !IsRed(p.sib.left) && !IsRed(p.sib.right)
    ensures Short(p.up, Lent(p, t)) && IsRed(Lent(p, t)) == p.color.Red?
    ensures PathNodes(p.up) + Nodes(Lent(p, t)) == PathNodes(p) + Nodes(t)
    ensures Around(p.up, Inorder(Lent(p, t))) == Around(p, Inorder(t))
  {
    assert PathRB(p.up, BH(t) + 1 + Weight(p.color), p.color.Red?);
  }

  lemma FarRedOrder(p: Path, t: Tree)
    requires p.Step? && p.sib.Node? && Near(p.holeLeft, p.sib).Node?
    ensures PathNodes(FarRed(p)) == PathNodes(p)
    ensures Around(FarRed(p), Inorder(t)) == Around(p, Inorder(t))
  {
    var l, o := p.holeLeft, p.sib;
    var i := Near(l, o);
    if l {
      Regroup(Inorder(i.left), i.node, Inorder(i.right), o.node, Inorder(o.right));
    } else {
      Regroup(Inorder(o.left), o.node, Inorder(i.left), i.node, Inorder(i.right));
    }
    assert Inorder(FarRed(p).sib) == Inorder(p.sib);
    assert Nodes(FarRed(p).sib) == Nodes(p.sib);
  }

  lemma FarRedRules(o: Tree, l: bool, m: Tree)
    requires RB(o) && o.Node? && IsRed(Near(l, o)) && !IsRed(Far(l, o)) && o.color.Black?
    requires var i := Near(l, o); m == Make(l, i.node, Black, Near(l, i), Make(l, o.node, Red, Far(l, i), Far(l, o)))
    ensures RB(m) && BH(m) == BH(o) && !IsRed(m) && IsRed(Far(l, m))
  {
    var i := Near(l, o);
    assert RB(i) && RB(Far(l, i)) && RB(Near(l, i));
    assert RB(Far(l, m));
  }

  lemma FarRedKeeps(p: Path, t: Tree)
    requires Needy(p, t) && p.sib.Node? && !IsRed(p.sib)
    requires IsRed(Near(p.holeLeft, p.sib)) && !IsRed(Far(p.holeLeft, p.sib))
    ensures Needy(FarRed(p), t) && !IsRed(FarRed(p).sib) && IsRed(Far(p.holeLeft, FarRed(p).sib))
    ensures PathNodes(FarRed(p)) == PathNodes(p)
    ensures Around(FarRed(p), Inorder(t)) == Around(p, Inorder(t))
  {
    FarRedOrder(p, t);
    FarRedRules(p.sib, p.holeLeft, FarRed(p).sib);
  }

  lemma RepairedOrder(p: Path, t: Tree)
    requires p.Step? && p.sib.Node?
    ensures PathNodes(p.up) + Nodes(Repaired(p, t)) == PathNodes(p) + Nodes(t)
    ensures Around(p.up, Inorder(Repaired(p, t))) == Around(p, Inorder(t))
  {
    var x, n, f := Inorder(t), Inorder(Near(p.holeLeft, p.sib)), Inorder(Far(p.holeLeft, p.sib));
    var far := Far(p.holeLeft, p.sib);
    assert Inorder(Blacken(far)) == f && Nodes(Blacken(far)) == Nodes(far);
    assert Nodes(Repaired(p, t)) == Nodes(Join(p, t));
    if p.holeLeft {
      Regroup(x, p.node, n, p.sib.node, f);
    } else {
      Regroup(f, p.sib.node, n, p.node, x);
    }
    assert Inorder(Repaired(p, t)) == Inorder(Join(p, t));
    SameAround(p, t);
  }

  lemma RepairedRules(p: Path, t: Tree)
    requires Needy(p, t) && p.sib.Node? && !IsRed(p.sib) && IsRed(Far(p.holeLeft, p.sib))
    ensures var r := Repaired(p, t); RB(r) && PathRB(p.up, BH(r), IsRed(r))
  {
    var l, o := p.holeLeft, p.sib;
    assert RB(o) && BH(o) == BH(t) + 1;
    assert RB(Near(l, o)) && RB(Far(l, o));
    assert BH(Near(l, o)) == BH(t) && BH(Far(l, o)) == BH(t);
    var m, f := Make(l, p.node, Black, t, Near(l, o)), Blacken(Far(l, o));
    assert RB(f) && BH(f) == BH(t) + 1 && !IsRed(f);
    assert RB(t);
    if l {
      assert m == Node(p.node, Black, t, o.left);
      assert RB(m) && BH(m) == BH(t) + 1;
    } else {
      assert m == Node(p.node, Black, o.right, t);
      assert RB(m) && BH(m) == BH(t) + 1;
    }
    assert PathRB(p.up, BH(t) + 1 + Weight(p.color), p.color.Red?);
  }

  lemma RepairedKeeps(p: Path, t: Tree)
    requires Needy(p, t) && p.sib.Node? && !IsRed(p.sib) && IsRed(Far(p.holeLeft, p.sib))
    ensures ValidRB(Plug(p.up, Repaired(p, t)))
    ensures PathNodes(p.up) + Nodes(Repaired(p, t)) == PathNodes(p) + Nodes(t)
    ensures Around(p.up, Inorder(Repaired(p, t))) == Around(p, Inorder(t))
  {
    RepairedOrder(p, t);
    RepairedRules(p, t);
    ValidPlug(p.up, Repaired(p, t));
  }

  lemma ShortEnds(p: Path, t: Tree)
    requires Short(p, t) && (IsRed(t) || p.Top?)
    ensures ValidRB(Plug(p, Blacken(t)))
  {
    ValidPlug(p, Blacken(t));
  }

  // ----- which node leaves, and what is then known -----

  // A node with a missing child leaves; its other child c fills the hole.
  lemma BypassRules(p: Path, t: Tree, c: Tree)
    requires ValidRB(Plug(p, t)) && t.Node?
    requires (t.left.Leaf? && c == t.right) || (t.right.Leaf? && c == t.left)
    ensures t.color.Black? ==> Short(p, c)
    ensures t.color.Red? ==> ValidRB(Plug(p, c))
  {
    hide ValidRB, Plug;
    ValidPlug(p, t);
    if t.left.Leaf? {
      assert BH(t.left) == 0;
    } else {
      assert BH(t.right) == 0;
    }
    assert RB(c) && BH(c) == 0 && BH(t) == Weight(t.color);
    if t.color.Red? {
      NoHeight(c);
      RedHoleMayBeBlack(p, 0);
      ValidPlug(p, c);
    }
  }

  lemma NoHeight(t: Tree)
    requires RB(t) && BH(t) == 0 && !IsRed(t)
    ensures t.Leaf?
  {
  }

  lemma RedHoleMayBeBlack(p: Path, h: nat)
    requires PathRB(p, h, true)
    ensures PathRB(p, h, false)
  {
  }

  // One element of the middle part leaves the sequence.
  lemma WithoutInside(a: seq<RbNode>, l: seq<RbNode>, n: RbNode, r: seq<RbNode>, z: seq<RbNode>)
    requires n !in a && n !in l
    ensures Without(a + (l + [n] + r) + z, n) == a + (l + r) + z
  {
    hide Without;
    WithoutMiddle(a + l, n, r + z);
    assert a + (l + [n] + r) + z == (a + l) + [n] + (r + z);
    assert a + (l + r) + z == (a + l) + (r + z);
  }

  lemma NotBefore(p: Path, t: Tree)
    requires Distinct(Plug(p, t)) && t.Node?
    ensures t.node !in Before(p) && t.node !in Inorder(t.left) && t.node !in PathNodes(p)
    ensures t.node !in Nodes(t.left) && t.node !in Nodes(t.right)
  {
    DistinctPlug(p, t);
    BeforeNodes(p, t.node);
    InorderNodes(t.left, t.node);
  }

  lemma BypassOrder(p: Path, t: Tree, c: Tree)
    requires t.Node? && Distinct(Plug(p, t))
    requires (t.left.Leaf? && c == t.right) || (t.right.Leaf? && c == t.left)
    ensures Around(p, Inorder(c)) == Without(Inorder(Plug(p, t)), t.node)
    ensures PathNodes(p) + Nodes(c) == Nodes(Plug(p, t)) - {t.node}
  {
    NotBefore(p, t);
    NodesPlug(p, t);
    InorderPlug(p, t);
    AroundSplits(p, Inorder(t));
    AroundSplits(p, Inorder(c));
    WithoutInside(Before(p), Inorder(t.left), t.node, Inorder(t.right), After(p));
    assert Inorder(c) == Inorder(t.left) + Inorder(t.right);
  }

  lemma {:induction false} BeforeNodes(p: Path, n: RbNode)
    ensures n in Before(p) ==> n in PathNodes(p)
  {
    if p.Step? {
      BeforeNodes(p.up, n);
      InorderNodes(p.sib, n);
    }
  }

  // The successor y takes the place of the root of t, and its right child fills y's hole.
  lemma SuccessorRules(p: Path, t: Tree, i: Path, y: Tree)
    requires ValidRB(Plug(p, t)) && t.Node? && t.right == Plug(i, y) && y.Node? && y.left.Leaf?
    ensures var q := Append(i, Step(y.node, t.color, false, t.left, p));
      && (y.color.Black? ==> Short(q, y.right))
      && (y.color.Red? ==> ValidRB(Plug(q, y.right)))
  {
    var s := Step(t.node, t.color, false, t.left, p);
    AppendPlug(i, s, y);
    assert Plug(s, t.right) == Plug(p, t);
    BypassRules(Append(i, s), y, y.right);
    AppendRB(i, s, y.node, BH(y.right) + 1, false);
    AppendRB(i, s, y.node, BH(y.right), IsRed(y.right));
    ValidPlug(Append(i, s), y.right);
    ValidPlug(Append(i, s.(node := y.node)), y.right);
  }

  lemma SuccessorOrder(p: Path, t: Tree, i: Path, y: Tree)
    requires Distinct(Plug(p, t)) && t.Node? && t.right == Plug(i, y) && y.Node? && y.left.Leaf? && AllLeft(i)
    ensures var q := Append(i, Step(y.node, t.color, false, t.left, p));
      Around(q, Inorder(y.right)) == Without(Inorder(Plug(p, t)), t.node)
  {
    hide Without, Around, Before, After, Distinct, Plug, Append, AllLeft;
    var s := Step(y.node, t.color, false, t.left, p);
    var r := Inorder(y.right) + After(i);
    var l, x := Inorder(t.left), [y.node] + r;
    NotBefore(p, t);
    InorderPlug(p, t);
    AroundSplits(p, Inorder(t));
    LeftmostOrder(i, y);
    AppendAround(i, s, Inorder(y.right));
    AroundRight(s, r);
    AroundSplits(p, l + x);
    WithoutInside(Before(p), l, t.node, x, After(p));
  }

  lemma AroundRight(p: Path, s: seq<RbNode>)
    requires p.Step? && !p.holeLeft
    ensures Around(p, s) == Around(p.up, Inorder(p.sib) + ([p.node] + s))
  {
    assert Inorder(p.sib) + [p.node] + s == Inorder(p.sib) + ([p.node] + s);
  }

  lemma LeftmostOrder(i: Path, y: Tree)
    requires AllLeft(i) && y.Node? && y.left.Leaf?
    ensures Inorder(Plug(i, y)) == [y.node] + (Inorder(y.right) + After(i))
    ensures Around(i, Inorder(y.right)) == Inorder(y.right) + After(i)
  {
    hide Around, Plug, Before, After, AllLeft;
    InorderPlug(i, y);
    AllLeftOrder(i);
    AroundSplits(i, Inorder(y));
    AroundSplits(i, Inorder(y.right));
  }

  lemma SuccessorNodes(p: Path, t: Tree, i: Path, y: Tree)
    requires Distinct(Plug(p, t)) && t.Node? && t.right == Plug(i, y) && y.Node? && y.left.Leaf?
    ensures var q := Append(i, Step(y.node, t.color, false, t.left, p));
      PathNodes(q) + Nodes(y.right) == Nodes(Plug(p, t)) - {t.node}
  {
    NotBefore(p, t);
    NodesPlug(p, t);
    NodesPlug(i, y);
    AppendPlug(i, Step(y.node, t.color, false, t.left, p), y.right);
    assert Nodes(y) == {y.node} + Nodes(y.right);
  }

  lemma {:induction false} AppendAround(i: Path, q: Path, s: seq<RbNode>)
    ensures Around(Append(i, q), s) == Around(q, Around(i, s))
    decreases i
  {
    if i.Step? {
      AppendAround(i.up, q, if i.holeLeft then s + [i.node] + Inorder(i.sib) else Inorder(i.sib) + [i.node] + s);
    }
  }
}

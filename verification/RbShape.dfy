// Red-black trees as values: the shape a set of linked nodes has, the path from a
// subtree up to the root, and the colour rules on both.
module RbShape {

  datatype Color = Red | Black

  // struct rb_node: the parent/colour word is kept as two fields.
  class RbNode {
    var parent: RbNode?
    var color: Color
    var left: RbNode?
    var right: RbNode?

    // rb_init_node: a node outside every tree is its own parent.
    constructor ()
      ensures parent == this && color == Red && left == null && right == null
    {
      parent, color, left, right := this, Red, null, null;
    }
  }

  datatype Tree = Leaf | Node(node: RbNode, color: Color, left: Tree, right: Tree)

  // The way from a hole to the root, innermost step first. `holeLeft` says which child
  // of `node` the hole is in; `sib` is the other child.
  datatype Path = Top | Step(node: RbNode, color: Color, holeLeft: bool, sib: Tree, up: Path)

  function Root(t: Tree): RbNode? {
    if t.Leaf? then null else t.node
  }

  function Par(p: Path): RbNode? {
    if p.Top? then null else p.node
  }

  ghost function Nodes(t: Tree): set<RbNode> {
    if t.Leaf? then {} else {t.node} + Nodes(t.left) + Nodes(t.right)
  }

  ghost function PathNodes(p: Path): set<RbNode> {
    if p.Top? then {} else {p.node} + Nodes(p.sib) + PathNodes(p.up)
  }

  ghost predicate Distinct(t: Tree) {
    t.Node? ==>
      && t.node !in Nodes(t.left) && t.node !in Nodes(t.right)
      && Nodes(t.left) !! Nodes(t.right)
      && Distinct(t.left) && Distinct(t.right)
  }

  ghost predicate DistinctPath(p: Path) {
    p.Step? ==>
      && p.node !in Nodes(p.sib) && p.node !in PathNodes(p.up)
      && Nodes(p.sib) !! PathNodes(p.up)
      && Distinct(p.sib) && DistinctPath(p.up)
  }

  ghost predicate DistinctZip(p: Path, t: Tree) {
    Distinct(t) && DistinctPath(p) && Nodes(t) !! PathNodes(p)
  }

  function Join(s: Path, t: Tree): Tree
    requires s.Step?
  {
    if s.holeLeft then Node(s.node, s.color, t, s.sib) else Node(s.node, s.color, s.sib, t)
  }

  function Plug(p: Path, t: Tree): Tree
    decreases p
  {
    if p.Top? then t else Plug(p.up, Join(p, t))
  }

  // The steps of i, then those of q.
  function Append(i: Path, q: Path): Path {
    if i.Top? then q else i.(up := Append(i.up, q))
  }

  predicate AllLeft(i: Path) {
    i.Step? ==> i.holeLeft && AllLeft(i.up)
  }

  function Depth(p: Path): nat {
    if p.Top? then 0 else 1 + Depth(p.up)
  }

  // In-order sequence of the nodes.
  function Inorder(t: Tree): seq<RbNode> {
    if t.Leaf? then [] else Inorder(t.left) + [t.node] + Inorder(t.right)
  }

  // The in-order sequence around a hole whose own sequence is `s`.
  function Around(p: Path, s: seq<RbNode>): seq<RbNode>
    decreases p
  {
    if p.Top? then s
    else if p.holeLeft then Around(p.up, s + [p.node] + Inorder(p.sib))
    else Around(p.up, Inorder(p.sib) + [p.node] + s)
  }

  function Before(p: Path): seq<RbNode> {
    if p.Top? then [] else if p.holeLeft then Before(p.up) else Before(p.up) + Inorder(p.sib) + [p.node]
  }

  function After(p: Path): seq<RbNode> {
    if p.Top? then [] else if p.holeLeft then [p.node] + Inorder(p.sib) + After(p.up) else After(p.up)
  }

  lemma {:induction false} AroundSplits(p: Path, s: seq<RbNode>)
    ensures Around(p, s) == Before(p) + s + After(p)
    decreases p
  {
    if p.Step? {
      AroundSplits(p.up, if p.holeLeft then s + [p.node] + Inorder(p.sib) else Inorder(p.sib) + [p.node] + s);
    }
  }

  lemma {:induction false} InorderPlug(p: Path, t: Tree)
    ensures Inorder(Plug(p, t)) == Around(p, Inorder(t))
    decreases p
  {
    if p.Step? {
      InorderPlug(p.up, Join(p, t));
    }
  }

  lemma {:induction false} AppendPlug(i: Path, q: Path, t: Tree)
    ensures Plug(Append(i, q), t) == Plug(q, Plug(i, t))
    ensures PathNodes(Append(i, q)) == PathNodes(i) + PathNodes(q)
    decreases i
  {
    if i.Step? {
      AppendPlug(i.up, q, Join(i, t));
    }
  }

  // Which node a step of the path belongs to does not matter to the colour rules.
  lemma {:induction false} AppendRB(i: Path, q: Path, y: RbNode, h: nat, red: bool)
    requires q.Step?
    ensures PathRB(Append(i, q.(node := y)), h, red) == PathRB(Append(i, q), h, red)
    decreases i
  {
    if i.Step? {
      AppendRB(i.up, q, y, h + Weight(i.color), i.color.Red?);
    }
  }

  lemma {:induction false} AllLeftOrder(i: Path)
    requires AllLeft(i)
    ensures Before(i) == []
  {
    if i.Step? {
      AllLeftOrder(i.up);
    }
  }

  // The zipper at a given node.
  ghost function Locate(p: Path, t: Tree, n: RbNode): (z: (Path, Tree))
    requires n in Nodes(t)
    ensures Plug(z.0, z.1) == Plug(p, t) && z.1.Node? && z.1.node == n
    decreases t
  {
    if t.node == n then (p, t)
    else if n in Nodes(t.left) then Locate(Step(t.node, t.color, true, t.right, p), t.left, n)
    else Locate(Step(t.node, t.color, false, t.left, p), t.right, n)
  }

  // The sequence without one of its elements.
  function Without(s: seq<RbNode>, n: RbNode): seq<RbNode> {
    if s == [] then [] else if s[0] == n then s[1..] else [s[0]] + Without(s[1..], n)
  }

  lemma {:induction false} WithoutMiddle(a: seq<RbNode>, n: RbNode, b: seq<RbNode>)
    requires n !in a
    ensures Without(a + [n] + b, n) == a + b
  {
    if a == [] {
      assert ([] + [n] + b)[1..] == b;
    } else {
      var s := a + [n] + b;
      assert s[0] == a[0] && s[1..] == a[1..] + [n] + b;
      WithoutMiddle(a[1..], n, b);
      assert [a[0]] + (a[1..] + b) == a + b;
    }
  }

  // r is the element after n in s, or null when n is the last.
  ghost predicate Follows(s: seq<RbNode>, n: RbNode, r: RbNode?) {
    exists k :: 0 <= k < |s| && s[k] == n && NextIs(s, k, r)
  }

  ghost predicate NextIs(s: seq<RbNode>, k: nat, r: RbNode?) {
    r == if k + 1 < |s| then s[k + 1] else null
  }

  ghost predicate Precedes(s: seq<RbNode>, r: RbNode?, n: RbNode) {
    exists k :: 0 <= k < |s| && s[k] == n && PreviousIs(s, k, r)
  }

  ghost predicate PreviousIs(s: seq<RbNode>, k: nat, r: RbNode?) {
    r == if 0 < k <= |s| then s[k - 1] else null
  }

  lemma FollowsAt(s: seq<RbNode>, k: nat, n: RbNode, r: RbNode?)
    requires k < |s| && s[k] == n
    requires r == if s[k + 1..] == [] then null else s[k + 1..][0]
    ensures Follows(s, n, r)
  {
    assert NextIs(s, k, r);
  }

  lemma PrecedesAt(s: seq<RbNode>, k: nat, n: RbNode, r: RbNode?)
    requires k < |s| && s[k] == n
    requires r == if s[..k] == [] then null else s[..k][k - 1]
    ensures Precedes(s, r, n)
  {
    assert PreviousIs(s, k, r);
  }

  lemma MiddleOf(a: seq<RbNode>, l: seq<RbNode>, n: RbNode, r: seq<RbNode>, z: seq<RbNode>)
    ensures var s, k := a + (l + [n] + r) + z, |a| + |l|;
      k < |s| && s[k] == n && s[..k] == a + l && s[k + 1..] == r + z
  {
  }

  lemma {:induction false} NodesPlug(p: Path, t: Tree)
    ensures Nodes(Plug(p, t)) == PathNodes(p) + Nodes(t)
    decreases p
  {
    if p.Step? {
      NodesPlug(p.up, Join(p, t));
    }
  }

  lemma {:induction false} DistinctPlug(p: Path, t: Tree)
    ensures Distinct(Plug(p, t)) <==> DistinctZip(p, t)
    decreases p
  {
    if p.Step? {
      DistinctPlug(p.up, Join(p, t));
    }
  }

  // Nodes and their in-order sequence: the same elements, and no repeats when distinct.
  lemma {:induction false} InorderNodes(t: Tree, n: RbNode)
    ensures n in Inorder(t) <==> n in Nodes(t)
  {
    if t.Node? {
      InorderNodes(t.left, n);
      InorderNodes(t.right, n);
    }
  }

  ghost predicate NoRepeats(s: seq<RbNode>) {
    forall i, j :: 0 <= i < j < |s| ==> s[i] != s[j]
  }

  lemma {:induction false} DistinctInorder(t: Tree)
    requires Distinct(t)
    ensures NoRepeats(Inorder(t))
  {
    if t.Node? {
      DistinctInorder(t.left);
      DistinctInorder(t.right);
      InorderNodes(t.left, t.node);
      InorderNodes(t.right, t.node);
      forall m | m in Inorder(t.left)
        ensures m !in Inorder(t.right)
      {
        InorderNodes(t.left, m);
        InorderNodes(t.right, m);
      }
      NoRepeatsJoin(Inorder(t.left), t.node, Inorder(t.right));
    }
  }

  lemma NoRepeatsJoin(l: seq<RbNode>, n: RbNode, r: seq<RbNode>)
    requires NoRepeats(l) && NoRepeats(r) && n !in l && n !in r
    requires forall m :: m in l ==> m !in r
    ensures NoRepeats(l + [n] + r)
  {
    var s := l + [n] + r;
    forall i, j | 0 <= i < j < |s|
      ensures s[i] != s[j]
    {
      assert i < |l| ==> s[i] == l[i] && s[i] in l;
      assert j > |l| ==> s[j] == r[j - |l| - 1] && s[j] in r;
      assert i > |l| ==> s[i] == r[i - |l| - 1];
      assert j < |l| ==> s[j] == l[j];
    }
  }

  // ----- the red-black rules -----

  predicate IsRed(t: Tree) {
    t.Node? && t.color.Red?
  }

  function Weight(c: Color): nat {
    if c.Black? then 1 else 0
  }

  // Black nodes on the leftmost way down; RB makes it the same on every way down.
  function BH(t: Tree): nat {
    if t.Leaf? then 0 else BH(t.left) + Weight(t.color)
  }

  // The subtrees obey the rules and have equal black heights; the root's own colour
  // is not restricted.
  predicate WeakRB(t: Tree) {
    t.Node? ==> RB(t.left) && RB(t.right) && BH(t.left) == BH(t.right)
  }

  predicate RB(t: Tree) {
    t.Node? ==>
      && RB(t.left) && RB(t.right) && BH(t.left) == BH(t.right)
      && (t.color.Red? ==> !IsRed(t.left) && !IsRed(t.right))
  }

  predicate ValidRB(t: Tree) {
    RB(t) && !IsRed(t)
  }

  // The steps around a hole obey the rules if the hole is filled with a subtree of
  // black height h whose root is red iff `red`.
  predicate PathRB(p: Path, h: nat, red: bool)
    decreases p
  {
    if p.Top? then !red
    else
      && RB(p.sib) && BH(p.sib) == h
      && (p.color.Red? ==> !IsRed(p.sib) && !red)
      && PathRB(p.up, h + Weight(p.color), p.color.Red?)
  }

  lemma {:induction false} ValidPlug(p: Path, t: Tree)
    ensures ValidRB(Plug(p, t)) <==> RB(t) && PathRB(p, BH(t), IsRed(t))
    decreases p
  {
    if p.Step? {
      ValidPlug(p.up, Join(p, t));
      if !RB(Join(p, t)) {
        assert !(RB(t) && PathRB(p, BH(t), IsRed(t)));
      }
    }
  }

  function Blacken(t: Tree): Tree {
    if t.Leaf? then t else t.(color := Black)
  }

  // ----- height -----

  function Height(t: Tree): nat {
    if t.Leaf? then 0 else 1 + if Height(t.left) > Height(t.right) then Height(t.left) else Height(t.right)
  }

  function Pow2(n: nat): nat {
    if n == 0 then 1 else 2 * Pow2(n - 1)
  }

  lemma {:induction false} HeightAndSize(t: Tree)
    requires RB(t)
    ensures Height(t) <= 2 * BH(t) + (if IsRed(t) then 1 else 0)
    ensures Pow2(BH(t)) <= |Inorder(t)| + 1
  {
    if t.Node? {
      HeightAndSize(t.left);
      HeightAndSize(t.right);
    }
  }

  lemma {:induction false} Pow2Double(a: nat, h: nat)
    requires h <= 2 * a
    ensures Pow2(h) <= Pow2(a) * Pow2(a)
    decreases a
  {
    if a > 0 {
      var q := Pow2(a - 1);
      if h >= 2 {
        Pow2Double(a - 1, h - 2);
        assert Pow2(h) == 4 * Pow2(h - 2);
      } else {
        Pow2Double(a - 1, 0);
      }
      assert Pow2(a) * Pow2(a) == 4 * (q * q);
    }
  }

  // height <= 2 * log2(n + 1), without logarithms
  lemma {:induction false} HeightBound(t: Tree)
    requires ValidRB(t)
    ensures Pow2(Height(t)) <= (|Inorder(t)| + 1) * (|Inorder(t)| + 1)
  {
    HeightAndSize(t);
    Pow2Double(BH(t), Height(t));
    SquareMono(Pow2(BH(t)), |Inorder(t)| + 1);
  }

  lemma SquareMono(p: nat, n: nat)
    requires p <= n
    ensures p * p <= n * n
  {
    assert p * p <= p * n <= n * n;
  }
}

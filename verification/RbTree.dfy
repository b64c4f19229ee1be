module RbTree {
  import opened RbShape
  import opened RbBalance
  import opened RbLinks

  class RbRoot {
    var rbNode: RbNode?
    ghost var shape: Tree
    ghost var rotations: nat  // how many rotations have been done on this root

    // RB_ROOT: the empty tree
    constructor ()
      ensures Valid() && shape == Leaf && rotations == 0
    {
      rbNode := null;
      shape, rotations := Leaf, 0;
    }

    ghost predicate Zip(p: Path, t: Tree)
      reads this`rbNode, PathNodes(p), Nodes(t)
    {
      ZipIn(p, t, rbNode, Read(PathNodes(p) + Nodes(t)))
    }

    ghost predicate Valid()
      reads this, Nodes(shape)
    {
      Zip(Top, shape) && ValidRB(shape)
    }

    // Moving the zipper: up one step, or across to the sibling.
    lemma Up(p: Path, t: Tree)
      requires p.Step?
      ensures Zip(p, t) <==> Zip(p.up, Join(p, t))
      ensures PathNodes(p) + Nodes(t) == PathNodes(p.up) + Nodes(Join(p, t))
    {
      ZipUp(p, t, rbNode, Read(PathNodes(p) + Nodes(t)));
    }

    lemma Across(p: Path, t: Tree)
      requires p.Step?
      ensures Zip(p, t) <==> Zip(Beside(p, t), p.sib)
      ensures PathNodes(p) + Nodes(t) == PathNodes(Beside(p, t)) + Nodes(p.sib)
    {
      ZipAcross(p, t, rbNode, Read(PathNodes(p) + Nodes(t)));
    }

    lemma Whole(p: Path, t: Tree)
      ensures Zip(p, t) <==> Zip(Top, Plug(p, t))
      ensures PathNodes(p) + Nodes(t) == Nodes(Plug(p, t))
    {
      ZipPlug(p, t, rbNode, Read(PathNodes(p) + Nodes(t)));
      assert PathNodes(Top) + Nodes(Plug(p, t)) == PathNodes(p) + Nodes(t);
    }

    // What the focus and the step above it look like on the heap.
    lemma View(p: Path, t: Tree)
      requires Zip(p, t)
      ensures p.Top? ==> rbNode == Root(t)
      ensures t.Node? ==> (
        && t.node.parent == Par(p) && t.node.color == t.color
        && t.node.left == Root(t.left) && t.node.right == Root(t.right))
      ensures p.Step? ==> (
        && p.node.parent == Par(p.up) && p.node.color == p.color
        && p.node.left == (if p.holeLeft then Root(t) else Root(p.sib))
        && p.node.right == (if p.holeLeft then Root(p.sib) else Root(t)))
      ensures p.Step? && t.Node? ==> (p.node.left == t.node) == p.holeLeft && (p.node.right == t.node) == !p.holeLeft
    {
    }

    // rb_set_red, rb_set_black and rb_set_color
    method SetColor(node: RbNode, c: Color, ghost p: Path, ghost t: Tree)
      requires t.Node? && t.node == node && Zip(p, t)
      modifies node`color
      ensures Zip(p, t.(color := c))
    {
      ghost var s := PathNodes(p) + Nodes(t);
      RecolorLinks(p, t, rbNode, Read(s), c);
      node.color := c;
      assert Read(s) == old(Read(s))[node := old(Read(s))[node].(color := c)];
      assert s == PathNodes(p) + Nodes(t.(color := c));
    }

    // The pointer writes of __rb_rotate_left on any records that allow them.
    method RotateLeftFields(node: RbNode, ghost s: set<RbNode>)
      requires node in s && node.right != null && node.right in s
      requires CanRotate(Read(s), node, node.right, node.right.left, node.parent)
      modifies this`rbNode, this`rotations, s
      ensures Rotated(old(Read(s)), Read(s), node, old(node.right), old(node.right.left), old(node.parent), true)
      ensures rbNode == if old(node.parent) == null then old(node.right) else old(rbNode)
      ensures rotations == old(rotations) + 1
    {
      var right := node.right;
      var parent := node.parent;
      node.right := right.left;
      if node.right != null {
        right.left.parent := node;
      }
      right.left := node;
      right.parent := parent;
      if parent != null {
        if node == parent.left {
          parent.left := right;
        } else {
          parent.right := right;
        }
      } else {
        rbNode := right;
      }
      node.parent := right;
      rotations := rotations + 1;
    }

    method RotateRightFields(node: RbNode, ghost s: set<RbNode>)
      requires node in s && node.left != null && node.left in s
      requires CanRotate(Read(s), node, node.left, node.left.right, node.parent)
      modifies this`rbNode, this`rotations, s
      ensures Rotated(old(Read(s)), Read(s), node, old(node.left), old(node.left.right), old(node.parent), false)
      ensures rbNode == if old(node.parent) == null then old(node.left) else old(rbNode)
      ensures rotations == old(rotations) + 1
    {
      var left := node.left;
      var parent := node.parent;
      node.left := left.right;
      if node.left != null {
        left.right.parent := node;
      }
      left.right := node;
      left.parent := parent;
      if parent != null {
        if node == parent.right {
          parent.right := left;
        } else {
          parent.left := left;
        }
      } else {
        rbNode := left;
      }
      node.parent := left;
      rotations := rotations + 1;
    }

    method RotateLeft(node: RbNode, ghost p: Path, ghost t: Tree)
      requires t.Node? && t.node == node && t.right.Node? && Zip(p, t)
      modifies this`rbNode, this`rotations, PathNodes(p), Nodes(t)
      ensures Zip(p, RotatedLeft(t)) && Nodes(RotatedLeft(t)) == Nodes(t)
      ensures rotations == old(rotations) + 1
    {
      ghost var s := PathNodes(p) + Nodes(t);
      ghost var root, m := rbNode, Read(s);
      RotatePossible(p, t, root, m);
      RotateDistinct(p, t);
      RotateLeftFields(node, s);
      RotateLeftLinks(p, t, root, m, rbNode, Read(s));
    }

    method RotateRight(node: RbNode, ghost p: Path, ghost t: Tree)
      requires t.Node? && t.node == node && t.left.Node? && Zip(p, t)
      modifies this`rbNode, this`rotations, PathNodes(p), Nodes(t)
      ensures Zip(p, RotatedRight(t)) && Nodes(RotatedRight(t)) == Nodes(t)
      ensures rotations == old(rotations) + 1
    {
      ghost var s := PathNodes(p) + Nodes(t);
      ghost var root, m := rbNode, Read(s);
      RotatePossible(p, t, root, m);
      RotateDistinct(p, t);
      RotateRightFields(node, s);
      RotateRightLinks(p, t, root, m, rbNode, Read(s));
    }

    lemma ViewUncle(p: Path, t: Tree)
      requires Zip(p, t) && p.Step? && p.up.Step? && t.Node?
      ensures t.node.parent == p.node && p.node.parent == p.up.node
      ensures (p.node == p.up.node.left) == p.up.holeLeft
      ensures (if p.up.holeLeft then p.up.node.right else p.up.node.left) == Root(p.up.sib)
      ensures p.up.sib.Node? ==> p.up.sib.node.color == p.up.sib.color
    {
      Up(p, t);
      View(p, t);
      View(p.up, Join(p, t));
      Across(p.up, Join(p, t));
      View(Beside(p.up, Join(p, t)), p.up.sib);
    }

    // Red uncle, on either side.
    method FlipColors(uncle: RbNode, parent: RbNode, gparent: RbNode, ghost p: Path, ghost t: Tree)
      requires Zip(p, t) && Ripe(p, t) && IsRed(p.up.sib)
      requires uncle == p.up.sib.node && parent == p.node && gparent == p.up.node
      modifies PathNodes(p)
      ensures Zip(Flipped(p, t).0, Flipped(p, t).1)
    {
      hide Zip;
      ghost var g := p.up;
      Up(p, t);
      Across(g, Join(p, t));
      SetColor(uncle, Black, Beside(g, Join(p, t)), g.sib);
      g := g.(sib := Blacken(g.sib));
      Across(g, Join(p, t));
      SetColor(parent, Black, g, Join(p, t));
      ghost var p' := p.(color := Black);
      Up(g, Join(p', t));
      SetColor(gparent, Red, g.up, Join(g, Join(p', t)));
    }

    // Black uncle, node's parent a left child: at most two rotations.
    method InsertTurnLeft(node0: RbNode, parent0: RbNode, gparent: RbNode, ghost p0: Path, ghost t0: Tree)
      returns (node: RbNode, ghost p: Path, ghost t: Tree)
      requires Zip(p0, t0) && Ripe(p0, t0) && t0.node == node0 && p0.up.holeLeft == true && !IsRed(p0.up.sib)
      requires parent0 == p0.node && gparent == p0.up.node
      modifies this`rbNode, this`rotations, PathNodes(p0), Nodes(t0)
      ensures Zip(p, t) && t.Node? && t.node == node && (p, t) == Turned(p0, t0)
      ensures rotations <= old(rotations) + 2
    {
      hide Zip;
      node, p, t := node0, p0, t0;
      var parent := parent0;
      ghost var g := p.up;
      View(p, t);
      Up(p, t);
      if parent.right == node {
        RotateLeft(parent, g, Join(p, t));
        p, t := Step(node, Red, true, t.right, g), Node(parent, Red, p.sib, t.left);
        Up(p, t);
        var tmp := parent;
        parent := node;
        node := tmp;
      }
      SetColor(parent, Black, g, Join(p, t));
      p := p.(color := Black);
      Up(g, Join(p, t));
      SetColor(gparent, Red, g.up, Join(g, Join(p, t)));
      g := g.(color := Red);
      RotateRight(gparent, g.up, Join(g, Join(p, t)));
      p := Step(parent, Black, true, Join(g, p.sib), g.up);
      Up(p, t);
    }

    // Black uncle, node's parent a right child: at most two rotations.
    method InsertTurnRight(node0: RbNode, parent0: RbNode, gparent: RbNode, ghost p0: Path, ghost t0: Tree)
      returns (node: RbNode, ghost p: Path, ghost t: Tree)
      requires Zip(p0, t0) && Ripe(p0, t0) && t0.node == node0 && p0.up.holeLeft == false && !IsRed(p0.up.sib)
      requires parent0 == p0.node && gparent == p0.up.node
      modifies this`rbNode, this`rotations, PathNodes(p0), Nodes(t0)
      ensures Zip(p, t) && t.Node? && t.node == node && (p, t) == Turned(p0, t0)
      ensures rotations <= old(rotations) + 2
    {
      hide Zip;
      node, p, t := node0, p0, t0;
      var parent := parent0;
      ghost var g := p.up;
      View(p, t);
      Up(p, t);
      if parent.left == node {
        RotateRight(parent, g, Join(p, t));
        p, t := Step(node, Red, false, t.left, g), Node(parent, Red, t.right, p.sib);
        Up(p, t);
        var tmp := parent;
        parent := node;
        node := tmp;
      }
      SetColor(parent, Black, g, Join(p, t));
      p := p.(color := Black);
      Up(g, Join(p, t));
      SetColor(gparent, Red, g.up, Join(g, Join(p, t)));
      g := g.(color := Red);
      RotateLeft(gparent, g.up, Join(g, Join(p, t)));
      p := Step(parent, Black, false, Join(g, p.sib), g.up);
      Up(p, t);
    }

    // The body of the insertion loop.
    method InsertTurn(node0: RbNode, ghost p0: Path, ghost t0: Tree)
      returns (node: RbNode, ghost p: Path, ghost t: Tree)
      requires Zip(p0, t0) && Ripe(p0, t0) && t0.node == node0
      modifies this`rbNode, this`rotations, PathNodes(p0), Nodes(t0)
      ensures Zip(p, t) && t.Node? && t.node == node
      ensures (p, t) == if IsRed(p0.up.sib) then Flipped(p0, t0) else Turned(p0, t0)
      ensures rotations <= old(rotations) + if IsRed(p0.up.sib) then 0 else 2
    {
      hide Zip;
      node, p, t := node0, p0, t0;
      ViewUncle(p, t);
      var parent := node.parent;
      var gparent := parent.parent;
      if parent == gparent.left {
        var uncle := gparent.right;
        if uncle != null && uncle.color.Red? {
          FlipColors(uncle, parent, gparent, p, t);
          node := gparent;
          p, t := Flipped(p, t).0, Flipped(p, t).1;
        } else {
          node, p, t := InsertTurnLeft(node, parent, gparent, p, t);
        }
      } else {
        var uncle := gparent.left;
        if uncle != null && uncle.color.Red? {
          FlipColors(uncle, parent, gparent, p, t);
          node := gparent;
          p, t := Flipped(p, t).0, Flipped(p, t).1;
        } else {
          node, p, t := InsertTurnRight(node, parent, gparent, p, t);
        }
      }
    }

    // The end of the insertion loop: the root is made black.
    method BlackenRoot(ghost p: Path, ghost t: Tree)
      requires Zip(p, t) && RedHole(p, t) && (p.Step? ==> p.color.Black?)
      modifies this`shape, PathNodes(p), Nodes(t)
      ensures Valid() && Nodes(shape) == PathNodes(p) + Nodes(t)
      ensures Inorder(shape) == Around(p, Inorder(t))
    {
      Whole(p, t);
      ValidPlug(p, t);
      InorderPlug(p, t);
      ghost var w := Plug(p, t);
      if p.Step? {
        ValidPlug(p, t);
        assert ValidRB(w);
      }
      View(Top, w);
      SetColor(rbNode, Black, Top, w);
      shape := Blacken(w);
      assert p.Step? ==> shape == w;
    }

    method InsertColor(node0: RbNode, ghost p0: Path)
      requires Zip(p0, Node(node0, Red, Leaf, Leaf)) && ValidRB(Plug(p0, Leaf))
      modifies this, PathNodes(p0), node0
      ensures Valid() && Nodes(shape) == PathNodes(p0) + {node0}
      ensures Inorder(shape) == Before(p0) + [node0] + After(p0)
      ensures rotations <= old(rotations) + 2
    {
      hide Zip;
      var node := node0;
      ghost var p, t := p0, Node(node0, Red, Leaf, Leaf);
      ghost var s, order := PathNodes(p0) + {node0}, Around(p0, [node0]);
      ValidPlug(p0, Leaf);
      assert BH(t) == 0 && RB(t) && Inorder(t) == [node0];
      View(p, t);
      while node.parent != null && node.parent.color.Red?
        invariant node.parent == Par(p) && (p.Step? ==> p.node.color == p.color)
        invariant Zip(p, t) && t.Node? && t.node == node && RedHole(p, t)
        invariant PathNodes(p) + Nodes(t) == s && Around(p, Inorder(t)) == order
        invariant rotations <= old(rotations) + if p.Step? && p.color.Red? then 0 else 2
        decreases Depth(p)
      {
        RipeAbove(p, t);
        if IsRed(p.up.sib) {
          FlipKeeps(p, t);
        } else {
          TurnKeeps(p, t);
        }
        node, p, t := InsertTurn(node, p, t);
        View(p, t);
      }
      View(p, t);
      AroundSplits(p0, [node0]);
      BlackenRoot(p, t);
    }

    // ----- erasure: each step of __rb_erase_color for both sides -----

    // The rotation that lifts the child away from the hole's side.
    method Rotate(left: bool, node: RbNode, ghost p: Path, ghost t: Tree)
      requires t.Node? && t.node == node && Far(left, t).Node? && Zip(p, t)
      modifies this`rbNode, this`rotations, PathNodes(p), Nodes(t)
      ensures Zip(p, Lifted(left, t)) && Nodes(Lifted(left, t)) == Nodes(t)
      ensures rotations == old(rotations) + 1
    {
      if left {
        RotateLeft(node, p, t);
      } else {
        RotateRight(node, p, t);
      }
    }

    // rb_set_color on the parent of the hole, on the sibling, and on a child of the sibling.
    method PaintParent(parent: RbNode, c: Color, ghost p: Path, ghost t: Tree)
      requires Zip(p, t) && p.Step? && p.node == parent
      modifies parent`color
      ensures Zip(p.(color := c), t)
    {
      Up(p, t);
      SetColor(parent, c, p.up, Join(p, t));
      Up(p.(color := c), t);
    }

    method PaintSibling(other: RbNode, c: Color, ghost p: Path, ghost t: Tree)
      requires Zip(p, t) && p.Step? && p.sib.Node? && p.sib.node == other
      modifies other`color
      ensures Zip(p.(sib := p.sib.(color := c)), t)
    {
      Across(p, t);
      SetColor(other, c, Beside(p, t), p.sib);
      Across(p.(sib := p.sib.(color := c)), t);
    }

    method PaintNephew(left: bool, nephew: RbNode, ghost p: Path, ghost t: Tree)
      requires Zip(p, t) && p.Step? && p.sib.Node?
      requires Near(left, p.sib).Node? && Near(left, p.sib).node == nephew
      modifies nephew`color
      ensures var o := p.sib; Zip(p.(sib := Make(left, o.node, o.color, Blacken(Near(left, o)), Far(left, o))), t)
    {
      ghost var o := p.sib;
      ghost var d := Step(o.node, o.color, left, Far(left, o), Beside(p, t));
      Across(p, t);
      Up(d, Near(left, o));
      SetColor(nephew, Black, d, Near(left, o));
      Up(d, Blacken(Near(left, o)));
      Across(p.(sib := Join(d, Blacken(Near(left, o)))), t);
    }

    // Red sibling.
    method LiftSibling(left: bool, parent: RbNode, other: RbNode, ghost p: Path, ghost t: Tree)
      requires Zip(p, t) && p.Step? && p.holeLeft == left && p.node == parent && p.sib.Node? && p.sib.node == other
      modifies this`rbNode, this`rotations, PathNodes(p), Nodes(t)
      ensures Zip(BlackSibling(p), t)
      ensures rotations == old(rotations) + 1
    {
      hide Zip;
      PaintSibling(other, Black, p, t);
      ghost var q := p.(sib := Blacken(p.sib));
      PaintParent(parent, Red, q, t);
      q := q.(color := Red);
      Up(q, t);
      Rotate(left, parent, p.up, Join(q, t));
      ghost var r := BlackSibling(p);
      Up(r.up, Join(r, t));
      Up(r, t);
    }

    // Black sibling, near child red and far child black.
    method LiftNear(left: bool, other: RbNode, near: RbNode, ghost p: Path, ghost t: Tree)
      requires Zip(p, t) && p.Step? && p.holeLeft == left && p.sib.Node? && p.sib.node == other
      requires Near(left, p.sib).Node? && Near(left, p.sib).node == near
      modifies this`rbNode, this`rotations, PathNodes(p), Nodes(t)
      ensures Zip(FarRed(p), t)
      ensures rotations == old(rotations) + 1
    {
      hide Zip;
      assert near in Nodes(p.sib);
      PaintNephew(left, near, p, t);
      ghost var o := p.sib;
      o := Make(left, o.node, o.color, Blacken(Near(left, o)), Far(left, o));
      PaintSibling(other, Red, p.(sib := o), t);
      o := o.(color := Red);
      assert Nodes(Blacken(Near(left, p.sib))) == Nodes(Near(left, p.sib));
      assert Nodes(o) == Nodes(p.sib);
      Across(p.(sib := o), t);
      Rotate(!left, other, Beside(p, t), o);
      Across(FarRed(p), t);
    }

    // Black sibling, far child red.
    method Repair(left: bool, parent: RbNode, other: RbNode, far: RbNode, ghost p: Path, ghost t: Tree)
      requires Zip(p, t) && p.Step? && p.holeLeft == left && p.node == parent && p.sib.Node? && p.sib.node == other
      requires Far(left, p.sib).Node? && Far(left, p.sib).node == far
      modifies this`rbNode, this`rotations, PathNodes(p), Nodes(t)
      ensures Zip(p.up, Repaired(p, t))
      ensures rotations == old(rotations) + 1
    {
      hide Zip;
      assert far in Nodes(p.sib);
      View(p, t);
      PaintSibling(other, parent.color, p, t);
      ghost var q := p.(sib := p.sib.(color := p.color));
      PaintParent(parent, Black, q, t);
      q := q.(color := Black);
      PaintNephew(!left, far, q, t);
      ghost var o := q.sib;
      q := q.(sib := Make(!left, o.node, o.color, Blacken(Far(left, o)), Near(left, o)));
      assert Nodes(Blacken(Far(left, p.sib))) == Nodes(Far(left, p.sib));
      assert Nodes(q.sib) == Nodes(p.sib);
      Up(q, t);
      Rotate(left, parent, p.up, Join(q, t));
    }

    // What the erasure loop reads around the hole.
    lemma ViewSibling(p: Path, t: Tree)
      requires Zip(p, t) && p.Step? && p.sib.Node?
      ensures (p.node.left == Root(t)) == p.holeLeft
      ensures Side(!p.holeLeft, p.node) == p.sib.node && p.sib.node.color == p.sib.color
      ensures p.sib.node.left == Root(p.sib.left) && p.sib.node.right == Root(p.sib.right)
      ensures p.sib.left.Node? ==> p.sib.left.node.color == p.sib.left.color
      ensures p.sib.right.Node? ==> p.sib.right.node.color == p.sib.right.color
    {
      View(p, t);
      Across(p, t);
      View(Beside(p, t), p.sib);
      var o := p.sib;
      var d := Step(o.node, o.color, true, o.right, Beside(p, t));
      Up(d, o.left);
      View(d, o.left);
      Across(d, o.left);
      View(Beside(d, o.left), o.right);
    }

    // The loop body up to the point where the sibling is black.
    method SettleSibling(left: bool, parent: RbNode, ghost p0: Path, ghost t: Tree) returns (other: RbNode, ghost p: Path)
      requires Zip(p0, t) && Needy(p0, t) && p0.holeLeft == left && parent == p0.node
      modifies this`rbNode, this`rotations, PathNodes(p0), Nodes(t)
      ensures Zip(p, t) && Needy(p, t) && p.holeLeft == left && parent == p.node
      ensures p.sib.Node? && other == p.sib.node && !IsRed(p.sib)
      ensures PathNodes(p) == PathNodes(p0) && Around(p, Inorder(t)) == Around(p0, Inorder(t))
      ensures (p == p0 && rotations == old(rotations))
        || (p.color.Red? && Depth(p) == Depth(p0) + 1 && rotations == old(rotations) + 1)
    {
      hide Zip;
      p := p0;
      NeedySibling(p, t);
      ViewSibling(p, t);
      other := if left then parent.right else parent.left;
      if other.color.Red? {
        BlackSiblingKeeps(p, t);
        LiftSibling(left, parent, other, p, t);
        p := BlackSibling(p);
        NeedySibling(p, t);
        ViewSibling(p, t);
        other := if left then parent.right else parent.left;
      }
    }

    // The last branch of the loop body: one or two rotations, and the tree is valid.
    method RepairSibling(left: bool, parent: RbNode, other0: RbNode, ghost p0: Path, ghost t: Tree) returns (ghost r: Tree)
      requires Zip(p0, t) && Needy(p0, t) && p0.holeLeft == left && parent == p0.node
      requires p0.sib.Node? && other0 == p0.sib.node && !IsRed(p0.sib) && (IsRed(p0.sib.left) || IsRed(p0.sib.right))
      modifies this`rbNode, this`rotations, PathNodes(p0), Nodes(t)
      ensures Zip(p0.up, r) && ValidRB(Plug(p0.up, r))
      ensures PathNodes(p0.up) + Nodes(r) == PathNodes(p0) + Nodes(t)
      ensures Around(p0.up, Inorder(r)) == Around(p0, Inorder(t))
      ensures rotations <= old(rotations) + 2
    {
      hide Zip;
      var other := other0;
      ghost var p := p0;
      ViewSibling(p, t);
      var far := if left then other.right else other.left;
      if far == null || far.color.Black? {
        FarRedKeeps(p, t);
        LiftNear(left, other, if left then other.left else other.right, p, t);
        p := FarRed(p);
        ViewSibling(p, t);
        other := if left then parent.right else parent.left;
      }
      RepairedKeeps(p, t);
      Repair(left, parent, other, if left then other.right else other.left, p, t);
      r := Repaired(p, t);
    }

    // The branch for a black sibling without red children.
    method Lend(parent: RbNode, other: RbNode, ghost p: Path, ghost t: Tree)
      requires Zip(p, t) && Needy(p, t) && parent == p.node
      requires p.sib.Node? && other == p.sib.node && !IsRed(p.sib) && !IsRed(p.sib.left) && !IsRed(p.sib.right)
      modifies other`color
      ensures Zip(p.up, Lent(p, t)) && Short(p.up, Lent(p, t)) && parent.parent == Par(p.up)
      ensures IsRed(Lent(p, t)) == p.color.Red?
      ensures PathNodes(p.up) + Nodes(Lent(p, t)) == PathNodes(p) + Nodes(t)
      ensures Around(p.up, Inorder(Lent(p, t))) == Around(p, Inorder(t))
    {
      hide Zip;
      LentKeeps(p, t);
      PaintSibling(other, Red, p, t);
      Up(p.(sib := p.sib.(color := Red)), t);
      View(p.up, Lent(p, t));
    }

    // The body of the erasure loop; `done` is the break.
    method EraseTurn(node0: RbNode?, parent0: RbNode, ghost p0: Path, ghost t0: Tree)
      returns (node: RbNode?, parent: RbNode?, done: bool, ghost p: Path, ghost t: Tree)
      requires Zip(p0, t0) && Needy(p0, t0) && node0 == Root(t0) && parent0 == p0.node
      modifies this`rbNode, this`rotations, PathNodes(p0), Nodes(t0)
      ensures Zip(p, t) && PathNodes(p) + Nodes(t) == PathNodes(p0) + Nodes(t0)
      ensures Around(p, Inorder(t)) == Around(p0, Inorder(t0))
      ensures if done then ValidRB(Plug(p, t)) else Short(p, t) && node == Root(t) && parent == Par(p)
      ensures done ==> node == rbNode && rotations <= old(rotations) + 3
      ensures !done ==> rotations <= old(rotations) + if IsRed(t) then 1 else 0
      ensures !done ==> Depth(p) < Depth(p0) || (Depth(p) == Depth(p0) && IsRed(t))
    {
      hide Zip;
      node, parent, p, t, done := node0, parent0, p0, t0, false;
      NeedySibling(p, t);
      ViewSibling(p, t);
      var left := parent.left == node;
      var other;
      other, p := SettleSibling(left, parent0, p, t);
      ViewSibling(p, t);
      if (other.left == null || other.left.color.Black?) && (other.right == null || other.right.color.Black?) {
        Lend(parent0, other, p, t);
        p, t := p.up, Lent(p, t);
        node := parent;
        parent := node.parent;
      } else {
        t := RepairSibling(left, parent0, other, p, t);
        p := p.up;
        node, done := rbNode, true;
      }
    }

    method EraseColor(node0: RbNode?, parent0: RbNode?, ghost p0: Path, ghost t0: Tree)
      requires Zip(p0, t0) && Short(p0, t0) && node0 == Root(t0) && parent0 == Par(p0)
      modifies this`rbNode, this`rotations, this`shape, PathNodes(p0), Nodes(t0)
      ensures Valid() && Nodes(shape) == PathNodes(p0) + Nodes(t0)
      ensures Inorder(shape) == Around(p0, Inorder(t0))
      ensures rotations <= old(rotations) + 3
    {
      hide Zip;
      var node, parent, done := node0, parent0, false;
      ghost var p, t := p0, t0;
      View(p, t);
      TopOnly(p, t);
      while (node == null || node.color.Black?) && node != rbNode
        invariant Zip(p, t) && Short(p, t) && node == Root(t) && parent == Par(p)
        invariant PathNodes(p) + Nodes(t) == PathNodes(p0) + Nodes(t0)
        invariant Around(p, Inorder(t)) == Around(p0, Inorder(t0))
        invariant (node == rbNode) == p.Top? && (node != null ==> node.color == t.color)
        invariant rotations <= old(rotations) + if IsRed(t) then 1 else 0
        decreases 2 * Depth(p) + if IsRed(t) then 0 else 1
      {
        node, parent, done, p, t := EraseTurn(node, parent, p, t);
        if done {
          ToTop(p, t);
          p, t := Top, Plug(p, t);
          break;
        }
        View(p, t);
        TopOnly(p, t);
      }
      if !done {
        ShortEnds(p, t);
      }
      EraseEnd(node, p, t);
    }

    // The end of the erasure: the node the loop stopped at is made black.
    method EraseEnd(node: RbNode?, ghost p: Path, ghost t: Tree)
      requires Zip(p, t) && node == Root(t) && ValidRB(Plug(p, Blacken(t)))
      modifies this`shape, Nodes(t)
      ensures Valid() && Nodes(shape) == PathNodes(p) + Nodes(t)
      ensures Inorder(shape) == Around(p, Inorder(t))
    {
      if node != null {
        SetColor(node, Black, p, t);
      }
      assert Zip(p, Blacken(t));
      assert Nodes(Blacken(t)) == Nodes(t) && Inorder(Blacken(t)) == Inorder(t);
      Whole(p, Blacken(t));
      InorderPlug(p, Blacken(t));
      shape := Plug(p, Blacken(t));
    }

    lemma ToTop(p: Path, t: Tree)
      requires Zip(p, t)
      ensures Zip(Top, Plug(p, t)) && Root(Plug(p, t)) == rbNode
      ensures ValidRB(Plug(p, t)) ==> Blacken(Plug(p, t)) == Plug(p, t)
      ensures PathNodes(Top) + Nodes(Plug(p, t)) == PathNodes(p) + Nodes(t)
      ensures Around(Top, Inorder(Plug(p, t))) == Around(p, Inorder(t))
    {
      Whole(p, t);
      InorderPlug(p, t);
    }

    // The hole is at the top exactly when the tree's root is the hole's.
    lemma TopOnly(p: Path, t: Tree)
      requires Zip(p, t)
      ensures (Root(t) == rbNode) == p.Top?
    {
      PathRoot(p, Root(t), rbNode, Read(PathNodes(p) + Nodes(t)));
    }

    // ----- rb_link_node and rb_erase -----

    method LinkNode(node: RbNode, parent: RbNode?, left: bool, ghost p: Path)
      requires Zip(p, Leaf) && node !in PathNodes(p) && parent == Par(p) && (p.Step? ==> p.holeLeft == left)
      modifies this`rbNode, node, PathNodes(p)
      ensures Zip(p, Node(node, Red, Leaf, Leaf))
    {
      ghost var root, s, m := rbNode, PathNodes(p), Read(PathNodes(p) + Nodes(Leaf));
      View(p, Leaf);
      node.parent, node.color := parent, Red;
      node.left, node.right := null, null;
      if parent == null {
        rbNode := node;
      } else if left {
        parent.left := node;
      } else {
        parent.right := node;
      }
      LinkLinks(p, node, root, m, rbNode, Read(PathNodes(p) + Nodes(Node(node, Red, Leaf, Leaf))));
    }

    // A node with at most one child leaves the tree.
    method Bypass(node: RbNode, child: RbNode?, ghost p: Path, ghost t: Tree) returns (parent: RbNode?)
      requires Zip(p, t) && t.Node? && t.node == node && (t.left.Leaf? || t.right.Leaf?) && child == Root(OnlyChild(t))
      modifies this`rbNode, PathNodes(p), Nodes(t)
      ensures Zip(p, OnlyChild(t)) && parent == Par(p)
    {
      ghost var root, m, c := rbNode, Read(PathNodes(p) + Nodes(t)), OnlyChild(t);
      assert c.Node? ==> c.node in Nodes(c) && Linked(c, node, m);
      View(p, t);
      parent := node.parent;
      if child != null {
        child.parent := parent;
      }
      if parent != null {
        if parent.left == node {
          parent.left := child;
        } else {
          parent.right := child;
        }
      } else {
        rbNode := child;
      }
      BypassLinks(p, t, root, m, rbNode, Read(PathNodes(p) + Nodes(c)));
    }

    // The pointer writes of rb_erase that put the in-order successor `node` in old's place.
    method MoveSuccessor(old_: RbNode, node: RbNode, ghost s: set<RbNode>) returns (child: RbNode?, parent: RbNode?)
      requires CanMove(Read(s), old_, node)
      modifies this`rbNode, s
      ensures Moved(old(Read(s)), Read(s), old_, node)
      ensures rbNode == if old(old_.parent) == null then node else old(rbNode)
      ensures child == old(node.right) && parent == if old(node.parent) == old_ then node else old(node.parent)
    {
      if old_.parent != null {
        if old_.parent.left == old_ {
          old_.parent.left := node;
        } else {
          old_.parent.right := node;
        }
      } else {
        rbNode := node;
      }
      child := node.right;
      parent := node.parent;
      if parent == old_ {
        parent := node;
      } else {
        if child != null {
          child.parent := parent;
        }
        parent.left := child;
        node.right := old_.right;
        old_.right.parent := node;
      }
      node.parent, node.color := old_.parent, old_.color;
      node.left := old_.left;
      old_.left.parent := node;
    }

    // The two-child case of rb_erase up to the colour repair.
    method TakeSuccessor(old_: RbNode, node: RbNode, ghost p: Path, ghost t: Tree, ghost i: Path, ghost y: Tree)
      returns (child: RbNode?, parent: RbNode?)
      requires Zip(p, t) && SuccessorAt(t, i, y) && t.node == old_ && y.node == node
      modifies this`rbNode, PathNodes(p), Nodes(t)
      ensures Zip(Append(i, Below(t, p, node)), y.right)
      ensures child == Root(y.right) && parent == Par(Append(i, Below(t, p, node)))
    {
      ghost var q, s, root := Append(i, Below(t, p, node)), PathNodes(p) + Nodes(t), rbNode;
      ghost var m := Read(s);
      SuccessorCanMove(p, t, i, y, root, m);
      SuccessorInside(p, t, i, y);
      hide Zip, ZipIn, CanMove, SuccessorAt, Append;
      child, parent := MoveSuccessor(old_, node, s);
      assert Moved(m, Read(s), old_, node);
      SuccessorLinks(p, t, i, y, root, m, rbNode, Read(s));
      ZipFrame(q, y.right, rbNode, Read(s), Read(PathNodes(q) + Nodes(y.right)));
    }

    // The leftmost node of the right subtree.
    method FindSuccessor(old_: RbNode, ghost p: Path, ghost t: Tree) returns (node: RbNode, ghost i: Path, ghost y: Tree)
      requires Zip(p, t) && t.Node? && t.node == old_ && t.left.Node? && t.right.Node?
      ensures Zip(p, t) && SuccessorAt(t, i, y) && y.Node? && y.node == node && y.node.color == y.color
    {
      hide Zip;
      View(p, t);
      ghost var q := Below(t, p, old_);
      Up(q, t.right);
      i, y := Top, t.right;
      node := old_.right;
      View(q, y);
      while node.left != null
        invariant Zip(p, t) && Zip(Append(i, q), y) && Plug(i, y) == t.right && AllLeft(i)
        invariant y.Node? && y.node == node && node.left == Root(y.left) && node.color == y.color
        decreases y
      {
        Up(Step(y.node, y.color, true, y.right, Append(i, q)), y.left);
        i, y := Step(y.node, y.color, true, y.right, i), y.left;
        node := node.left;
        View(Append(i, q), y);
      }
    }

    // rb_erase: the node leaves the tree, whatever its place and colour.
    method Erase(old_: RbNode)
      requires Valid() && old_ in Nodes(shape)
      modifies this, Nodes(shape)
      ensures Valid() && Inorder(shape) == Without(old(Inorder(shape)), old_)
      ensures Nodes(shape) == old(Nodes(shape)) - {old_}
      ensures rotations <= old(rotations) + 3
    {
      hide Zip, ZipIn, Distinct, Append, SuccessorAt, ValidRB, Without, Short;
      ghost var w := shape;
      Sound();
      ghost var z := Locate(Top, w, old_);
      ghost var p, t := z.0, z.1;
      Whole(p, t);
      View(p, t);
      var child, parent, color;
      ghost var q, c;
      if old_.left == null || old_.right == null {
        child := if old_.left == null then old_.right else old_.left;
        color := old_.color;
        q, c := p, OnlyChild(t);
        BypassRules(p, t, c);
        BypassOrder(p, t, c);
        parent := Bypass(old_, child, p, t);
      } else {
        var node;
        ghost var i, y;
        node, i, y := FindSuccessor(old_, p, t);
        color := node.color;
        q, c := Append(i, Below(t, p, node)), y.right;
        SuccessorKeeps(p, t, i, y);
        child, parent := TakeSuccessor(old_, node, p, t, i, y);
      }
      if color.Black? {
        EraseColor(child, parent, q, c);
      } else {
        EraseRed(q, c);
      }
    }

    lemma Sound()
      requires Valid()
      ensures Zip(Top, shape) && ValidRB(shape) && Distinct(shape)
    {
    }

    // A red node has left: nothing to repair.
    ghost method EraseRed(p: Path, t: Tree)
      requires Zip(p, t) && ValidRB(Plug(p, t))
      modifies this`shape
      ensures Valid() && Nodes(shape) == PathNodes(p) + Nodes(t) && Inorder(shape) == Around(p, Inorder(t))
    {
      Whole(p, t);
      InorderPlug(p, t);
      shape := Plug(p, t);
    }

    // ----- stepping through the tree -----

    // Down and left as far as possible from the root of t.
    method Leftmost(node0: RbNode, ghost p: Path, ghost t: Tree) returns (node: RbNode)
      requires Zip(p, t) && t.Node? && t.node == node0
      ensures node == Inorder(t)[0]
    {
      hide Zip;
      node := node0;
      ghost var q, y := p, t;
      View(q, y);
      while node.left != null
        invariant Zip(q, y) && y.Node? && y.node == node && node.left == Root(y.left)
        invariant Inorder(y)[0] == Inorder(t)[0]
        decreases y
      {
        Up(Step(y.node, y.color, true, y.right, q), y.left);
        q, y := Step(y.node, y.color, true, y.right, q), y.left;
        View(q, y);
        node := node.left;
      }
    }

    method First() returns (n: RbNode?)
      requires Valid()
      ensures n == if Inorder(shape) == [] then null else Inorder(shape)[0]
    {
      View(Top, shape);
      n := rbNode;
      if n != null {
        n := Leftmost(n, Top, shape);
      }
    }

    // Down and right as far as possible from the root of t.
    method Rightmost(node0: RbNode, ghost p: Path, ghost t: Tree) returns (node: RbNode)
      requires Zip(p, t) && t.Node? && t.node == node0
      ensures node == Inorder(t)[|Inorder(t)| - 1]
    {
      hide Zip;
      node := node0;
      ghost var q, y := p, t;
      View(q, y);
      while node.right != null
        invariant Zip(q, y) && y.Node? && y.node == node && node.right == Root(y.right)
        invariant Inorder(y)[|Inorder(y)| - 1] == Inorder(t)[|Inorder(t)| - 1]
        decreases y
      {
        Up(Step(y.node, y.color, false, y.left, q), y.right);
        q, y := Step(y.node, y.color, false, y.left, q), y.right;
        View(q, y);
        node := node.right;
      }
    }

    method Last() returns (n: RbNode?)
      requires Valid()
      ensures n == if Inorder(shape) == [] then null else Inorder(shape)[|Inorder(shape)| - 1]
    {
      View(Top, shape);
      n := rbNode;
      if n != null {
        n := Rightmost(n, Top, shape);
      }
    }

    lemma NotSelf(n: RbNode)
      requires Valid() && n.parent == n
      ensures n !in Nodes(shape)
    {
      if n in Nodes(shape) {
        var z := Locate(Top, shape, n);
        Whole(z.0, z.1);
        View(z.0, z.1);
      }
    }

    // Where a node stands in the in-order sequence.
    lemma PlaceOf(p: Path, t: Tree)
      requires Plug(p, t) == shape && t.Node?
      ensures var k := |Before(p)| + |Inorder(t.left)|; var s := Inorder(shape);
        && k < |s| && s[k] == t.node
        && s[..k] == Before(p) + Inorder(t.left) && s[k + 1..] == Inorder(t.right) + After(p)
    {
      InorderPlug(p, t);
      AroundSplits(p, Inorder(t));
      assert Inorder(t) == Inorder(t.left) + [t.node] + Inorder(t.right);
      hide *;
      MiddleOf(Before(p), Inorder(t.left), t.node, Inorder(t.right), After(p));
    }

    // Up until the way comes from a left child.
    method ClimbRight(node0: RbNode, ghost p0: Path, ghost t0: Tree) returns (n: RbNode?)
      requires Zip(p0, t0) && t0.Node? && t0.node == node0
      ensures n == if After(p0) == [] then null else After(p0)[0]
    {
      hide Zip, Inorder;
      ghost var p, t := p0, t0;
      View(p, t);
      var node := node0;
      while node.parent != null && node == node.parent.right
        invariant Zip(p, t) && t.Node? && t.node == node && After(p) == After(p0)
        invariant node.parent == Par(p) && (p.Step? ==> (p.node.right == node) == !p.holeLeft)
        decreases p
      {
        Up(p, t);
        p, t := p.up, Join(p, t);
        View(p, t);
        node := node.parent;
      }
      n := node.parent;
    }

    method Next(node: RbNode) returns (n: RbNode?)
      requires Valid() && (node in Nodes(shape) || node.parent == node)
      ensures node !in Nodes(shape) ==> n == null
      ensures node in Nodes(shape) ==> Follows(Inorder(shape), node, n)
    {
      hide Zip, Follows, Precedes, Before, After;
      if node.parent == node {
        NotSelf(node);
        return null;
      }
      Sound();
      ghost var z := Locate(Top, shape, node);
      ghost var p, t := z.0, z.1;
      Whole(p, t);
      View(p, t);
      PlaceOf(p, t);
      ghost var k := |Before(p)| + |Inorder(t.left)|;
      if node.right != null {
        ghost var q := Step(t.node, t.color, false, t.left, p);
        Up(q, t.right);
        n := Leftmost(node.right, q, t.right);
      } else {
        n := ClimbRight(node, p, t);
      }
      FollowsAt(Inorder(shape), k, node, n);
    }

    // Up until the way comes from a right child.
    method ClimbLeft(node0: RbNode, ghost p0: Path, ghost t0: Tree) returns (n: RbNode?)
      requires Zip(p0, t0) && t0.Node? && t0.node == node0
      ensures n == if Before(p0) == [] then null else Before(p0)[|Before(p0)| - 1]
    {
      hide Zip, Inorder;
      ghost var p, t := p0, t0;
      View(p, t);
      var node := node0;
      while node.parent != null && node == node.parent.left
        invariant Zip(p, t) && t.Node? && t.node == node && Before(p) == Before(p0)
        invariant node.parent == Par(p) && (p.Step? ==> (p.node.left == node) == p.holeLeft)
        decreases p
      {
        Up(p, t);
        p, t := p.up, Join(p, t);
        View(p, t);
        node := node.parent;
      }
      n := node.parent;
    }

    method Prev(node: RbNode) returns (n: RbNode?)
      requires Valid() && (node in Nodes(shape) || node.parent == node)
      ensures node !in Nodes(shape) ==> n == null
      ensures node in Nodes(shape) ==> Precedes(Inorder(shape), n, node)
    {
      hide Zip, Follows, Precedes, Before, After;
      if node.parent == node {
        NotSelf(node);
        return null;
      }
      Sound();
      ghost var z := Locate(Top, shape, node);
      ghost var p, t := z.0, z.1;
      Whole(p, t);
      View(p, t);
      PlaceOf(p, t);
      ghost var k := |Before(p)| + |Inorder(t.left)|;
      if node.left != null {
        ghost var q := Step(t.node, t.color, true, t.right, p);
        Up(q, t.left);
        n := Rightmost(node.left, q, t.left);
      } else {
        n := ClimbLeft(node, p, t);
      }
      PrecedesAt(Inorder(shape), k, node, n);
    }
  }

  function Side(left: bool, n: RbNode): RbNode?
    reads n
  {
    if left then n.left else n.right
  }
}

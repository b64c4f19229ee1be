// What a set of linked nodes looks like on the heap, and what the pointer writes of the
// tree operations do to it.
module RbLinks {
  import opened RbShape
  import opened RbBalance

  // The fields of one node, and of a set of nodes, at one moment.
  datatype Rec = Rec(parent: RbNode?, color: Color, left: RbNode?, right: RbNode?)

  type Mem = map<RbNode, Rec>

  ghost function Read(s: set<RbNode>): Mem
    reads s
  {
    map n | n in s :: Rec(n.parent, n.color, n.left, n.right)
  }

  // In m the nodes of t are linked as t says; p is the parent of its root.
  ghost predicate Linked(t: Tree, p: RbNode?, m: Mem) {
    t.Node? ==>
      && t.node in m && m[t.node] == Rec(p, t.color, Root(t.left), Root(t.right))
      && Linked(t.left, t.node, m) && Linked(t.right, t.node, m)
  }

  function StepRec(p: Path, hole: RbNode?): Rec
    requires p.Step?
  {
    if p.holeLeft then Rec(Par(p.up), p.color, hole, Root(p.sib)) else Rec(Par(p.up), p.color, Root(p.sib), hole)
  }

  ghost predicate LinkedPath(p: Path, hole: RbNode?, root: RbNode?, m: Mem)
    decreases p
  {
    if p.Top? then root == hole
    else
      && p.node in m && m[p.node] == StepRec(p, hole)
      && Linked(p.sib, p.node, m) && LinkedPath(p.up, p.node, root, m)
  }

  ghost predicate ZipIn(p: Path, t: Tree, root: RbNode?, m: Mem) {
    DistinctZip(p, t) && Linked(t, Par(p), m) && LinkedPath(p, Root(t), root, m)
  }

  lemma {:induction false} LinkedFrame(t: Tree, p: RbNode?, m: Mem, m': Mem)
    requires Linked(t, p, m)
    requires forall n :: n in Nodes(t) && n in m ==> n in m' && m'[n] == m[n]
    ensures Linked(t, p, m')
  {
    if t.Node? {
      LinkedFrame(t.left, t.node, m, m');
      LinkedFrame(t.right, t.node, m, m');
    }
  }

  lemma {:induction false} PathFrame(p: Path, hole: RbNode?, root: RbNode?, m: Mem, m': Mem)
    requires LinkedPath(p, hole, root, m)
    requires forall n :: n in PathNodes(p) && n in m ==> n in m' && m'[n] == m[n]
    ensures LinkedPath(p, hole, root, m')
    decreases p
  {
    if p.Step? {
      LinkedFrame(p.sib, p.node, m, m');
      PathFrame(p.up, p.node, root, m, m');
    }
  }

  function RotatedLeft(t: Tree): Tree
    requires t.Node? && t.right.Node?
  {
    Node(t.right.node, t.right.color, Node(t.node, t.color, t.left, t.right.left), t.right.right)
  }

  function RotatedRight(t: Tree): Tree
    requires t.Node? && t.left.Node?
  {
    Node(t.left.node, t.left.color, t.left.left, Node(t.node, t.color, t.left.right, t.right))
  }

  lemma RotateDistinct(p: Path, t: Tree)
    requires DistinctZip(p, t) && t.Node?
    ensures t.right.Node? ==> DistinctZip(p, RotatedLeft(t)) && Nodes(RotatedLeft(t)) == Nodes(t)
    ensures t.left.Node? ==> DistinctZip(p, RotatedRight(t)) && Nodes(RotatedRight(t)) == Nodes(t)
  {
    var l, r := t.left, t.right;
    if r.Node? {
      assert Distinct(r);
      assert Nodes(r) == {r.node} + Nodes(r.left) + Nodes(r.right);
      assert Distinct(RotatedLeft(t).left);
    }
    if l.Node? {
      assert Distinct(l);
      assert Nodes(l) == {l.node} + Nodes(l.left) + Nodes(l.right);
      assert Distinct(RotatedRight(t).right);
    }
  }

  // A change below a path: the innermost step points at another node, the rest stays.
  lemma PathRelink(p: Path, hole: RbNode?, hole': RbNode?, root: RbNode?, root': RbNode?, m: Mem, m': Mem)
    requires DistinctPath(p) && LinkedPath(p, hole, root, m)
    requires forall n :: n in PathNodes(p) && n in m && n != Par(p) ==> n in m' && m'[n] == m[n]
    requires if p.Top? then root' == hole' else root' == root && p.node in m' && m'[p.node] == StepRec(p, hole')
    ensures LinkedPath(p, hole', root', m')
  {
    if p.Step? {
      LinkedFrame(p.sib, p.node, m, m');
      PathFrame(p.up, p.node, root, m, m');
    }
  }

  // The subtree t hangs under another parent; only its root's record differs.
  lemma Reparent(t: Tree, p: RbNode?, q: RbNode?, m: Mem, m': Mem)
    requires Distinct(t) && Linked(t, p, m)
    requires forall n :: n in Nodes(t) && n in m && n != Root(t) ==> n in m' && m'[n] == m[n]
    requires t.Node? ==> t.node in m' && m'[t.node] == m[t.node].(parent := q)
    ensures Linked(t, q, m')
  {
    if t.Node? {
      LinkedFrame(t.left, t.node, m, m');
      LinkedFrame(t.right, t.node, m, m');
    }
  }

  // ----- what the pointer writes do to the records -----

  // Around `node`: the child that goes up, that child's inner child, and node's parent.
  ghost predicate CanRotate(m: Mem, node: RbNode, child: RbNode?, inner: RbNode?, parent: RbNode?) {
    && node in m && child != null && child in m && (inner != null ==> inner in m) && (parent != null ==> parent in m)
    && child != node && inner != node && inner != child
    && parent != node && parent != child && (parent != null ==> parent != inner)
    && (parent != null ==> (m[parent].left == node) != (m[parent].right == node))
  }

  // From m to m', `child` takes node's place below `parent` and `inner` goes to node.
  ghost predicate Rotated(m: Mem, m': Mem, node: RbNode, child: RbNode?, inner: RbNode?, parent: RbNode?, leftward: bool)
    requires CanRotate(m, node, child, inner, parent)
  {
    && m'.Keys == m.Keys
    && m'[node] == (if leftward then m[node].(parent := child, right := inner) else m[node].(parent := child, left := inner))
    && m'[child] == (if leftward then m[child].(parent := parent, left := node) else m[child].(parent := parent, right := node))
    && (inner != null ==> m'[inner] == m[inner].(parent := node))
    && (parent != null ==>
          m'[parent] == (if m[parent].left == node then m[parent].(left := child) else m[parent].(right := child)))
    && forall n :: n in m && n != node && n != child && n != inner && n != parent ==> m'[n] == m[n]
  }

  lemma RotateLeftLinks(p: Path, t: Tree, root: RbNode?, m: Mem, root': RbNode?, m': Mem)
    requires ZipIn(p, t, root, m) && t.Node? && t.right.Node?
    requires CanRotate(m, t.node, t.right.node, Root(t.right.left), Par(p))
    requires Rotated(m, m', t.node, t.right.node, Root(t.right.left), Par(p), true)
    requires root' == if p.Top? then t.right.node else root
    ensures ZipIn(p, RotatedLeft(t), root', m')
  {
    var c := t.right;
    RotateDistinct(p, t);
    assert Linked(c, t.node, m) && Distinct(c) && Linked(c.left, c.node, m);
    LinkedFrame(t.left, t.node, m, m');
    Reparent(c.left, c.node, t.node, m, m');
    LinkedFrame(c.right, c.node, m, m');
    PathRelink(p, t.node, c.node, root, root', m, m');
    assert Linked(RotatedLeft(t).left, c.node, m');
  }

  lemma RotateRightLinks(p: Path, t: Tree, root: RbNode?, m: Mem, root': RbNode?, m': Mem)
    requires ZipIn(p, t, root, m) && t.Node? && t.left.Node?
    requires CanRotate(m, t.node, t.left.node, Root(t.left.right), Par(p))
    requires Rotated(m, m', t.node, t.left.node, Root(t.left.right), Par(p), false)
    requires root' == if p.Top? then t.left.node else root
    ensures ZipIn(p, RotatedRight(t), root', m')
  {
    var c := t.left;
    RotateDistinct(p, t);
    assert Linked(c, t.node, m) && Distinct(c) && Linked(c.right, c.node, m);
    LinkedFrame(t.right, t.node, m, m');
    Reparent(c.right, c.node, t.node, m, m');
    LinkedFrame(c.left, c.node, m, m');
    PathRelink(p, t.node, c.node, root, root', m, m');
    assert Linked(RotatedRight(t).right, c.node, m');
  }

  lemma RotatePossible(p: Path, t: Tree, root: RbNode?, m: Mem)
    requires ZipIn(p, t, root, m) && t.Node?
    ensures t.node in m && m[t.node] == Rec(Par(p), t.color, Root(t.left), Root(t.right))
    ensures t.right.Node? ==> (
      && t.right.node in m && m[t.right.node].left == Root(t.right.left)
      && CanRotate(m, t.node, t.right.node, Root(t.right.left), Par(p)))
    ensures t.left.Node? ==> (
      && t.left.node in m && m[t.left.node].right == Root(t.left.right)
      && CanRotate(m, t.node, t.left.node, Root(t.left.right), Par(p)))
  {
    assert Linked(t.left, t.node, m) && Linked(t.right, t.node, m);
    assert Distinct(t.left) && Distinct(t.right);
    assert t.left.Node? ==> Linked(t.left.right, t.left.node, m);
    assert t.right.Node? ==> Linked(t.right.left, t.right.node, m);
  }

  // One step up, seen from both sides.
  lemma ZipUp(p: Path, t: Tree, root: RbNode?, m: Mem)
    requires p.Step?
    ensures ZipIn(p, t, root, m) <==> ZipIn(p.up, Join(p, t), root, m)
    ensures PathNodes(p) + Nodes(t) == PathNodes(p.up) + Nodes(Join(p, t))
  {
    assert DistinctZip(p, t) <==> DistinctZip(p.up, Join(p, t));
  }

  lemma RecolorLinks(p: Path, t: Tree, root: RbNode?, m: Mem, c: Color)
    requires ZipIn(p, t, root, m) && t.Node?
    ensures t.node in m && ZipIn(p, t.(color := c), root, m[t.node := m[t.node].(color := c)])
  {
    var m' := m[t.node := m[t.node].(color := c)];
    LinkedFrame(t.left, t.node, m, m');
    LinkedFrame(t.right, t.node, m, m');
    PathFrame(p, t.node, root, m, m');
  }

  // The zipper moved to the sibling of its hole.
  function Beside(p: Path, t: Tree): Path
    requires p.Step?
  {
    Step(p.node, p.color, !p.holeLeft, t, p.up)
  }

  lemma ZipAcross(p: Path, t: Tree, root: RbNode?, m: Mem)
    requires p.Step?
    ensures ZipIn(p, t, root, m) <==> ZipIn(Beside(p, t), p.sib, root, m)
    ensures PathNodes(p) + Nodes(t) == PathNodes(Beside(p, t)) + Nodes(p.sib)
  {
    ZipUp(p, t, root, m);
    ZipUp(Beside(p, t), p.sib, root, m);
  }

  lemma {:induction false} ZipPlug(p: Path, t: Tree, root: RbNode?, m: Mem)
    ensures ZipIn(p, t, root, m) <==> ZipIn(Top, Plug(p, t), root, m)
    ensures PathNodes(p) + Nodes(t) == Nodes(Plug(p, t))
    decreases p
  {
    if p.Step? {
      ZipUp(p, t, root, m);
      ZipPlug(p.up, Join(p, t), root, m);
    }
  }

  lemma {:induction false} ZipAppend(i: Path, q: Path, t: Tree, root: RbNode?, m: Mem)
    ensures ZipIn(Append(i, q), t, root, m) <==> ZipIn(q, Plug(i, t), root, m)
    ensures PathNodes(Append(i, q)) + Nodes(t) == PathNodes(q) + Nodes(Plug(i, t))
    decreases i
  {
    if i.Step? {
      ZipUp(Append(i, q), t, root, m);
      ZipAppend(i.up, q, Join(i, t), root, m);
    }
  }

  lemma {:induction false} PathRoot(p: Path, hole: RbNode?, root: RbNode?, m: Mem)
    requires LinkedPath(p, hole, root, m)
    ensures if p.Top? then root == hole else root in PathNodes(p)
    decreases p
  {
    if p.Step? {
      PathRoot(p.up, p.node, root, m);
    }
  }

  // ----- linking a leaf -----

  // rb_link_node: a new red leaf in the hole.
  lemma LinkLinks(p: Path, n: RbNode, root: RbNode?, m: Mem, root': RbNode?, m': Mem)
    requires ZipIn(p, Leaf, root, m) && n !in PathNodes(p)
    requires n in m' && m'[n] == Rec(Par(p), Red, null, null)
    requires p.Step? ==> p.node in m' && m'[p.node] == StepRec(p, n)
    requires forall k :: k in PathNodes(p) && k in m && k != Par(p) ==> k in m' && m'[k] == m[k]
    requires root' == if p.Top? then n else root
    ensures ZipIn(p, Node(n, Red, Leaf, Leaf), root', m')
  {
    PathRelink(p, null, n, root, root', m, m');
  }

  // ----- taking nodes out -----

  function OnlyChild(t: Tree): Tree
    requires t.Node?
  {
    if t.left.Leaf? then t.right else t.left
  }

  // A node with at most one child is bypassed.
  lemma BypassLinks(p: Path, t: Tree, root: RbNode?, m: Mem, root': RbNode?, m': Mem)
    requires ZipIn(p, t, root, m) && t.Node? && (t.left.Leaf? || t.right.Leaf?)
    requires var c := OnlyChild(t); c.Node? ==> c.node in m && c.node in m' && m'[c.node] == m[c.node].(parent := Par(p))
    requires p.Step? ==> p.node in m' && m'[p.node] == StepRec(p, Root(OnlyChild(t)))
    requires forall k :: k in m && k != t.node && k != Par(p) && k != Root(OnlyChild(t)) ==> k in m' && m'[k] == m[k]
    requires root' == if p.Top? then Root(OnlyChild(t)) else root
    ensures ZipIn(p, OnlyChild(t), root', m')
  {
    var c := OnlyChild(t);
    Reparent(c, t.node, Par(p), m, m');
    PathRelink(p, t.node, Root(c), root, root', m, m');
  }

  // The successor y of `old` leaves its place: its parent takes over its right child.
  ghost function Unlinked(m: Mem, y: RbNode): Mem
    requires y in m && m[y].parent != null && m[y].parent in m && (m[y].right != null ==> m[y].right in m)
  {
    var q, c := m[y].parent, m[y].right;
    var m1 := m[q := if m[q].left == y then m[q].(left := c) else m[q].(right := c)];
    if c == null then m1 else m1[c := m1[c].(parent := q)]
  }

  // The nodes rb_erase touches when it moves the successor y into old's place.
  ghost predicate CanMove(m: Mem, old_: RbNode, y: RbNode) {
    && old_ in m && y in m && old_ != y
    && var u, c, q, l, r := m[old_].parent, m[y].right, m[y].parent, m[old_].left, m[old_].right;
    && q != null && q in m && l != null && l in m && r != null && r in m && (c != null ==> c in m) && (u != null ==> u in m)
    && l != old_ && l != y && l != q && l != r && l != c && l != u
    && r != old_ && r != u && r != c && (r == y <==> q == old_)
    && q != y && c != q && c != y && c != old_ && (c != null ==> c != u && m[c].parent == y)
    && u != old_ && u != y && u != q
    && (u != null ==> (m[u].left == old_) != (m[u].right == old_))
    && (if q == old_ then m[q].left != y else m[q].left == y)
  }

  ghost predicate Replaced(m: Mem, m': Mem, old_: RbNode, y: RbNode)
    requires old_ in m
  {
    var u, l, r := m[old_].parent, m[old_].left, m[old_].right;
    && m'.Keys == m.Keys && y in m && m'[y] == m[old_]
    && (l != null ==> l in m && m'[l] == m[l].(parent := y))
    && (r != null ==> r in m && m'[r] == m[r].(parent := y))
    && (u != null ==> u in m && m'[u] == if m[u].left == old_ then m[u].(left := y) else m[u].(right := y))
    && forall n :: n in m && n != old_ && n != y && n != l && n != r && n != u ==> m'[n] == m[n]
  }

  // What those writes amount to, node by node.
  ghost predicate Moved(m: Mem, m': Mem, old_: RbNode, y: RbNode)
    requires CanMove(m, old_, y)
  {
    var u, c, q, l, r := m[old_].parent, m[y].right, m[y].parent, m[old_].left, m[old_].right;
    && m'.Keys == m.Keys
    && m'[y] == Rec(u, m[old_].color, l, if q == old_ then c else r)
    && m'[l] == m[l].(parent := y)
    && (u != null ==> m'[u] == if m[u].left == old_ then m[u].(left := y) else m[u].(right := y))
    && (q != old_ ==>
          && m'[q] == m[q].(left := c, parent := if q == r then y else m[q].parent)
          && (c != null ==> m'[c] == m[c].(parent := q))
          && (r != q ==> m'[r] == m[r].(parent := y)))
    && forall n :: n in m && n != y && n != l && n != u && (q == old_ || (n != q && n != c && n != r)) ==> m'[n] == m[n]
  }

  lemma MovedReplaces(m: Mem, m': Mem, old_: RbNode, y: RbNode)
    requires CanMove(m, old_, y) && Moved(m, m', old_, y)
    ensures Replaced(Unlinked(m, y), m', old_, y)
  {
    var m1, q, c := Unlinked(m, y), m[y].parent, m[y].right;
    if q == old_ {
      assert m1[old_] == m[old_].(right := c);
    } else {
      assert m1[old_] == m[old_];
    }
  }

  // y takes the place of the root of t.
  lemma ReplaceLinks(p: Path, t: Tree, y: RbNode, root: RbNode?, m: Mem, root': RbNode?, m': Mem)
    requires ZipIn(p, t, root, m) && t.Node? && t.node in m && y !in PathNodes(p) + Nodes(t)
    requires y in m' && m'[y] == m[t.node]
    requires t.left.Node? ==> t.left.node in m && t.left.node in m' && m'[t.left.node] == m[t.left.node].(parent := y)
    requires t.right.Node? ==> t.right.node in m && t.right.node in m' && m'[t.right.node] == m[t.right.node].(parent := y)
    requires p.Step? ==> p.node in m' && m'[p.node] == StepRec(p, y)
    requires forall k :: k in m && k != y && k != t.node && k != Root(t.left) && k != Root(t.right) && k != Par(p) ==>
      k in m' && m'[k] == m[k]
    requires root' == if p.Top? then y else root
    ensures ZipIn(p, t.(node := y), root', m')
  {
    Reparent(t.left, t.node, y, m, m');
    Reparent(t.right, t.node, y, m, m');
    PathRelink(p, t.node, y, root, root', m, m');
  }

  lemma ZipFrame(p: Path, t: Tree, root: RbNode?, m: Mem, m': Mem)
    requires ZipIn(p, t, root, m)
    requires forall n :: n in PathNodes(p) + Nodes(t) && n in m ==> n in m' && m'[n] == m[n]
    ensures ZipIn(p, t, root, m')
  {
    LinkedFrame(t, Par(p), m, m');
    PathFrame(p, Root(t), root, m, m');
  }

  // old's subtree t, whose right subtree is y inside the left-going path i.
  ghost predicate SuccessorAt(t: Tree, i: Path, y: Tree) {
    && t.Node? && t.left.Node? && t.right == Plug(i, y) && AllLeft(i)
    && y.Node? && y.left.Leaf?
  }

  function Below(t: Tree, p: Path, n: RbNode): Path
    requires t.Node?
  {
    Step(n, t.color, false, t.left, p)
  }

  lemma SuccessorZip(p: Path, t: Tree, i: Path, y: Tree, root: RbNode?, m: Mem)
    requires t.Node? && t.right == Plug(i, y)
    ensures ZipIn(p, t, root, m) <==> ZipIn(Append(i, Below(t, p, t.node)), y, root, m)
    ensures PathNodes(p) + Nodes(t) == PathNodes(Append(i, Below(t, p, t.node))) + Nodes(y)
  {
    ZipUp(Below(t, p, t.node), t.right, root, m);
    ZipAppend(i, Below(t, p, t.node), y, root, m);
  }

  lemma {:induction false} PlugRoot(i: Path, t: Tree)
    ensures i.Top? ==> Root(Plug(i, t)) == Root(t)
    ensures i.Step? ==> Root(Plug(i, t)) in PathNodes(i)
  {
    if i.Step? {
      PlugRoot(i.up, Join(i, t));
      if i.up.Top? {
        assert Plug(i, t) == Join(i, t);
      }
    }
  }

  lemma SuccessorCanMove(p: Path, t: Tree, i: Path, y: Tree, root: RbNode?, m: Mem)
    requires ZipIn(p, t, root, m) && SuccessorAt(t, i, y)
    ensures CanMove(m, t.node, y.node) && m[t.node].parent == Par(p)
    ensures m[y.node].right == Root(y.right) && m[y.node].parent == Par(Append(i, Below(t, p, t.node)))
  {
    var q := Below(t, p, t.node);
    var path := Append(i, q);
    SuccessorZip(p, t, i, y, root, m);
    AppendPlug(i, q, y);
    PlugRoot(i, y);
    NodesPlug(i, y);
    assert Linked(t.left, t.node, m) && Linked(t.right, t.node, m) && Linked(y.right, y.node, m);
    assert m[y.node] == Rec(Par(path), y.color, null, Root(y.right));
    assert m[path.node] == StepRec(path, y.node);
    assert t.left.node in Nodes(t.left);
    assert y.right.Node? ==> y.right.node in Nodes(y.right);
  }

  lemma SuccessorUnlinks(p: Path, t: Tree, i: Path, y: Tree, root: RbNode?, m: Mem)
    requires ZipIn(p, t, root, m) && SuccessorAt(t, i, y) && CanMove(m, t.node, y.node)
    ensures var t' := t.(right := Plug(i, y.right));
      ZipIn(p, t', root, Unlinked(m, y.node)) && y.node !in PathNodes(p) + Nodes(t')
  {
    var path := Append(i, Below(t, p, t.node));
    SuccessorZip(p, t, i, y, root, m);
    assert Linked(y.right, y.node, m);
    var m1 := Unlinked(m, y.node);
    BypassLinks(path, y, root, m, root, m1);
    var t' := t.(right := Plug(i, y.right));
    SuccessorZip(p, t', i, y.right, root, m1);
  }

  lemma SuccessorInside(p: Path, t: Tree, i: Path, y: Tree)
    requires DistinctZip(p, t) && SuccessorAt(t, i, y)
    ensures var q, q' := Append(i, Below(t, p, t.node)), Append(i, Below(t, p, y.node));
      && PathNodes(q') + Nodes(y.right) <= PathNodes(p) + Nodes(t)
      && Par(q') == (if Par(q) == t.node then y.node else Par(q))
  {
    AppendPlug(i, Below(t, p, y.node), y.right);
    AppendPlug(i, Below(t, p, t.node), y);
    NodesPlug(i, y);
  }

  lemma SuccessorKeeps(p: Path, t: Tree, i: Path, y: Tree)
    requires ValidRB(Plug(p, t)) && Distinct(Plug(p, t)) && SuccessorAt(t, i, y)
    ensures y.Node?
    ensures var q := Append(i, Below(t, p, y.node));
      && (if y.color.Black? then Short(q, y.right) else ValidRB(Plug(q, y.right)))
      && Around(q, Inorder(y.right)) == Without(Inorder(Plug(p, t)), t.node)
      && PathNodes(q) + Nodes(y.right) == Nodes(Plug(p, t)) - {t.node}
  {
    SuccessorRules(p, t, i, y);
    SuccessorOrder(p, t, i, y);
    SuccessorNodes(p, t, i, y);
  }

  // The whole of rb_erase's two-child case on the links.
  lemma SuccessorLinks(p: Path, t: Tree, i: Path, y: Tree, root: RbNode?, m: Mem, root': RbNode?, m': Mem)
    requires ZipIn(p, t, root, m) && SuccessorAt(t, i, y) && CanMove(m, t.node, y.node)
    requires Moved(m, m', t.node, y.node)
    requires root' == if p.Top? then y.node else root
    ensures ZipIn(Append(i, Below(t, p, y.node)), y.right, root', m')
  {
    var t' := t.(right := Plug(i, y.right));
    var m1 := Unlinked(m, y.node);
    SuccessorUnlinks(p, t, i, y, root, m);
    MovedReplaces(m, m', t.node, y.node);
    assert Linked(t'.left, t.node, m1) && Linked(t'.right, t.node, m1);
    ReplaceLinks(p, t', y.node, root, m1, root', m');
    SuccessorZip(p, t'.(node := y.node), i, y.right, root', m');
  }
}

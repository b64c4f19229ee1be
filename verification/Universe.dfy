// universe.c and system.c: the index of systems by x, and the queries on it.
module Universes {
  import opened RbShape
  import opened RbTree
  import opened SearchOrder
  import opened PtrLists
  import opened CArith

  // (long)sqrt(n), taken exactly.
  function FloorSqrt(n: nat): (r: nat)
    ensures r * r <= n < (r + 1) * (r + 1)
  {
    if n == 0 then 0 else
      var r := FloorSqrt(n - 1);
      if (r + 1) * (r + 1) <= n then r + 1 else r
  }

  function Square(n: int): (s: nat)
    ensures n != 0 ==> s > 0
  {
    SquareAbs(n);
    n * n
  }

  lemma SquareAbs(n: int)
    ensures n * n >= 0 && (n != 0 ==> n * n > 0)
  {
  }

  // The rounded distance is below d exactly when the real one is.
  lemma RootBelow(n: nat, d: nat)
    ensures FloorSqrt(n) < d <==> n < d * d
  {
    var r := FloorSqrt(n);
    if r < d {
      Times(r + 1, d);
    } else {
      Times(d, r);
    }
  }

  lemma Times(a: nat, b: nat)
    requires a <= b
    ensures a * a <= b * b
  {
    assert a * a <= a * b <= b * b;
  }

  // Both coordinates of a near system differ by less than the distance.
  lemma NearInBox(dx: int, dy: int, d: int)
    requires d >= 0 && FloorSqrt(Square(dx) + Square(dy)) < d
    ensures -d < dx < d && -d < dy < d
  {
    RootBelow(Square(dx) + Square(dy), d);
    Inside(dx, Square(dy), d);
    Inside(dy, Square(dx), d);
  }

  lemma Inside(v: int, rest: nat, d: int)
    requires d >= 0 && Square(v) + rest < d * d
    ensures -d < v < d
  {
    assert (-v) * (-v) == v * v;
    if v >= d {
      Times(d, v);
    } else if v <= -d {
      Times(d, -v);
    }
  }

  class System {
    var x: int
    var y: int
    const xRbtree: RbNode
    var owner: Civ?
    var links: seq<System>

    // system_init
    constructor ()
      ensures x == 0 && y == 0 && fresh(xRbtree) && xRbtree.parent == xRbtree && owner == null && links == []
    {
      x, y, owner, links := 0, 0, null, [];
      xRbtree := new RbNode();
    }
  }

  class Civ {
    var home: System?
    var systems: seq<System>
    var borderSystems: seq<System>

    // civ_init
    constructor ()
      ensures home == null && systems == [] && borderSystems == []
    {
      home, systems, borderSystems := null, [], [];
    }
  }

  // system_distance
  function SystemDistance(a: System, b: System): nat
    reads a`x, a`y, b`x, b`y
  {
    FloorSqrt(Square(b.x - a.x) + Square(b.y - a.y))
  }

  // It is the largest whole number that is not above the distance of the two points.
  lemma DistanceBetween(a: System, b: System)
    ensures var r := SystemDistance(a, b);
      r * r <= (b.x - a.x) * (b.x - a.x) + (b.y - a.y) * (b.y - a.y) < (r + 1) * (r + 1)
  {
  }

  // Inside the circle of radius d around a
  predicate InCircle(a: System, b: System, d: int)
    reads a`x, a`y, b`x, b`y
  {
    d > 0 && (b.x - a.x) * (b.x - a.x) + (b.y - a.y) * (b.y - a.y) < d * d
  }

  // So a system is near exactly if it is inside the circle.
  lemma DistanceBelow(a: System, b: System, d: int)
    ensures SystemDistance(a, b) < d <==> InCircle(a, b, d)
    ensures InCircle(a, b, d) <==> d > 0 && (b.x - a.x) * (b.x - a.x) + (b.y - a.y) * (b.y - a.y) < d * d
  {
    if d > 0 {
      RootBelow(Square(b.x - a.x) + Square(b.y - a.y), d);
    }
  }

  lemma ZeroDistance(s: System)
    ensures SystemDistance(s, s) == 0
  {
    var r := FloorSqrt(0);
    assert Square(0) == 0;
  }

  class Universe {
    const xRbtree: RbRoot
    // rb_entry: the system a node is part of.
    var entry: map<RbNode, System>
    ghost var known: set<System>

    // universe_init
    constructor ()
      ensures Valid() && Order() == [] && known == {} && fresh(xRbtree)
    {
      xRbtree := new RbRoot();
      entry, known := map[], {};
    }

    ghost predicate Known()
      reads this
    {
      forall n :: n in entry ==> entry[n] in known && entry[n].xRbtree == n
    }

    ghost function Xs(): Keys
      requires Known()
      reads this, known`x
    {
      map n | n in entry :: entry[n].x
    }

    ghost function Order(): seq<RbNode>
      reads xRbtree
    {
      Inorder(xRbtree.shape)
    }

    // A red-black tree of known systems, in strictly increasing order of their current x.
    ghost predicate Valid()
      reads this, xRbtree, Nodes(xRbtree.shape), known`x
    {
      && xRbtree.Valid() && Known() && Nodes(xRbtree.shape) <= entry.Keys
      && Increasing(Order(), Xs())
    }

    lemma View()
      requires Valid()
      ensures xRbtree.Valid() && xRbtree.Zip(Top, xRbtree.shape) && Known() && Nodes(xRbtree.shape) <= entry.Keys
      ensures Increasing(Inorder(xRbtree.shape), Xs())
      ensures xRbtree.rbNode == Root(xRbtree.shape)
    {
      xRbtree.View(Top, xRbtree.shape);
    }

    // The node at the end of a path down.
    lemma Here(p: Path, t: Tree)
      requires Valid() && xRbtree.Zip(p, t) && Plug(p, t) == xRbtree.shape && t.Node?
      ensures Known() && t.node in entry && t.node in Nodes(xRbtree.shape) && entry[t.node].x == Xs()[t.node]
      ensures entry[t.node] in known && entry[t.node].xRbtree == t.node
      ensures t.node.left == Root(t.left) && t.node.right == Root(t.right)
      ensures (
        var q := Step(t.node, t.color, true, t.right, p);
        xRbtree.Zip(q, t.left) && Plug(q, t.left) == xRbtree.shape && Par(q) == t.node)
      ensures (
        var q := Step(t.node, t.color, false, t.left, p);
        xRbtree.Zip(q, t.right) && Plug(q, t.right) == xRbtree.shape && Par(q) == t.node)
    {
      xRbtree.View(p, t);
      NodesPlug(p, t);
      xRbtree.Up(Step(t.node, t.color, true, t.right, p), t.left);
      xRbtree.Up(Step(t.node, t.color, false, t.left, p), t.right);
    }

    // get_system_at_x
    method GetSystemAtX(x: int) returns (s: System?)
      requires Valid()
      ensures Valid() && forall z :: Occupants(z) == old(Occupants(z))
      ensures s == null ==> Absent(Order(), Xs(), x)
      ensures s != null ==> s.xRbtree in Nodes(xRbtree.shape) && s.xRbtree in entry && entry[s.xRbtree] == s && s.x == x
    {
      hide *;
      View();
      ghost var p, t := Top, xRbtree.shape;
      Start(t, Xs(), x);
      var node := xRbtree.rbNode;
      while node != null
        invariant Known() && xRbtree.Zip(p, t) && Plug(p, t) == xRbtree.shape && node == Root(t)
        invariant Narrowed(p, Xs(), x)
        decreases t
      {
        RootView(t);
        Here(p, t);
        GoLeft(p, t, Xs(), x);
        GoRight(p, t, Xs(), x);
        var system := entry[node];
        if x < system.x {
          node := node.left;
          p, t := Step(t.node, t.color, true, t.right, p), t.left;
        } else if x > system.x {
          node := node.right;
          p, t := Step(t.node, t.color, false, t.left, p), t.right;
        } else {
          return system;
        }
      }
      RootView(t);
      NarrowedToNothing(p, Xs(), x);
      s := null;
      OrderIs();
    }

    // The loop of insert_system_into_rbtree: the link to fill. Its callers have looked up s.x
    // before, so bug() is not reached.
    method FindLink(s: System) returns (parent: RbNode?, left: bool, ghost p: Path)
      requires Valid() && s.xRbtree in entry && entry[s.xRbtree] == s && Absent(Order(), Xs(), s.x)
      ensures Known() && xRbtree.Zip(p, Leaf) && Plug(p, Leaf) == xRbtree.shape && Narrowed(p, Xs(), s.x)
      ensures parent == Par(p) && (p.Step? ==> left == p.holeLeft)
    {
      hide *;
      View();
      OrderIs();
      ghost var t := xRbtree.shape;
      Start(t, Xs(), s.x);
      var link := xRbtree.rbNode;
      parent, left, p := null, true, Top;
      while link != null
        invariant Known() && xRbtree.Zip(p, t) && Plug(p, t) == xRbtree.shape && link == Root(t)
        invariant Narrowed(p, Xs(), s.x) && parent == Par(p) && (p.Step? ==> left == p.holeLeft)
        decreases t
      {
        RootView(t);
        Here(p, t);
        GoLeft(p, t, Xs(), s.x);
        GoRight(p, t, Xs(), s.x);
        SameX(p, t, Xs(), s.x);
        parent := link;
        var system := entry[link];
        if s.x < system.x {
          link, left := link.left, true;
          p, t := Step(t.node, t.color, true, t.right, p), t.left;
        } else if s.x > system.x {
          link, left := link.right, false;
          p, t := Step(t.node, t.color, false, t.left, p), t.right;
        } else {
          assert false;
        }
      }
      RootView(t);
    }

    // insert_system_into_rbtree
    method InsertSystemIntoRbtree(s: System)
      requires Valid() && s.xRbtree in entry && entry[s.xRbtree] == s && s.xRbtree !in Nodes(xRbtree.shape)
      requires Absent(Order(), Xs(), s.x)
      modifies xRbtree, Nodes(xRbtree.shape), s.xRbtree
      ensures Valid() && Nodes(xRbtree.shape) == old(Nodes(xRbtree.shape)) + {s.xRbtree}
    {
      hide *;
      ghost var p;
      var parent, left;
      View();
      parent, left, p := FindLink(s);
      EntryX(s);
      Hole(p, s.xRbtree);
      InsertedIncreasing(p, s.xRbtree, Xs());
      xRbtree.LinkNode(s.xRbtree, parent, left, p);
      xRbtree.InsertColor(s.xRbtree, p);
      OrderIs();
      IntoValid();
    }

    lemma EntryX(s: System)
      requires Known() && s.xRbtree in entry && entry[s.xRbtree] == s
      ensures s in known && s.xRbtree in Xs() && Xs()[s.xRbtree] == s.x
    {
    }

    lemma Hole(p: Path, n: RbNode)
      requires Valid() && Plug(p, Leaf) == xRbtree.shape && n !in Nodes(xRbtree.shape)
      ensures PathNodes(p) == Nodes(xRbtree.shape) && ValidRB(Plug(p, Leaf)) && n !in PathNodes(p)
      ensures Increasing(Inorder(Plug(p, Leaf)), Xs())
    {
      NodesPlug(p, Leaf);
    }

    // The indexed systems at x: none or one.
    ghost function Occupants(x: int): set<RbNode>
      requires Valid()
      reads this, xRbtree, Nodes(xRbtree.shape), known`x
    {
      set n | n in Nodes(xRbtree.shape) && entry[n].x == x
    }

    lemma OccupantsAre(x: int, s: System?)
      requires Valid()
      requires s == null ==> Absent(Order(), Xs(), x)
      requires s != null ==> s.xRbtree in Nodes(xRbtree.shape) && s.xRbtree in entry && entry[s.xRbtree] == s && s.x == x
      ensures Occupants(x) == if s == null then {} else {s.xRbtree}
      ensures s == null <==> Absent(Order(), Xs(), x)
    {
      forall n | n in Nodes(xRbtree.shape)
        ensures n in Order() && Xs()[n] == entry[n].x
      {
        InorderNodes(xRbtree.shape, n);
      }
      if s != null {
        forall n | n in Occupants(x)
          ensures n == s.xRbtree
        {
          var i :| 0 <= i < |Order()| && Order()[i] == n;
          var j :| 0 <= j < |Order()| && Order()[j] == s.xRbtree;
          IncreasingDistinct(Order(), Xs(), i, j);
        }
      }
    }

    // rb_erase on an indexed system
    method Unindex(prev: System)
      requires Valid() && prev.xRbtree in Nodes(xRbtree.shape)
      modifies xRbtree, Nodes(xRbtree.shape)
      ensures Valid() && Nodes(xRbtree.shape) == old(Nodes(xRbtree.shape)) - {prev.xRbtree}
      ensures forall n :: n in Order() ==> n in old(Order())
    {
      hide *;
      View();
      OrderIs();
      ghost var s := Inorder(xRbtree.shape);
      WithoutIncreasing(s, prev.xRbtree, Xs());
      WithoutSubset(s, prev.xRbtree);
      xRbtree.Erase(prev.xRbtree);
      OrderIs();
      assert Order() == Without(s, prev.xRbtree);
      IntoValid();
    }

    // Setting the position of a system that is not in the tree.
    method SetPosition(s: System, x: int, y: int)
      requires Valid() && s.xRbtree in entry && entry[s.xRbtree] == s && s.xRbtree !in Nodes(xRbtree.shape)
      requires Absent(Order(), Xs(), x)
      modifies s`x, s`y
      ensures Valid() && s.x == x && s.y == y && Absent(Order(), Xs(), x)
    {
      ghost var key := Xs();
      forall n | n in Order()
        ensures n != s.xRbtree
      {
        InorderNodes(xRbtree.shape, n);
      }
      s.x, s.y := x, y;
      assert xRbtree.Valid();
      assert Xs() == key[s.xRbtree := x];
      hide Xs;
      IncreasingSame(Order(), key, Xs());
    }

    // system_move
    method SystemMove(s: System, x: int, y: int) returns (r: int)
      requires Valid() && s.xRbtree in entry && entry[s.xRbtree] == s
      modifies s`x, s`y, xRbtree, Nodes(xRbtree.shape), s.xRbtree
      ensures Valid() && r == (if old(Occupants(x)) != {} then 1 else 0)
      ensures r == 1 ==> s.x == old(s.x) && s.y == old(s.y) && unchanged(xRbtree)
      ensures r == 0 ==> s.x == x && s.y == y
      ensures r == 0 ==> Nodes(xRbtree.shape) == old(Nodes(xRbtree.shape)) - old(Occupants(s.x)) + {s.xRbtree}
      ensures r == 0 ==>
        (old(Nodes(xRbtree.shape)) - {s.xRbtree} <= Nodes(xRbtree.shape) <==> old(Occupants(s.x)) <= {s.xRbtree})
    {
      hide *;
      var prev := GetSystemAtX(x);
      OccupantsAre(x, prev);
      if prev != null {
        return 1;
      }
      prev := GetSystemAtX(s.x);
      OccupantsAre(s.x, prev);
      OwnPlace(s);
      if prev != null {
        Unindex(prev);
        View();
        FewerAbsent(old(Order()), Order(), Xs(), x);
      }
      OccupantsIndexed(old(s.x));
      SetPosition(s, x, y);
      InsertSystemIntoRbtree(s);
      r := 0;
    }

    lemma EmptyIndex()
      requires Valid() && Order() == []
      ensures Nodes(xRbtree.shape) == {}
    {
      if xRbtree.shape.Node? {
        InorderNodes(xRbtree.shape, xRbtree.shape.node);
      }
    }

    lemma OneOccupant(x: int, a: System?)
      requires Valid() && Nodes(xRbtree.shape) == if a == null then {} else {a.xRbtree}
      requires a != null ==> a.xRbtree in entry && entry[a.xRbtree] == a
      ensures Occupants(x) == if a != null && a.x == x then {a.xRbtree} else {}
    {
    }

    twostate lemma OccupantsIndexed(x: int)
      requires old(Valid())
      ensures old(Occupants(x)) <= old(Nodes(xRbtree.shape))
    {
    }

    // A new system, zeroed by system_init, is not in the tree.
    method NewSystem() returns (s: System)
      requires Valid()
      modifies this`entry, this`known
      ensures Valid() && Order() == old(Order()) && Nodes(xRbtree.shape) == old(Nodes(xRbtree.shape))
      ensures fresh(s) && fresh(s.xRbtree) && s.x == 0 && s.xRbtree !in Nodes(xRbtree.shape)
      ensures s.owner == null && s.links == []
      ensures entry == old(entry)[s.xRbtree := s]
    {
      s := new System();
      ghost var key := Xs();
      entry, known := entry[s.xRbtree := s], known + {s};
      assert xRbtree.Valid();
      assert Xs() == key[s.xRbtree := 0];
      hide Xs;
      forall n | n in Order()
        ensures n in Nodes(xRbtree.shape)
      {
        InorderNodes(xRbtree.shape, n);
      }
      IncreasingSame(Order(), key, Xs());
    }

    // An indexed system is the occupant of its own x.
    lemma OwnPlace(s: System)
      requires Valid() && s.xRbtree in entry && entry[s.xRbtree] == s
      ensures s.xRbtree in Nodes(xRbtree.shape) ==> s.xRbtree in Occupants(s.x)
    {
    }

    // get_first_system_after_x: the first system from x on, or else the last one before it;
    // k is its place.
    method GetFirstSystemAfterX(x: int) returns (s: System?, ghost k: nat)
      requires Valid()
      ensures Valid() && (s == null <==> Order() == [])
      ensures s != null ==> k < |Order()| && Order()[k] == s.xRbtree && s.xRbtree in entry && entry[s.xRbtree] == s
      ensures s != null ==> AllBelow(Order()[..k], Xs(), x) && (s.x < x ==> AllAbove(Order()[k + 1..], Xs(), x))
    {
      hide *;
      View();
      OrderIs();
      ghost var p, t := Top, xRbtree.shape;
      Start(t, Xs(), x);
      var parent: RbNode?, node := null, xRbtree.rbNode;
      while node != null
        invariant Known() && xRbtree.Zip(p, t) && Plug(p, t) == xRbtree.shape && node == Root(t)
        invariant Narrowed(p, Xs(), x) && parent == Par(p)
        decreases t
      {
        RootView(t);
        Here(p, t);
        GoLeft(p, t, Xs(), x);
        GoRight(p, t, Xs(), x);
        parent := node;
        var system := entry[node];
        if x < system.x {
          node := node.left;
          p, t := Step(t.node, t.color, true, t.right, p), t.left;
        } else if x > system.x {
          node := node.right;
          p, t := Step(t.node, t.color, false, t.left, p), t.right;
        } else {
          FoundAt(p, t, Xs());
          return system, |Before(p) + Inorder(t.left)|;
        }
      }
      RootView(t);
      if parent == null {
        EmptyHole(p);
        return null, 0;
      }
      HoleEnds(p, Xs(), x);
      ParentHere(p);
      s, k := entry[parent], PlaceOfParent(p);
    }

    // Who a brute-force scan of all known systems would pick.
    ghost function Near(origin: System, d: int): set<RbNode>
      requires Known()
      reads this, known`x, known`y, origin`x, origin`y
    {
      set n | n in entry && SystemDistance(origin, entry[n]) < d
    }

    // Outside the band of x nobody is near.
    lemma FarX(origin: System, d: int, n: RbNode)
      requires Known() && n in entry
      ensures n in Near(origin, d) ==> (
        && origin.x - d < entry[n].x < origin.x + d && origin.y - d < entry[n].y < origin.y + d
        && d > 0)
    {
      if n in Near(origin, d) {
        NearInBox(entry[n].x - origin.x, entry[n].y - origin.y, d);
      }
    }

    // The test of the loop in get_neighbouring_systems, unsigned comparison and all.
    predicate InReach(origin: System, d: int, system: System)
      reads origin`x, origin`y, system`x, system`y
    {
      && system.y >= origin.y - d && system.y <= origin.y + d
      && SystemDistance(origin, system) < ToUnsigned(d)
    }

    lemma ReachIsNear(origin: System, d: int, n: RbNode)
      requires Known() && n in entry
      ensures InReach(origin, d, entry[n]) <==> n in Near(origin, d)
    {
      FarX(origin, d, n);
    }

    lemma FarBefore(origin: System, d: int, k: nat)
      requires Valid() && k <= |Order()| && AllBelow(Order()[..k], Xs(), origin.x - d)
      ensures Picked(Order()[..k], Near(origin, d)) == []
    {
      forall i | 0 <= i < k
        ensures Order()[..k][i] !in Near(origin, d)
      {
        FarX(origin, d, Order()[i]);
      }
      PickedNothing(Order()[..k], Near(origin, d));
    }

    lemma FarAfter(origin: System, d: int, k: nat)
      requires Valid() && k <= |Order()| && (k < |Order()| ==> Xs()[Order()[k]] > origin.x + d)
      ensures Picked(Order()[..k], Near(origin, d)) == Picked(Order(), Near(origin, d))
    {
      forall i | k <= i < |Order()|
        ensures Order()[i] !in Near(origin, d)
      {
        FarX(origin, d, Order()[i]);
      }
      PickedNone(Order(), k, Near(origin, d));
    }

    // get_neighbouring_systems: the systems a brute-force scan would pick, each once and in
    // increasing x, are counted and pushed to the list, if there is one.
    method GetNeighbouringSystems(neighbours: PtrList?, origin: System, maxDistance: int)
      returns (neighbourCount: nat, ghost found: seq<RbNode>)
      requires Valid() && ListValid(neighbours)
      modifies Cells(neighbours)
      ensures Valid() && Order() == old(Order()) && Near(origin, maxDistance) == old(Near(origin, maxDistance))
      ensures found == Picked(Order(), Near(origin, maxDistance)) && neighbourCount == |found|
      ensures ListValid(neighbours) && fresh(Cells(neighbours) - old(Cells(neighbours)))
      ensures neighbours != null ==> Extends(neighbours, old(neighbours.nodes), found)
    {
      hide Valid, Known, Near, Picked, Increasing, Order, Xs, Extends, Entry, ListValid, AllBelow, AllAbove;
      View();
      var minX, maxX := origin.x - maxDistance, origin.x + maxDistance;
      var system, k := GetFirstSystemAfterX(minX);
      var node: RbNode? := if system == null then null else system.xRbtree;
      neighbourCount, found := 0, [];
      View();
      FirstPlace(origin, maxDistance, node, k);
      ExtendsNothing(neighbours);
      k := if node == null then 0 else k;
      while node != null && entry[node].x <= maxX
        invariant Valid() && Order() == old(Order()) && Near(origin, maxDistance) == old(Near(origin, maxDistance))
        invariant k <= |Order()| && node == Entry(Order(), k) && (node != null ==> node in entry)
        invariant found == Picked(Order()[..k], Near(origin, maxDistance)) && neighbourCount == |found|
        invariant ListValid(neighbours) && fresh(Cells(neighbours) - old(Cells(neighbours)))
        invariant neighbours != null ==> Extends(neighbours, old(neighbours.nodes), found)
        decreases |Order()| - k
      {
        var hit;
        hit, node, found := VisitNode(neighbours, origin, maxDistance, node,
                                      old(if neighbours == null then [] else neighbours.nodes), found, k);
        k := k + 1;
        neighbourCount := if hit then neighbourCount + 1 else neighbourCount;
        View();
      }
      AtEnd(origin, maxDistance, node, k);
    }

    // One turn of its loop.
    method VisitNode(neighbours: PtrList?, origin: System, d: int, node: RbNode, ghost before: seq<PtrList>,
                     ghost found: seq<RbNode>, ghost k: nat)
      returns (hit: bool, next: RbNode?, ghost found': seq<RbNode>)
      requires Valid() && ListValid(neighbours) && node in entry && k <= |Order()| && node == Entry(Order(), k)
      requires found == Picked(Order()[..k], Near(origin, d))
      requires neighbours != null ==> Extends(neighbours, before, found)
      modifies Cells(neighbours)
      ensures Valid() && Order() == old(Order()) && Near(origin, d) == old(Near(origin, d))
      ensures k < |Order()| && next == Entry(Order(), k + 1) && (next != null ==> next in entry)
      ensures found' == Picked(Order()[..k + 1], Near(origin, d)) && |found'| == |found| + if hit then 1 else 0
      ensures ListValid(neighbours) && fresh(Cells(neighbours) - old(Cells(neighbours)))
      ensures neighbours != null ==> Extends(neighbours, before, found')
    {
      hide Valid, Known, Near, InReach, Picked, Increasing, Order, Xs, Extends, Entry, ListValid, AllBelow, AllAbove;
      View();
      EntryView(Order(), k);
      ReachIsNear(origin, d, node);
      PickedNext(Order(), k, Near(origin, d));
      hit := InReach(origin, d, entry[node]);
      found' := found;
      if hit {
        PushFound(neighbours, node, before, found, origin, d);
        found' := found + [node];
      }
      next := NextNode(node, k);
    }

    // rb_next on an indexed node
    method NextNode(node: RbNode, ghost k: nat) returns (n: RbNode?)
      requires Valid() && k < |Order()| && Order()[k] == node
      ensures Valid() && n == Entry(Order(), k + 1) && (n != null ==> n in entry)
    {
      hide *;
      View();
      OrderIs();
      InorderNodes(xRbtree.shape, node);
      n := xRbtree.Next(node);
      NextAt(Order(), Xs(), k, n);
      EntryView(Order(), k + 1);
      if n != null {
        InorderNodes(xRbtree.shape, n);
      }
    }

    // Nothing near comes before the first place, and nothing after the last.
    lemma FirstPlace(origin: System, d: int, node: RbNode?, k: nat)
      requires Valid()
      requires if node == null then Order() == [] else
        k < |Order()| && Order()[k] == node && AllBelow(Order()[..k], Xs(), origin.x - d)
      ensures (
        var i := if node == null then 0 else k;
        i <= |Order()| && node == Entry(Order(), i) && Picked(Order()[..i], Near(origin, d)) == [])
      ensures node != null ==> node in entry
    {
      if node != null {
        InorderNodes(xRbtree.shape, node);
        FarBefore(origin, d, k);
      }
    }

    lemma AtEnd(origin: System, d: int, node: RbNode?, k: nat)
      requires Valid() && k <= |Order()| && node == Entry(Order(), k)
      requires node != null ==> node in entry && entry[node].x > origin.x + d
      ensures Picked(Order()[..k], Near(origin, d)) == Picked(Order(), Near(origin, d))
    {
      FarAfter(origin, d, k);
    }

    lemma ExtendsNothing(l: PtrList?)
      ensures l != null ==> Extends(l, l.nodes, [])
    {
    }

    method PushFound(neighbours: PtrList?, node: RbNode, ghost before: seq<PtrList>, ghost found: seq<RbNode>,
                     ghost origin: System, ghost d: int)
      requires Valid() && ListValid(neighbours) && node in entry
      requires neighbours != null ==> Extends(neighbours, before, found)
      modifies Cells(neighbours)
      ensures ListValid(neighbours) && fresh(Cells(neighbours) - old(Cells(neighbours)))
      ensures neighbours != null ==> Extends(neighbours, before, found + [node])
      ensures Valid() && Order() == old(Order())
      ensures Near(origin, d) == old(Near(origin, d))
    {
      hide Valid, Order, Near;
      View();
      if neighbours != null {
        neighbours.Push(entry[node]);
      }
      View();
    }

    // The list goes on from where it was with the systems of these nodes.
    ghost predicate Extends(l: PtrList, before: seq<PtrList>, found: seq<RbNode>)
      reads this, l, l.nodes
    {
      && |l.nodes| == |before| + |found| && l.nodes[..|before|] == before
      && forall i :: 0 <= i < |found| ==> found[i] in entry && l.nodes[|before| + i].data == entry[found[i]]
    }

    // What the list of found systems means.
    lemma FoundNear(origin: System, d: int)
      requires Valid()
      ensures Increasing(Picked(Order(), Near(origin, d)), Xs())
      ensures forall n :: n in Picked(Order(), Near(origin, d)) <==>
        n in Nodes(xRbtree.shape) && SystemDistance(origin, entry[n]) < d
    {
      hide Picked, Increasing, SystemDistance;
      PickedIs(Order(), Near(origin, d), Xs());
      forall n
        ensures n in Order() <==> n in Nodes(xRbtree.shape)
      {
        InorderNodes(xRbtree.shape, n);
      }
    }

    // The systems found are the indexed ones inside the circle, in increasing x.
    lemma FoundAre(origin: System, d: int)
      requires Valid()
      ensures Increasing(Picked(Order(), Near(origin, d)), Xs())
      ensures forall n :: n in Picked(Order(), Near(origin, d)) <==>
        n in Nodes(xRbtree.shape) && InCircle(origin, entry[n], d)
    {
      FoundNear(origin, d);
      hide Picked, Increasing, SystemDistance, Near, Order, InCircle;
      forall n | n in Nodes(xRbtree.shape)
        ensures SystemDistance(origin, entry[n]) < d <==> InCircle(origin, entry[n], d)
      {
        DistanceBelow(origin, entry[n], d);
      }
    }

    // A list of neighbours, read entry by entry.
    method Neighbours(origin: System, maxDistance: int) returns (s: seq<System>)
      requires Valid() && origin in known
      ensures Valid() && s == old(Found(origin, maxDistance))
      ensures forall o: System, d: int :: o in known ==> Found(o, d) == old(Found(o, d))
    {
      hide Increasing, Order, Near, Picked, Systems;
      s := NeighbourList(origin, maxDistance);
    }

    method NeighbourList(origin: System, maxDistance: int) returns (s: seq<System>)
      requires Valid()
      ensures Valid() && s == Found(origin, maxDistance)
    {
      hide Valid, Near, Picked, Order, Xs, Extends;
      View();
      var l := new PtrList();
      ExtendsNothing(l);
      NewList(l);
      var count, found := GetNeighbouringSystems(l, origin, maxDistance);
      ListEntries(l, found);
      s := ReadList(l, Found(origin, maxDistance));
    }

    ghost function Found(origin: System, d: int): seq<System>
      requires Valid()
      reads this, xRbtree, Nodes(xRbtree.shape), known`x, known`y, origin`x, origin`y
    {
      FoundIn(origin, d);
      Systems(Picked(Order(), Near(origin, d)))
    }

    ghost predicate SystemIn(s: System)
      reads this, xRbtree
    {
      s.xRbtree in Nodes(xRbtree.shape) && s.xRbtree in entry && entry[s.xRbtree] == s
    }

    lemma FoundSystems(origin: System, d: int)
      requires Valid()
      ensures forall s :: s in Found(origin, d) ==> SystemIn(s) && SystemDistance(origin, s) < d
      ensures forall n :: n in Nodes(xRbtree.shape) && SystemDistance(origin, entry[n]) < d ==> entry[n] in Found(origin, d)
    {
      FoundNear(origin, d);
      View();
      var l := Picked(Order(), Near(origin, d));
      hide Picked, Near, Order, Increasing, SystemDistance, Valid;
      forall n | n in Nodes(xRbtree.shape) && SystemDistance(origin, entry[n]) < d
        ensures entry[n] in Found(origin, d)
      {
        var i :| 0 <= i < |l| && l[i] == n;
        assert Found(origin, d)[i] == entry[n];
      }
      forall s | s in Found(origin, d)
        ensures SystemIn(s) && SystemDistance(origin, s) < d
      {
        var i :| 0 <= i < |l| && Found(origin, d)[i] == s;
        assert l[i] in l;
      }
    }

    lemma FoundIn(origin: System, d: int)
      requires Valid()
      ensures forall n :: n in Picked(Order(), Near(origin, d)) ==> n in entry
    {
      FoundNear(origin, d);
    }

    function Systems(found: seq<RbNode>): seq<System>
      requires forall n :: n in found ==> n in entry
      reads this
    {
      var e := entry;
      seq(|found|, i requires 0 <= i < |found| => e[found[i]])
    }

    lemma ListEntries(l: PtrList, found: seq<RbNode>)
      requires Extends(l, [], found)
      ensures |l.nodes| == |found| && forall i :: 0 <= i < |found| ==> found[i] in entry && l.nodes[i].data == entry[found[i]]
    {
    }

    function Distances(origin: System): map<object?, nat>
      reads this, known`x, known`y, origin`x, origin`y
      requires Known()
    {
      map n | n in entry :: entry[n] := SystemDistance(origin, entry[n])
    }

    // The start of get_neighbouring_ports: the near systems and the origin ...
    method ListNeighbours(origin: System, maxDistance: int) returns (systems: PtrList, ghost found: seq<RbNode>)
      requires Valid()
      ensures fresh(systems) && fresh(SetOf(systems.nodes)) && systems.Valid() && Valid()
      ensures found == Picked(Order(), Near(origin, maxDistance)) && AreListed(systems.nodes, found, origin)
    {
      hide Valid, Near, Picked, Order, Xs, Extends, AreListed;
      View();
      systems := new PtrList();
      ExtendsNothing(systems);
      NewList(systems);
      var count;
      count, found := GetNeighbouringSystems(systems, origin, maxDistance);
      PushOrigin(systems, origin, found);
    }

    // ... closest first, if the distances fit an int. `listed` are the entries before the sort.
    method NeighboursByDistance(origin: System, maxDistance: int)
      returns (systems: PtrList, ghost found: seq<RbNode>, ghost listed: seq<PtrList>)
      requires Valid()
      ensures fresh(systems) && systems.Valid() && Valid()
      ensures found == Picked(Order(), Near(origin, maxDistance))
      ensures multiset(systems.nodes) == multiset(listed) && AreListed(listed, found, origin)
      ensures maxDistance <= 0x8000_0000 ==> CloserFirst(systems.nodes, Distances(origin), origin)
    {
      hide Valid, Near, Picked, Order, Xs, AreListed, CloserFirst, Cmp, Small, SystemDistance, Distances;
      systems, found := ListNeighbours(origin, maxDistance);
      View();
      listed := systems.nodes;
      AllFit(listed, found, origin, maxDistance);
      var dist := Distances(origin);
      SortByDistance(systems, dist, origin, Cmp(dist, origin));
      View();
    }

    lemma ListedAre(listed: seq<PtrList>, found: seq<RbNode>, origin: System, x: PtrList) returns (i: nat)
      requires AreListed(listed, found, origin) && x in DataOf(listed)
      ensures DataOf(listed)[x] != origin ==> i < |found| && found[i] in entry && DataOf(listed)[x] == entry[found[i]]
    {
      i :| 0 <= i < |listed| && listed[i] == x;
    }

    // Found systems are closer than the limit.
    lemma AllFit(listed: seq<PtrList>, found: seq<RbNode>, origin: System, d: int)
      requires Valid() && found == Picked(Order(), Near(origin, d)) && AreListed(listed, found, origin)
      ensures Known() && (d <= 0x8000_0000 ==> Small(DataOf(listed), Distances(origin), origin))
    {
      hide *;
      View();
      FoundNear(origin, d);
      forall x | x in DataOf(listed)
        ensures DataOf(listed)[x] == origin || DistanceOf(Distances(origin), DataOf(listed)[x]) < d
      {
        var i := ListedAre(listed, found, origin, x);
        if DataOf(listed)[x] != origin {
          assert found[i] in found;
          DistanceIs(origin, found[i]);
        }
      }
      IntoSmall(DataOf(listed), Distances(origin), origin, d);
    }

    lemma DistanceIs(origin: System, n: RbNode)
      requires Known() && n in entry
      ensures DistanceOf(Distances(origin), entry[n]) == SystemDistance(origin, entry[n])
    {
      hide SystemDistance;
      assert (entry[n] as object?) in Distances(origin);
    }

    method PushOrigin(systems: PtrList, origin: System, ghost found: seq<RbNode>)
      requires Valid() && systems.Valid() && Extends(systems, [], found)
      modifies Cells(systems)
      ensures systems.Valid() && fresh(Cells(systems) - old(Cells(systems))) && AreListed(systems.nodes, found, origin)
      ensures forall d :: Near(origin, d) == old(Near(origin, d))
      ensures Valid() && Order() == old(Order())
    {
      hide Valid, Order, Near;
      View();
      systems.Push(origin);
      View();
    }

    ghost predicate AreListed(listed: seq<PtrList>, found: seq<RbNode>, origin: System)
      reads this, SetOf(listed)`data
    {
      && |listed| == |found| + 1 && listed[|found|].data == origin
      && forall i :: 0 <= i < |found| ==> found[i] in entry && listed[i].data == entry[found[i]]
    }

    // The origin is listed a second time, exactly if it is indexed and the distance allows any system.
    lemma OriginTwice(origin: System, d: int, found: seq<RbNode>, listed: seq<PtrList>)
      requires Valid() && found == Picked(Order(), Near(origin, d)) && AreListed(listed, found, origin)
      ensures (exists i :: 0 <= i < |listed| - 1 && listed[i].data == origin) <==> SystemIn(origin) && d > 0
    {
      FoundNear(origin, d);
      View();
      ZeroDistance(origin);
      hide Picked, Near, Order, Increasing, SystemDistance, Valid;
      if SystemIn(origin) && d > 0 {
        assert origin.xRbtree in found;
        var i :| 0 <= i < |found| && found[i] == origin.xRbtree;
        assert listed[i].data == origin;
      }
      forall i | 0 <= i < |listed| - 1 && listed[i].data == origin
        ensures SystemIn(origin) && d > 0
      {
        assert found[i] in found && entry[found[i]] == origin;
      }
    }

    lemma ParentHere(p: Path)
      requires Valid() && Plug(p, Leaf) == xRbtree.shape && p.Step?
      ensures p.node in entry && entry[p.node] in known && entry[p.node].xRbtree == p.node && Xs()[p.node] == entry[p.node].x
    {
      NodesPlug(p, Leaf);
    }

    lemma IntoValid()
      requires xRbtree.Valid() && Known() && Nodes(xRbtree.shape) <= entry.Keys && Increasing(Order(), Xs())
      ensures Valid()
    {
    }

    lemma OrderIs()
      ensures Order() == Inorder(xRbtree.shape)
    {
    }
  }

  lemma RootView(t: Tree)
    ensures Root(t) == null <==> t == Leaf
    ensures Root(t) != null ==> t.Node? && Root(t) == t.node
  {
  }

  // cmp_system_distances, with the distances from the origin given.
  function CmpSystemDistances(dist: map<object?, nat>, origin: System, a: object?, b: object?): int {
    if a == origin then -1
    else if b == origin then 1
    else ToInt(DistanceOf(dist, a) - DistanceOf(dist, b))
  }

  function DistanceOf(dist: map<object?, nat>, a: object?): nat {
    if a in dist then dist[a] else 0
  }

  // Its sign is right for every difference that fits an int, for none up to twice as large, and for
  // a larger one exactly if its low 32 bits happen to read as an int of that sign.
  lemma SignKept(d: int)
    ensures -0x8000_0000 <= d < 0x8000_0000 ==> RightSign(d)
    ensures -0x1_0000_0000 <= d < -0x8000_0000 || 0x8000_0000 <= d <= 0x1_0000_0000 ==> !RightSign(d)
    ensures RightSign(d) <==>
      d == 0 || if d > 0 then 0 < d % 0x1_0000_0000 < 0x8000_0000 else d % 0x1_0000_0000 >= 0x8000_0000
  {
  }

  predicate RightSign(d: int) {
    (ToInt(d) > 0 <==> d > 0) && (ToInt(d) < 0 <==> d < 0)
  }

  // A system 2147483648 further away compares as closer.
  lemma FarComparesCloser(dist: map<object?, nat>, origin: System, a: System, b: System)
    requires a != origin && b != origin && a in dist && b in dist && dist[a] == dist[b] + 0x8000_0000
    ensures CmpSystemDistances(dist, origin, a, b) < 0
  {
  }

  // Origin entries come first, then the others by distance.
  ghost predicate CloserFirst(s: seq<PtrList>, dist: map<object?, nat>, origin: System)
    reads s
  {
    forall i, j :: 0 <= i < j < |s| ==>
      s[i].data == origin || (s[j].data != origin && DistanceOf(dist, s[i].data) <= DistanceOf(dist, s[j].data))
  }

  function Cmp(dist: map<object?, nat>, origin: System): (object?, object?) -> int {
    (a, b) => CmpSystemDistances(dist, origin, a, b)
  }

  // All distances are ints.
  ghost predicate Small(d: map<PtrList, object?>, dist: map<object?, nat>, origin: System) {
    forall x :: x in d ==> d[x] == origin || DistanceOf(dist, d[x]) < 0x8000_0000
  }

  lemma IntoSmall(d: map<PtrList, object?>, dist: map<object?, nat>, origin: System, limit: int)
    requires forall x :: x in d ==> d[x] == origin || DistanceOf(dist, d[x]) < limit
    ensures limit <= 0x8000_0000 ==> Small(d, dist, origin)
  {
  }

  lemma SmallCompare(dist: map<object?, nat>, origin: System, a: object?, b: object?)
    requires a == origin || DistanceOf(dist, a) < 0x8000_0000
    requires b == origin || DistanceOf(dist, b) < 0x8000_0000
    ensures Cmp(dist, origin)(a, b) <= 0 <==> a == origin || (b != origin && DistanceOf(dist, a) <= DistanceOf(dist, b))
  {
  }

  lemma SmallPreorder(d: map<PtrList, object?>, dist: map<object?, nat>, origin: System)
    requires Small(d, dist, origin)
    ensures CmpPreorder(d, Cmp(dist, origin))
  {
    forall x, y | x in d && y in d
      ensures Cmp(dist, origin)(d[x], d[y]) <= 0 <==>
        d[x] == origin || (d[y] != origin && DistanceOf(dist, d[x]) <= DistanceOf(dist, d[y]))
    {
      SmallCompare(dist, origin, d[x], d[y]);
    }
    hide Cmp, DistanceOf;
  }

  // The call of ptrlist_sort in get_neighbouring_ports
  method SortByDistance(systems: PtrList, ghost dist: map<object?, nat>, origin: System, cmp: (object?, object?) -> int)
    requires systems.Valid() && cmp == Cmp(dist, origin)
    modifies systems`next, systems`prev, systems`nodes, SetOf(systems.nodes)`next, SetOf(systems.nodes)`prev
    ensures systems.Valid() && multiset(systems.nodes) == multiset(old(systems.nodes))
    ensures Small(old(DataOf(systems.nodes)), dist, origin) ==> CloserFirst(systems.nodes, dist, origin)
  {
    hide Cmp, CmpPreorder, DistanceOf, Circular, Small, CloserFirst;
    ghost var s, d := systems.nodes, DataOf(systems.nodes);
    systems.Sort(cmp);
    SameElements(s, systems.nodes);
    if Small(d, dist, origin) {
      SmallPreorder(d, dist, origin);
      SameData(s, systems.nodes);
      SortedIsCloser(systems.nodes, d, dist, origin);
    }
  }

  lemma SameData(s: seq<PtrList>, t: seq<PtrList>)
    requires SetOf(s) == SetOf(t)
    ensures DataOf(s) == DataOf(t)
  {
  }

  lemma SortedIsCloser(s: seq<PtrList>, d: map<PtrList, object?>, dist: map<object?, nat>, origin: System)
    requires Small(d, dist, origin) && DataOf(s) == d
    requires forall i, j :: 0 <= i < j < |s| ==> Cmp(dist, origin)(s[i].data, s[j].data) <= 0
    ensures CloserFirst(s, dist, origin)
  {
    hide Cmp, DistanceOf;
    forall i, j | 0 <= i < j < |s|
      ensures s[i].data == origin
        || (s[j].data != origin && DistanceOf(dist, s[i].data) <= DistanceOf(dist, s[j].data))
    {
      assert d[s[i]] == s[i].data && d[s[j]] == s[j].data;
      SmallCompare(dist, origin, s[i].data, s[j].data);
    }
  }

  method ReadList(l: PtrList, ghost want: seq<System>) returns (s: seq<System>)
    requires l.Valid() && |want| == |l.nodes| && forall i :: 0 <= i < |want| ==> l.nodes[i].data == want[i]
    ensures s == want
  {
    hide Circular;
    s := [];
    while |s| < l.len
      invariant l.Valid() && |s| <= |want| && s == want[..|s|]
    {
      var e := l.Get(|s|);
      s := s + [e.data as System];
    }
  }

  ghost predicate ListValid(l: PtrList?)
    reads l, if l == null then [] else l.nodes
  {
    l != null ==> l.Valid()
  }

  // The list and its entries.
  ghost function Cells(l: PtrList?): set<PtrList>
    reads l
  {
    if l == null then {} else {l} + SetOf(l.nodes)
  }

  function Entry(s: seq<RbNode>, k: nat): RbNode? {
    if k < |s| then s[k] else null
  }

  lemma EntryView(s: seq<RbNode>, k: nat)
    ensures Entry(s, k) == if k < |s| then s[k] else null
    ensures Entry(s, k) != null ==> Entry(s, k) in s
  {
  }

  lemma NewList(l: PtrList)
    requires l.Valid() && l.nodes == []
    ensures ListValid(l) && Cells(l) == {l}
  {
  }

  lemma EmptyHole(p: Path)
    requires Par(p) == null
    ensures Inorder(Plug(p, Leaf)) == []
  {
  }

  function PlaceOfParent(p: Path): nat {
    if p.Top? || p.holeLeft then |Before(p)| else |Before(p.up) + Inorder(p.sib)|
  }

  // Where the search for x ends.
  lemma HoleEnds(p: Path, key: Keys, x: int)
    requires Par(p) != null && Narrowed(p, key, x)
    ensures p.Step? && Par(p) == p.node
    ensures (
      var s, k := Inorder(Plug(p, Leaf)), PlaceOfParent(p);
      && k < |s| && s[k] == p.node && p.node in key
      && AllBelow(s[..k], key, x) && (key[p.node] < x ==> AllAbove(s[k + 1..], key, x)))
  {
    AroundHole(p);
    var b, a := Before(p), After(p);
    if p.holeLeft {
      assert a[0] == p.node;
    } else {
      assert b == (Before(p.up) + Inorder(p.sib)) + [p.node];
    }
    hide Before, After, Inorder, Plug;
    var s, k := b + a, PlaceOfParent(p);
    assert s[k..] == b[k..] + a;
  }

  lemma FoundAt(p: Path, t: Tree, key: Keys)
    requires t.Node? && Increasing(Inorder(Plug(p, t)), key)
    ensures (
      var s, k := Inorder(Plug(p, t)), |Before(p) + Inorder(t.left)|;
      k < |s| && s[k] == t.node && t.node in key && AllBelow(s[..k], key, key[t.node]))
  {
    InorderPlug(p, t);
    AroundSplits(p, Inorder(t));
    assert Inorder(t) == Inorder(t.left) + [t.node] + Inorder(t.right);
    hide *;
    MiddleOf(Before(p), Inorder(t.left), t.node, Inorder(t.right), After(p));
    AroundKey(Inorder(Plug(p, t)), |Before(p) + Inorder(t.left)|, key);
  }

  // The first system of the game goes to (0, 0), and falls out of the index as soon as the next
  // new system, whose x is still zero, is placed.
  method FirstSystemLost() returns (u: Universe, a: System)
    ensures fresh(u) && u.Valid() && a.x == 0 && a.xRbtree !in Nodes(u.xRbtree.shape)
  {
    hide *;
    u := new Universe();
    u.EmptyIndex();
    a := u.NewSystem();
    u.OneOccupant(0, null);
    var moved := u.SystemMove(a, 0, 0);
    var b := u.NewSystem();
    u.OneOccupant(5, a);
    u.OneOccupant(0, a);
    moved := u.SystemMove(b, 5, 5);
  }

  lemma FewerAbsent(s: seq<RbNode>, s': seq<RbNode>, key: Keys, x: int)
    requires Absent(s, key, x) && forall n :: n in s' ==> n in s
    ensures Absent(s', key, x)
  {
    assert forall i :: 0 <= i < |s'| ==> s'[i] in s;
  }

  // A node on the way has another key than an absent one.
  lemma SameX(p: Path, t: Tree, key: Keys, x: int)
    requires t.Node? && Absent(Inorder(Plug(p, t)), key, x)
    ensures t.node in key && key[t.node] != x
  {
    NodesPlug(p, t);
    InorderNodes(Plug(p, t), t.node);
  }

  lemma Start(t: Tree, key: Keys, x: int)
    ensures Plug(Top, t) == t && Narrowed(Top, key, x) && Par(Top) == null
  {
  }
}

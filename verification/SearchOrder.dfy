// Search trees: nodes in strictly increasing order of a key, and what a descent knows.
module SearchOrder {
  import opened RbShape

  type Keys = map<RbNode, int>

  ghost predicate Increasing(s: seq<RbNode>, key: Keys) {
    && (forall i :: 0 <= i < |s| ==> s[i] in key)
    && (forall i, j :: 0 <= i < j < |s| ==> key[s[i]] < key[s[j]])
  }

  ghost predicate AllBelow(s: seq<RbNode>, key: Keys, x: int) {
    forall i :: 0 <= i < |s| ==> s[i] in key && key[s[i]] < x
  }

  ghost predicate AllAbove(s: seq<RbNode>, key: Keys, x: int) {
    forall i :: 0 <= i < |s| ==> s[i] in key && key[s[i]] > x
  }

  // If x is anywhere in the tree, it is in the subtree the path p leads to.
  ghost predicate Narrowed(p: Path, key: Keys, x: int) {
    AllBelow(Before(p), key, x) && AllAbove(After(p), key, x)
  }

  lemma AroundKey(s: seq<RbNode>, k: nat, key: Keys)
    requires Increasing(s, key) && k < |s|
    ensures s[k] in key && AllBelow(s[..k], key, key[s[k]]) && AllAbove(s[k + 1..], key, key[s[k]])
  {
  }

  lemma BelowParts(a: seq<RbNode>, b: seq<RbNode>, key: Keys, x: int)
    ensures AllBelow(a + b, key, x) <==> AllBelow(a, key, x) && AllBelow(b, key, x)
  {
    assert forall i :: 0 <= i < |a| ==> (a + b)[i] == a[i];
    assert forall j :: 0 <= j < |b| ==> (a + b)[|a| + j] == b[j];
  }

  lemma AboveParts(a: seq<RbNode>, b: seq<RbNode>, key: Keys, x: int)
    ensures AllAbove(a + b, key, x) <==> AllAbove(a, key, x) && AllAbove(b, key, x)
  {
    assert forall i :: 0 <= i < |a| ==> (a + b)[i] == a[i];
    assert forall j :: 0 <= j < |b| ==> (a + b)[|a| + j] == b[j];
  }

  // The order of a whole tree, cut at the root of the subtree t below p.
  lemma OrderAt(p: Path, t: Tree, key: Keys)
    requires t.Node? && Increasing(Inorder(Plug(p, t)), key)
    ensures t.node in key
    ensures AllBelow(Inorder(t.left), key, key[t.node]) && AllAbove(Inorder(t.right), key, key[t.node])
    ensures AllBelow(Before(p), key, key[t.node]) && AllAbove(After(p), key, key[t.node])
  {
    InorderPlug(p, t);
    AroundSplits(p, Inorder(t));
    var l, r, b, a := Inorder(t.left), Inorder(t.right), Before(p), After(p);
    assert Inorder(t) == l + [t.node] + r;
    hide *;
    MiddleOf(b, l, t.node, r, a);
    AroundKey(Inorder(Plug(p, t)), |b| + |l|, key);
    BelowParts(b, l, key, key[t.node]);
    AboveParts(r, a, key, key[t.node]);
  }

  lemma BelowWeaker(s: seq<RbNode>, key: Keys, x: int, y: int)
    requires x <= y
    ensures AllBelow(s, key, x) ==> AllBelow(s, key, y)
    ensures AllAbove(s, key, y) ==> AllAbove(s, key, x)
  {
  }

  lemma OneBelow(n: RbNode, key: Keys, x: int)
    requires n in key
    ensures AllBelow([n], key, x) <==> key[n] < x
    ensures AllAbove([n], key, x) <==> key[n] > x
  {
    assert [n][0] == n;
  }

  // A step down keeps x narrowed.
  lemma GoLeft(p: Path, t: Tree, key: Keys, x: int)
    requires t.Node? && Increasing(Inorder(Plug(p, t)), key) && Narrowed(p, key, x)
    ensures t.node in key
    ensures x < key[t.node] ==> Narrowed(Step(t.node, t.color, true, t.right, p), key, x)
  {
    OrderAt(p, t, key);
    hide AllBelow, AllAbove, Increasing;
    if x < key[t.node] {
      BelowWeaker(Inorder(t.right), key, x, key[t.node]);
    }
    OneBelow(t.node, key, x);
    AboveParts([t.node], Inorder(t.right), key, x);
    AboveParts([t.node] + Inorder(t.right), After(p), key, x);
  }

  lemma GoRight(p: Path, t: Tree, key: Keys, x: int)
    requires t.Node? && Increasing(Inorder(Plug(p, t)), key) && Narrowed(p, key, x)
    ensures t.node in key
    ensures x > key[t.node] ==> Narrowed(Step(t.node, t.color, false, t.left, p), key, x)
  {
    OrderAt(p, t, key);
    hide AllBelow, AllAbove, Increasing;
    if x > key[t.node] {
      BelowWeaker(Inorder(t.left), key, key[t.node], x);
    }
    OneBelow(t.node, key, x);
    BelowParts(Before(p), Inorder(t.left), key, x);
    BelowParts(Before(p) + Inorder(t.left), [t.node], key, x);
  }

  // x is the key of no node.
  ghost predicate Absent(s: seq<RbNode>, key: Keys, x: int) {
    forall i :: 0 <= i < |s| ==> s[i] in key && key[s[i]] != x
  }

  lemma NarrowedToNothing(p: Path, key: Keys, x: int)
    requires Narrowed(p, key, x)
    ensures Absent(Inorder(Plug(p, Leaf)), key, x)
  {
    AroundHole(p);
    hide Before, After, Inorder, Plug;
    ApartAbsent(Before(p), After(p), key, x);
  }

  lemma AroundHole(p: Path)
    ensures Inorder(Plug(p, Leaf)) == Before(p) + After(p)
  {
    InorderPlug(p, Leaf);
    AroundSplits(p, []);
    assert Inorder(Leaf) == [];
    hide *;
    assert Before(p) + [] == Before(p);
  }

  lemma ApartAbsent(b: seq<RbNode>, a: seq<RbNode>, key: Keys, x: int)
    requires AllBelow(b, key, x) && AllAbove(a, key, x)
    ensures Absent(b + a, key, x)
  {
    assert forall i :: 0 <= i < |b + a| ==> (b + a)[i] == if i < |b| then b[i] else a[i - |b|];
  }

  // A node may go where a descent for its key ends.
  lemma InsertedIncreasing(p: Path, n: RbNode, key: Keys)
    requires Increasing(Inorder(Plug(p, Leaf)), key) && n in key && Narrowed(p, key, key[n])
    ensures Increasing(Before(p) + [n] + After(p), key)
  {
    AroundHole(p);
    hide Before, After, Inorder, Plug;
    InsertBetween(Before(p), n, After(p), key);
  }

  lemma InsertBetween(b: seq<RbNode>, n: RbNode, a: seq<RbNode>, key: Keys)
    requires Increasing(b + a, key) && n in key && AllBelow(b, key, key[n]) && AllAbove(a, key, key[n])
    ensures Increasing(b + [n] + a, key)
  {
    var s, t := b + a, b + [n] + a;
    forall i | 0 <= i < |t|
      ensures t[i] == if i < |b| then s[i] else if i == |b| then n else s[i - 1]
    {
    }
    forall i | 0 <= i < |s|
      ensures s[i] in key && (if i < |b| then key[s[i]] < key[n] else key[s[i]] > key[n])
    {
      assert s[i] == if i < |b| then b[i] else a[i - |b|];
    }
    forall i, j | 0 <= i < j < |t|
      ensures key[t[i]] < key[t[j]]
    {
      var u, v := if i <= |b| then i else i - 1, if j <= |b| then j else j - 1;
      assert i != |b| && j != |b| ==> key[s[u]] < key[s[v]];
    }
  }

  lemma {:induction false} WithoutSubset(s: seq<RbNode>, n: RbNode)
    ensures forall i :: 0 <= i < |Without(s, n)| ==> Without(s, n)[i] in s
  {
    if s != [] && s[0] != n {
      WithoutSubset(s[1..], n);
    }
  }

  lemma {:induction false} WithoutIncreasing(s: seq<RbNode>, n: RbNode, key: Keys)
    requires Increasing(s, key)
    ensures Increasing(Without(s, n), key)
    ensures n in s ==> n !in Without(s, n)
    ensures forall m :: m != n ==> (m in Without(s, n) <==> m in s)
  {
    if s != [] && s[0] != n {
      WithoutIncreasing(s[1..], n, key);
      WithoutSubset(s[1..], n);
    }
  }

  // Only the keys of the nodes in s matter.
  lemma IncreasingSame(s: seq<RbNode>, key: Keys, key': Keys)
    requires Increasing(s, key) && forall n :: n in s ==> n in key && n in key' && key'[n] == key[n]
    ensures Increasing(s, key')
  {
  }

  lemma IncreasingDistinct(s: seq<RbNode>, key: Keys, i: nat, j: nat)
    requires Increasing(s, key) && i < |s| && j < |s| && (s[i] == s[j] || key[s[i]] == key[s[j]])
    ensures i == j
  {
  }

  // What rb_next gives at place k.
  lemma NextAt(s: seq<RbNode>, key: Keys, k: nat, r: RbNode?)
    requires Increasing(s, key) && k < |s| && Follows(s, s[k], r)
    ensures r == if k + 1 < |s| then s[k + 1] else null
  {
    var i :| 0 <= i < |s| && s[i] == s[k] && NextIs(s, i, r);
    IncreasingDistinct(s, key, i, k);
  }

  // The nodes of a set, in the order of s.
  function Picked(s: seq<RbNode>, keep: set<RbNode>): seq<RbNode> {
    if s == [] then [] else Picked(s[..|s| - 1], keep) + if s[|s| - 1] in keep then [s[|s| - 1]] else []
  }

  lemma PickedNone(s: seq<RbNode>, k: nat, keep: set<RbNode>)
    requires k <= |s| && forall i :: k <= i < |s| ==> s[i] !in keep
    ensures Picked(s, keep) == Picked(s[..k], keep)
    decreases |s|
  {
    if k == |s| {
      assert s[..k] == s;
    } else {
      assert s[..|s| - 1][..k] == s[..k];
      PickedNone(s[..|s| - 1], k, keep);
    }
  }

  lemma {:induction false} PickedNothing(s: seq<RbNode>, keep: set<RbNode>)
    requires forall i :: 0 <= i < |s| ==> s[i] !in keep
    ensures Picked(s, keep) == []
  {
    if s != [] {
      PickedNothing(s[..|s| - 1], keep);
    }
  }

  lemma PickedNext(s: seq<RbNode>, k: nat, keep: set<RbNode>)
    requires k < |s|
    ensures Picked(s[..k + 1], keep) == Picked(s[..k], keep) + if s[k] in keep then [s[k]] else []
  {
    assert s[..k + 1][..k] == s[..k];
  }

  // What Picked means: each wanted node of s once, in order, and nothing else.
  lemma {:induction false} PickedIs(s: seq<RbNode>, keep: set<RbNode>, key: Keys)
    requires Increasing(s, key)
    ensures Increasing(Picked(s, keep), key)
    ensures forall n :: n in Picked(s, keep) <==> n in s && n in keep
  {
    if s != [] {
      var u, n := s[..|s| - 1], s[|s| - 1];
      assert s == u + [n];
      PickedIs(u, keep, key);
      assert forall m :: m in Picked(u, keep) ==> m in u;
      assert forall i :: 0 <= i < |Picked(u, keep)| ==> Picked(u, keep)[i] in u;
    }
  }
}

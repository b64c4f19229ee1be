// stringtrie.c: a map from case-folded strings to data, in nodes of two kinds.
module StringTrie {
  import opened CharCodes
  import opened TrieLinks
  import opened TrieKeys

  // What a prefix lookup comes to: the data it returns, or the null pointer it follows.
  datatype Lookup<T> = Found(data: T) | NullDereference

  // The scan of an array of eight pointers for its only entry.
  method Single<T(==)>(s: seq<T>, none: T) returns (many: bool, one: T, ghost i: nat, ghost j: nat)
    requires |s| == 8
    ensures many ==> i < j < 8 && s[i] != none && s[j] != none
    ensures !many && one == none ==> forall h :: 0 <= h < 8 ==> s[h] == none
    ensures !many && one != none ==> i < 8 && s[i] == one && forall h :: 0 <= h < 8 && h != i ==> s[h] == none
  {
    one, i, j := none, 0, 0;
    for h := 0 to 8
      invariant one == none ==> forall g :: 0 <= g < h ==> s[g] == none
      invariant one != none ==> i < h && s[i] == one && forall g :: 0 <= g < h && g != i ==> s[g] == none
    {
      if s[h] != none {
        if one != none {
          return true, none, i, h;
        }
        one, i := s[h], h;
      }
    }
    many := false;
  }

  class Trie {
    var root: StRoot
    ghost var k: Links
    ghost var roots: set<StRoot>
    ghost var tables: set<StLsb>

    // The heap is as k says.
    ghost predicate Holds()
      reads this, roots, tables
    {
      && (forall p :: p in k.n ==>
            (p in k.ms && p in k.ds && k.n[p] in roots && k.n[p].msb == k.ms[p] && k.n[p].data == k.ds[p]))
      && (forall x :: x in k.t ==> x in k.ls && k.t[x] in tables && k.t[x].lsb == k.ls[x])
    }

    ghost predicate Shape()
      reads this, roots, tables
    {
      k.Ok() && Holds() && Top in k.n && k.n[Top] == root
    }

    // st_init
    constructor ()
      ensures Valid() && k.Contents() == map[] && k.n.Keys == {Top} && fresh(roots) && fresh(tables)
    {
      root := new StRoot();
      new;
      roots, tables := {root}, {};
      k := Links(map[Top := root], map[], map[Top := root.msb], map[], map[Top := null]);
    }

    lemma Entries(p: Path, m: Octal, l: Octal)
      requires Shape() && p in k.n
      ensures k.Ok() && Holds() && k.Injective() && |k.n[p].msb| == 8 && p in k.ms && k.ms[p] == k.n[p].msb && k.n[p] in roots
      ensures k.n[p].msb[m] == if Slot(p, m) in k.t then k.t[Slot(p, m)] else null
      ensures Slot(p, m) in k.t ==> (
        && |k.t[Slot(p, m)].lsb| == 8 && k.t[Slot(p, m)] in tables
        && Slot(p, m) in k.ls && k.ls[Slot(p, m)] == k.t[Slot(p, m)].lsb
        && k.t[Slot(p, m)].lsb[l] == if Sub(p, m, l) in k.n then k.n[Sub(p, m, l)] else null)
      ensures Slot(p, m) !in k.t ==> Sub(p, m, l) !in k.n
    {
      EntriesOf(k, p, m, l);
    }

    // find_node with exact_match_only
    method FindNode(s: seq<Char>) returns (node: StRoot?)
      requires Shape()
      ensures node == if PathOf(s) in k.n then k.n[PathOf(s)] else null
    {
      node := root;
      ghost var p := Top;
      var i := 0;
      assert k.Ok() && k.n[Top] == root && s[..0] == [];
      hide Shape, Links.Ok;
      while i < |s|
        invariant i <= |s| && p == PathOf(s[..i]) && p in k.n && node == k.n[p] && Shape() && k.Ok()
      {
        ghost var q := Child(p, s[i]);
        PathOfNext(s, i);
        Entries(p, Msb(s[i]), Lsb(s[i]));
        if PathOf(s) in k.n {
          AboveIn(k, q, PathOf(s));
        }
        var lsb := node.msb[Msb(s[i])];
        if lsb == null {
          return null;
        }
        node := lsb.lsb[Lsb(s[i])];
        if node == null {
          return null;
        }
        i := i + 1;
        p := q;
      }
      assert s[..i] == s;
    }

    method PutTable(node: StRoot, m: Octal, table: StLsb, ghost p: Path)
      requires Holds() && k.Injective() && p in k.n && k.n[p] == node && |k.ms[p]| == 8
      requires table.lsb == Nulls8<StRoot?>(null)
      modifies this`k, this`tables, node`msb
      ensures Holds() && k == WithTable(old(k), p, m, table) && tables == old(tables) + {table}
    {
      node.msb := node.msb[m := table];
      k := WithTable(k, p, m, table);
      tables := tables + {table};
    }

    method PutNode(table: StLsb, m: Octal, l: Octal, child: StRoot, ghost p: Path)
      requires Holds() && k.Injective() && Slot(p, m) in k.t && k.t[Slot(p, m)] == table && |k.ls[Slot(p, m)]| == 8
      requires child.msb == Nulls8<StLsb?>(null) && child.data == null
      modifies this`k, this`roots, table`lsb
      ensures Holds() && k == WithNode(old(k), p, m, l, child) && roots == old(roots) + {child}
    {
      table.lsb := table.lsb[l := child];
      k := WithNode(k, p, m, l, child);
      roots := roots + {child};
    }

    // st_add_string makes the table for the high bits if it is missing.
    method NeedTable(node: StRoot, m: Octal, ghost p: Path)
      requires Shape() && p in k.n && k.n[p] == node
      modifies this`k, this`tables, node`msb
      ensures Shape() && Slot(p, m) in k.t && fresh(tables - old(tables)) && tables >= old(tables)
      ensures if Slot(p, m) in old(k).t then k == old(k) else k.HasTable(old(k), p, m)
      ensures k.n == old(k).n
    {
      hide *;
      Entries(p, m, 0);
      if node.msb[m] == null {
        var table := new StLsb();
        NewTable(p, m, table);
        PutTable(node, m, table, p);
        IntoShape();
      }
    }

    lemma NewTable(p: Path, m: Octal, table: StLsb)
      requires Shape() && p in k.n && Slot(p, m) !in k.t && table !in tables
      ensures Holds() && k.Injective() && p in k.ms && |k.ms[p]| == 8
      ensures m < |k.ms[p]| && Top in k.n
      ensures (
        var k' := WithTable(k, p, m, table);
        && k'.Ok() && k'.HasTable(k, p, m) && k'.n == k.n && Top in k'.n && k'.n[Top] == k.n[Top] == root && Slot(p, m) in k'.t)
    {
      assert table !in k.t.Values;
      TableAdded(k, p, m, table);
    }

    lemma IntoShape()
      requires k.Ok() && Holds() && Top in k.n && k.n[Top] == root
      ensures Shape()
    {
    }

    // ... and the node for the low bits.
    method NeedNode(table: StLsb, m: Octal, l: Octal, ghost p: Path)
      requires Shape() && Slot(p, m) in k.t && k.t[Slot(p, m)] == table
      modifies this`k, this`roots, table`lsb
      ensures Shape() && Sub(p, m, l) in k.n && fresh(roots - old(roots)) && roots >= old(roots)
      ensures if Sub(p, m, l) in old(k).n then k == old(k) else k.HasNode(old(k), p, m, l)
    {
      hide *;
      SlotNode(p, m);
      Entries(p, m, l);
      if table.lsb[l] == null {
        var child := new StRoot();
        NewNode(p, m, l, child);
        PutNode(table, m, l, child, p);
        IntoShape();
      }
    }

    lemma SlotNode(p: Path, m: Octal)
      requires Shape() && Slot(p, m) in k.t
      ensures p in k.n
    {
      assert Slot(p, m).path in k.n;
    }

    lemma NewNode(p: Path, m: Octal, l: Octal, child: StRoot)
      requires Shape() && Slot(p, m) in k.t && Sub(p, m, l) !in k.n && child !in roots
      ensures Holds() && k.Injective() && Slot(p, m) in k.ls && |k.ls[Slot(p, m)]| == 8 && Top in k.n
      ensures (
        var k' := WithNode(k, p, m, l, child);
        && k'.Ok() && k'.HasNode(k, p, m, l) && Top in k'.n && k'.n[Top] == k.n[Top] == root && Sub(p, m, l) in k'.n)
    {
      hide *;
      ShapeView();
      NodeAdded(k, p, m, l, child);
      NodeHas(k, p, m, l, child);
    }

    ghost predicate Valid()
      reads this, roots, tables
    {
      Shape() && k.Good()
    }

    // One turn of st_add_string's loop: the child for a character is found or made.
    method Extend(node: StRoot, m: Octal, l: Octal, ghost p: Path, ghost q: Path) returns (child: StRoot)
      requires Shape() && p in k.n && k.n[p] == node && Above(Sub(p, m, l), q) && k.AliveBut(q)
      modifies this`k, this`roots, this`tables, roots`msb, tables`lsb
      ensures Shape() && Sub(p, m, l) in k.n && child == k.n[Sub(p, m, l)]
      ensures k.AliveBut(q) && k.Contents() == old(k).Contents() && k.n.Keys == old(k).n.Keys + {Sub(p, m, l)}
      ensures fresh(roots - old(roots)) && fresh(tables - old(tables)) && roots >= old(roots) && tables >= old(tables)
    {
      hide *;
      ghost var k0 := k;
      Entries(p, m, l);
      NeedTable(node, m, p);
      Entries(p, m, l);
      ghost var k1 := k;
      var table := node.msb[m];
      NeedNode(table, m, l, p);
      NodeStays(k1, k, p, m, l);
      Entries(p, m, l);
      child := table.lsb[l];
      GrownAlive(k0, k1, k, p, m, l, q);
      GainedNode(k0, k1, k, p, m, l);
    }

    method PutData(node: StRoot, d: object?, ghost q: Path)
      requires Holds() && k.Injective() && q in k.n && k.n[q] == node
      modifies this`k, node`data
      ensures Holds() && k == WithData(old(k), q, d)
    {
      node.data := d;
      k := WithData(k, q, d);
    }

    method SetData(node: StRoot, d: object?, ghost q: Path)
      requires Shape() && q in k.n && k.n[q] == node
      modifies this`k, node`data
      ensures Shape() && k == WithData(old(k), q, d)
    {
      hide *;
      ShapeView();
      OkWithData(k, q, d);
      WithDataView(k, q, d);
      PutData(node, d, q);
      IntoShape();
    }

    // st_add_string
    method AddString(string_: CString, data: object) returns (r: int)
      requires Valid()
      modifies this`k, this`roots, this`tables, roots, tables`lsb
      ensures Valid() && fresh(roots - old(roots)) && fresh(tables - old(tables))
      ensures r == if string_.NoString? || string_.chars == [] then -1 else 0
      ensures k.Contents() == if r == 0 then old(k).Contents()[PathOf(string_.chars) := data] else old(k).Contents()
      ensures if r == 0 then Grown(old(k), k, PathOf(string_.chars)) else k == old(k)
    {
      hide *;
      if string_.NoString? || string_.chars == [] {
        return -1;
      }
      ValidView();
      GoodAliveBut(k, PathOf(string_.chars));
      NonEmptyPath(string_.chars);
      ghost var k0 := k;
      var node := AddPath(string_.chars);
      ghost var k1 := k;
      DataSet(k, PathOf(string_.chars), data);
      WithDataView(k, PathOf(string_.chars), data);
      SetData(node, data, PathOf(string_.chars));
      GrownSame(k0, k1, k, PathOf(string_.chars));
      IntoValid();
      r := 0;
    }

    // The loop of st_add_string: every node on the way to s exists afterwards.
    method AddPath(s: seq<Char>) returns (node: StRoot)
      requires Shape() && k.AliveBut(PathOf(s))
      modifies this`k, this`roots, this`tables, roots`msb, tables`lsb
      ensures Shape() && PathOf(s) in k.n && k.n[PathOf(s)] == node && node in roots
      ensures k.AliveBut(PathOf(s)) && k.Contents() == old(k).Contents() && k.Ok() && Grown(old(k), k, PathOf(s))
      ensures fresh(roots - old(roots)) && fresh(tables - old(tables))
    {
      hide *;
      node := root;
      var i := 0;
      ghost var p := Top;
      EmptyPrefix(s);
      ShapeView();
      GrownStart(k);
      while i < |s|
        invariant i <= |s| && p == PathOf(s[..i]) && p in k.n && node == k.n[p] && Shape()
        invariant k.AliveBut(PathOf(s)) && k.Contents() == old(k).Contents() && Grown(old(k), k, p)
        invariant fresh(roots - old(roots)) && fresh(tables - old(tables)) && roots >= old(roots) && tables >= old(tables)
      {
        var m, l := Msb(s[i]), Lsb(s[i]);
        PathOfNext(s, i);
        ghost var k1 := k;
        node := Extend(node, m, l, p, PathOf(s));
        GrownMore(old(k), k1, k, Sub(p, m, l));
        p := Sub(p, m, l);
        i := i + 1;
      }
      WholePrefix(s);
      ShapeView();
    }

    lemma ValidView()
      requires Valid()
      ensures Shape() && k.Good()
    {
    }

    lemma ShapeView()
      requires Shape()
      ensures k.Ok() && Holds() && Top in k.n && k.n[Top] == root
      ensures k.Injective() && forall q :: q in k.n ==> k.n[q] in roots
    {
    }

    lemma IntoValid()
      requires Shape() && k.Good()
      ensures Valid()
    {
    }

    // st_lookup_exact
    method LookupExact(string_: CString) returns (d: object?)
      requires Valid()
      ensures d == if string_.NoString? || PathOf(string_.chars) !in k.Contents() then null
        else k.Contents()[PathOf(string_.chars)]
    {
      if string_.NoString? || string_.chars == [] {
        return null;
      }
      var node := FindNode(string_.chars);
      if node == null {
        return null;
      }
      d := node.data;
    }

    // is_msb_free
    method IsMsbFree(node: StRoot) returns (free: bool)
      requires |node.msb| == 8
      ensures free <==> forall m: Octal :: node.msb[m] == null
    {
      for i := 0 to 8
        invariant forall m: Octal :: m < i ==> node.msb[m] == null
      {
        if node.msb[i] != null {
          return false;
        }
      }
      return true;
    }

    // is_lsb_free
    method IsLsbFree(table: StLsb) returns (free: bool)
      requires |table.lsb| == 8
      ensures free <==> forall l: Octal :: table.lsb[l] == null
    {
      for i := 0 to 8
        invariant forall l: Octal :: l < i ==> table.lsb[l] == null
      {
        if table.lsb[i] != null {
          return false;
        }
      }
      return true;
    }

    lemma NodeTables(q: Path)
      requires Shape() && q in k.n
      ensures |k.n[q].msb| == 8
      ensures NoTableAt(k, q) <==> forall m: Octal :: k.n[q].msb[m] == null
    {
      forall m: Octal
        ensures |k.n[q].msb| == 8 && (Slot(q, m) !in k.t <==> k.n[q].msb[m] == null)
      {
        Entries(q, m, 0);
      }
      assert |k.n[q].msb| == 8 by {
        Entries(q, 0, 0);
      }
    }

    lemma TableNodes(p: Path, m: Octal)
      requires Shape() && p in k.n && Slot(p, m) in k.t
      ensures |k.t[Slot(p, m)].lsb| == 8
      ensures k.Occupied(Slot(p, m)) <==> exists l: Octal :: k.t[Slot(p, m)].lsb[l] != null
    {
      forall l: Octal
        ensures |k.t[Slot(p, m)].lsb| == 8 && (Sub(p, m, l) in k.n <==> k.t[Slot(p, m)].lsb[l] != null)
      {
        Entries(p, m, l);
      }
      assert |k.t[Slot(p, m)].lsb| == 8 by {
        Entries(p, m, 0);
      }
    }

    method TakeNode(table: StLsb, l: Octal, ghost q: Path)
      requires Holds() && k.Injective() && q.Sub? && q.lsb == l && |table.lsb| == 8
      requires Slot(q.up, q.msb) in k.t && k.t[Slot(q.up, q.msb)] == table && k.ls[Slot(q.up, q.msb)] == table.lsb
      modifies this`k, table`lsb
      ensures Holds() && old(l < |k.ls[Slot(q.up, q.msb)]|) && k == WithoutNode(old(k), q)
    {
      table.lsb := table.lsb[l := null];
      k := WithoutNode(k, q);
    }

    method TakeTable(node: StRoot, m: Octal, ghost p: Path)
      requires Holds() && k.Injective() && p in k.n && k.n[p] == node && |node.msb| == 8
      requires k.ms[p] == node.msb
      modifies this`k, node`msb
      ensures Holds() && old(m < |k.ms[p]|) && k == WithoutTable(old(k), Slot(p, m))
    {
      node.msb := node.msb[m := null];
      k := WithoutTable(k, Slot(p, m));
    }

    lemma BeforeDrop(q: Path)
      requires Shape() && q in k.n && q.Sub? && NoTableAt(k, q) && k.n[q].data == null
      ensures Slot(q.up, q.msb) in k.ls && q.lsb < |k.ls[Slot(q.up, q.msb)]|
      ensures (
        var k' := WithoutNode(k, q);
        k'.Ok() && k'.Contents() == k.Contents() && Top in k'.n && k'.n[Top] == root && k'.n == k.n - {q} && k'.t == k.t)
    {
      ShapeView();
      DataOf(q);
      NodeRemoved(k, q);
      NodeGoneContents(k, WithoutNode(k, q), q);
      hide Links.Ok, Links.Contents, Shape, Holds;
      WithoutNodeView(k, q);
    }

    lemma DataOf(q: Path)
      requires Shape() && q in k.n
      ensures q in k.ds && k.n[q].data == k.ds[q]
      ensures q in k.Contents() <==> k.n[q].data != null
      ensures q in k.Contents() ==> k.Contents()[q] == k.n[q].data
    {
    }

    // The node at q is freed.
    method DropNode(table: StLsb, l: Octal, ghost q: Path)
      requires Shape() && q in k.n && q.Sub? && q.lsb == l && NoTableAt(k, q) && k.n[q].data == null
      requires Slot(q.up, q.msb) in k.t && k.t[Slot(q.up, q.msb)] == table
      modifies this`k, table`lsb
      ensures Shape() && k.n == old(k).n - {q} && k.t == old(k).t && k.Contents() == old(k).Contents()
    {
      hide *;
      BeforeDrop(q);
      SlotNode(q.up, q.msb);
      Entries(q.up, q.msb, l);
      TakeNode(table, l, q);
      IntoShape();
    }

    lemma BeforeDropTable(x: Slot)
      requires Shape() && x in k.t && !k.Occupied(x)
      ensures x.path in k.ms && x.msb < |k.ms[x.path]|
      ensures (
        var k' := WithoutTable(k, x);
        k'.Ok() && k'.Contents() == k.Contents() && Top in k'.n && k'.n[Top] == root && k'.n == k.n && k'.t == k.t - {x})
    {
      ShapeView();
      TableRemoved(k, x);
      hide Links.Ok, Links.Contents, Shape, Holds;
      WithoutTableView(k, x);
    }

    // The table for m at p is freed.
    method DropTable(node: StRoot, m: Octal, ghost p: Path)
      requires Shape() && p in k.n && k.n[p] == node && Slot(p, m) in k.t && !k.Occupied(Slot(p, m))
      modifies this`k, node`msb
      ensures Shape() && k.n == old(k).n && k.t == old(k).t - {Slot(p, m)} && k.Contents() == old(k).Contents()
    {
      hide *;
      BeforeDropTable(Slot(p, m));
      Entries(p, m, 0);
      TakeTable(node, m, p);
      IntoShape();
    }

    lemma TableHasChild(p: Path, m: Octal)
      requires Slot(p, m) in k.t && k.AliveBut(p) && k.Occupied(Slot(p, m)) && Depth(p) >= 1
      ensures k.AliveBut(Top)
    {
      var l: Octal :| Sub(p, m, l) in k.n;
      ChildKeeps(k, p, Sub(p, m, l));
    }

    // One turn of st_rm_string's loop at the node q, the child of p.
    method PruneStep(x: Pair, m: Octal, l: Octal, ghost p: Path) returns (done: bool)
      requires Shape() && At(k, p, m, x) && Sub(p, m, l) in k.n && k.AliveBut(Sub(p, m, l)) && NoTableAt(k, Sub(p, m, l))
      requires Depth(p) >= 1
      modifies this`k, x.lsb`lsb, x.root`msb
      ensures Shape() && k.Contents() == old(k).Contents()
      ensures done ==> k.AliveBut(Top)
      ensures done ==> forall r :: r in old(k).n && r != Sub(p, m, l) ==> r in k.n
      ensures k.n.Keys <= old(k).n.Keys
      ensures !done ==> k.n == old(k).n - {Sub(p, m, l)} && k.t == old(k).t - {Slot(p, m)}
      ensures !done ==> k.AliveBut(p) && NoTableAt(k, p)
    {
      hide *;
      ghost var q := Sub(p, m, l);
      AtView(k, p, m, x);
      Entries(p, m, l);
      DataOf(q);
      var node := x.lsb.lsb[l];
      if node.data != null {
        AboveSelf(q);
        KeyKeeps(k, q, q);
        return true;
      }
      ghost var k0 := k;
      DropNode(x.lsb, l, q);
      NodeGoneAlive(k0, k, q);
      TableNodes(p, m);
      var free := IsLsbFree(x.lsb);
      if !free {
        OccupiedAlive(k, p, m);
        TableHasChild(p, m);
        return true;
      }
      done := PruneTable(x.root, m, p);
    }

    // ... whose second half frees the emptied table.
    method PruneTable(node: StRoot, m: Octal, ghost p: Path) returns (done: bool)
      requires Shape() && p in k.n && k.n[p] == node && Slot(p, m) in k.t && !k.Occupied(Slot(p, m)) && Depth(p) >= 1
      requires forall x :: x in k.t && x != Slot(p, m) ==> k.Occupied(x)
      requires forall r :: r in k.n && Depth(r) >= 2 && !Above(r, p) ==> k.Live(r)
      modifies this`k, node`msb
      ensures Shape() && k.Contents() == old(k).Contents() && k.n == old(k).n
      ensures done ==> k.AliveBut(Top)
      ensures !done ==> k.t == old(k).t - {Slot(p, m)} && k.AliveBut(p) && NoTableAt(k, p)
    {
      hide *;
      ghost var k0 := k;
      DropTable(node, m, p);
      TableGoneAlive(k0, k, Slot(p, m));
      NodeTables(p);
      var free := IsMsbFree(node);
      if !free {
        OtherTable(k, p);
        ghost var m' :| Slot(p, m') in k.t;
        AliveOccupied(k, p, m');
        TableHasChild(p, m');
      }
      done := !free;
    }

    // The first loop of st_rm_string: the node of s, and the nodes and tables on the way.
    method Walk(s: seq<Char>) returns (node: StRoot?, path: seq<Pair>)
      requires Shape()
      ensures node == if PathOf(s) in k.n then k.n[PathOf(s)] else null
      ensures node != null ==> OnPath(k, s, path, |s|)
    {
      hide *;
      node, path := root, [];
      ghost var p := Top;
      var i := 0;
      EmptyPrefix(s);
      ShapeView();
      EmptyOnPath(k, s);
      while i < |s|
        invariant i <= |s| && p == PathOf(s[..i]) && p in k.n && node == k.n[p] && Shape()
        invariant |path| == i && OnPath(k, s, path, i)
      {
        var m, l := Msb(s[i]), Lsb(s[i]);
        PathOfNext(s, i);
        Entries(p, m, l);
        if PathOf(s) in k.n {
          ShapeClosed();
          AboveIn(k, Sub(p, m, l), PathOf(s));
        }
        var lsb := node.msb[m];
        if lsb == null {
          return null, path;
        }
        IntoAt(k, p, m, Pair(node, lsb));
        OnPathLonger(k, s, path, i, Pair(node, lsb));
        path := path + [Pair(node, lsb)];
        node := lsb.lsb[l];
        if node == null {
          return null, path;
        }
        i := i + 1;
        p := Sub(p, m, l);
      }
      WholePrefix(s);
    }

    lemma ShapeClosed()
      requires Shape()
      ensures k.Closed()
    {
    }

    // The second loop of st_rm_string.
    method Prune(s: seq<Char>, path: seq<Pair>)
      requires Shape() && s != [] && PathOf(s) in k.n && OnPath(k, s, path, |s|)
      requires k.AliveBut(PathOf(s)) && NoTableAt(k, PathOf(s))
      modifies this`k, roots`msb, tables`lsb
      ensures Shape() && k.AliveBut(Top) && k.Contents() == old(k).Contents()
      ensures forall p :: p in old(k).n && Depth(p) <= 1 ==> p in k.n
      ensures k.n.Keys <= old(k).n.Keys
    {
      hide *;
      var i := |s| - 1;
      WholePrefix(s);
      while i > 0
        invariant 0 <= i < |s| && Shape() && PathOf(s[..i + 1]) in k.n && OnPath(k, s, path, i + 1)
        invariant k.AliveBut(PathOf(s[..i + 1])) && NoTableAt(k, PathOf(s[..i + 1]))
        invariant k.Contents() == old(k).Contents()
        invariant forall p :: p in old(k).n && Depth(p) <= 1 ==> p in k.n
        invariant k.n.Keys <= old(k).n.Keys
      {
        ghost var k0 := k;
        PathOfNext(s, i);
        PathOfDepth(s[..i + 1]);
        PathOfDepth(s[..i]);
        OnPathAt(k, s, path, i);
        AtIn(PathOf(s[..i]), Msb(s[i]), path[i]);
        var done := PruneStep(path[i], Msb(s[i]), Lsb(s[i]), PathOf(s[..i]));
        if done {
          return;
        }
        OnPathAbove(k0, k, s, path, i);
        i := i - 1;
      }
      PathOfDepth(s[..i + 1]);
      ShallowKeeps(k, PathOf(s[..i + 1]));
    }

    lemma AtIn(p: Path, m: Octal, x: Pair)
      requires Shape() && At(k, p, m, x)
      ensures p in k.n && x.root in roots && x.lsb in tables
    {
      Entries(p, m, 0);
    }

    // st_rm_string
    method RmString(string_: CString) returns (d: object?)
      requires Valid()
      modifies this`k, roots, tables`lsb
      ensures Valid() && roots == old(roots) && tables == old(tables)
      ensures d == if string_.NoString? || PathOf(string_.chars) !in old(k).Contents() then null
        else old(k).Contents()[PathOf(string_.chars)]
      ensures k.Contents() == if string_.NoString? then old(k).Contents() else old(k).Contents() - {PathOf(string_.chars)}
      ensures forall p :: p in old(k).n && Depth(p) <= 1 ==> p in k.n
      ensures k.n.Keys <= old(k).n.Keys
    {
      hide *;
      ValidView();
      if string_.NoString? || string_.chars == [] {
        EmptyKey(k, string_);
        return null;
      }
      var s := string_.chars;
      ghost var q := PathOf(s);
      var node, path := Walk(s);
      if node == null {
        MissingKey(k, q);
        return null;
      }
      DataOf(q);
      ShapeView();
      d := node.data;
      ghost var k0 := k;
      ClearedAlive(k, q);
      WithDataView(k, q, null);
      SetData(node, null, q);
      OnPathSame(k0, k, s, path);
      NodeTables(q);
      var free := IsMsbFree(node);
      if !free {
        OtherTable(k, q);
        ghost var m :| Slot(q, m) in k.t;
        AliveOccupied(k, q, m);
        PathOfDepth(s);
        TableHasChild(q, m);
      } else {
        Prune(s, path);
      }
      ShapeView();
      IntoGood(k, k0, q);
      IntoValid();
    }

    // get_the_only_child
    method GetTheOnlyChild(node: StRoot, ghost p: Path) returns (r: Lookup<StRoot?>)
      requires Valid() && p in k.n && k.n[p] == node && p.Sub?
      ensures r.NullDereference? <==> DeadEnd(k, p)
      ensures r.Found? ==> IsCompletion(k, p, if r.data == null then null else r.data.data)
      decreases Below(k, p)
    {
      hide *;
      ValidView();
      NodeTables(p);
      DataOf(p);
      var many, lsb, m, m' := Single(node.msb, null);
      if many {
        TwoTables(p, m, m');
        return Found(null);
      }
      if node.data != null {
        NotDeadEnd(k, p);
        if lsb != null {
          KeyAndTable(p, m);
          return Found(null);
        }
        KeyAlone(k, p);
        return Found(node);
      }
      if lsb == null {
        IntoDeadEnd(k, p);
        return NullDereference;
      }
      OnlyTable(p, m);
      ghost var l0 := ChildIn(p, m);
      Entries(p, m, l0);
      var many', child, l, l' := Single(lsb.lsb, null);
      if many' {
        TwoNodes(p, m, l, l');
        return Found(null);
      }
      OnlyNode(p, m, l);
      ChildBelow(k, p, m, l);
      ChildDepth(p, m, l);
      NotDeadEnd(k, Sub(p, m, l));
      r := GetTheOnlyChild(child, Sub(p, m, l));
      ChildForParent(k, p, m, l, if r.data == null then null else r.data.data);
    }

    lemma ChildDepth(p: Path, m: Octal, l: Octal)
      requires p.Sub?
      ensures Sub(p, m, l).Sub? && Depth(Sub(p, m, l)) >= 2
    {
    }

    lemma OnlyTable(p: Path, m: Octal)
      requires Shape() && p in k.n && |k.n[p].msb| == 8 && k.n[p].msb[m] != null
      requires forall h :: 0 <= h < 8 && h != m ==> k.n[p].msb[h] == null
      ensures Slot(p, m) in k.t && k.t[Slot(p, m)] == k.n[p].msb[m] && !DeadEnd(k, p)
      ensures forall m': Octal :: Slot(p, m') in k.t ==> m' == m
    {
      hide Shape;
      TableAt(p, m);
      forall m': Octal | Slot(p, m') in k.t
        ensures m' == m
      {
        Entries(p, m', 0);
      }
    }

    lemma OnlyNode(p: Path, m: Octal, l: Octal)
      requires Shape() && p in k.n && Slot(p, m) in k.t && |k.t[Slot(p, m)].lsb| == 8
      requires k.t[Slot(p, m)].lsb[l] != null && forall h :: 0 <= h < 8 && h != l ==> k.t[Slot(p, m)].lsb[h] == null
      requires forall m': Octal :: Slot(p, m') in k.t ==> m' == m
      ensures LoneChild(k, p, m, l) && Sub(p, m, l) in k.n && k.n[Sub(p, m, l)] == k.t[Slot(p, m)].lsb[l]
    {
      hide Shape;
      Entries(p, m, l);
      forall l': Octal | Sub(p, m, l') in k.n
        ensures l' == l
      {
        Entries(p, m, l');
      }
    }

    lemma TwoNodes(p: Path, m: Octal, l: Octal, l': Octal)
      requires Valid() && p in k.n && p.Sub? && Slot(p, m) in k.t && |k.t[Slot(p, m)].lsb| == 8
      requires l != l' && k.t[Slot(p, m)].lsb[l] != null && k.t[Slot(p, m)].lsb[l'] != null
      ensures IsCompletion(k, p, null)
    {
      hide Valid, Shape, Links.Good, IsCompletion;
      ValidView();
      Entries(p, m, l);
      Entries(p, m, l');
      TwoChildren(k, p, Sub(p, m, l), Sub(p, m, l'));
    }

    lemma TableAt(p: Path, m: Octal)
      requires Shape() && p in k.n && |k.n[p].msb| == 8 && k.n[p].msb[m] != null
      ensures Slot(p, m) in k.t && k.t[Slot(p, m)] == k.n[p].msb[m]
    {
      Entries(p, m, 0);
    }

    lemma TwoTables(p: Path, m: Octal, m': Octal)
      requires Valid() && p in k.n && p.Sub? && |k.n[p].msb| == 8
      requires m != m' && k.n[p].msb[m] != null && k.n[p].msb[m'] != null
      ensures IsCompletion(k, p, null) && !DeadEnd(k, p)
    {
      hide Valid, Shape, Links.Good, IsCompletion;
      ValidView();
      TableAt(p, m);
      TableAt(p, m');
      var l := ChildIn(p, m);
      var l' := ChildIn(p, m');
      TwoChildren(k, p, Sub(p, m, l), Sub(p, m', l'));
    }

    lemma ChildIn(p: Path, m: Octal) returns (l: Octal)
      requires Valid() && Slot(p, m) in k.t
      ensures Sub(p, m, l) in k.n
    {
      assert k.Occupied(Slot(p, m));
      l :| Sub(p, m, l) in k.n;
    }

    lemma KeyAndTable(p: Path, m: Octal)
      requires Valid() && p in k.n && p.Sub? && |k.n[p].msb| == 8 && k.n[p].msb[m] != null && p in k.Contents()
      ensures IsCompletion(k, p, null) && !DeadEnd(k, p)
    {
      hide Valid, Shape, Links.Good, IsCompletion;
      ValidView();
      TableAt(p, m);
      var l := ChildIn(p, m);
      KeyAndChild(k, p, Sub(p, m, l));
    }

    // st_is_empty: true exactly when there is no key and nothing a removal left behind.
    method IsEmpty() returns (empty: bool)
      requires Valid()
      ensures empty <==> k.Contents() == map[] && forall m: Octal, l: Octal :: !DeadEnd(k, Sub(Top, m, l))
    {
      hide *;
      ValidView();
      ShapeView();
      NodeTables(Top);
      empty := IsMsbFree(root);
      if empty {
        NoTableNoKey();
      } else {
        TableThenDeadEnd();
      }
    }

    lemma NoTableNoKey()
      requires Valid() && NoTableAt(k, Top)
      ensures k.Contents() == map[] && forall m: Octal, l: Octal :: !DeadEnd(k, Sub(Top, m, l))
    {
      hide Links.Contents;
      forall w
        ensures w !in k.Contents()
      {
        KeysOf(k, w);
        AboveTop(w);
        if w in k.Contents() {
          var m, l := ChildOnWay(k, Top, w);
        }
      }
      forall m: Octal, l: Octal
        ensures Sub(Top, m, l) !in k.n
      {
        assert Sub(Top, m, l).up == Top;
      }
    }

    lemma TableThenDeadEnd()
      requires Valid() && !NoTableAt(k, Top)
      ensures k.Contents() != map[] || exists m: Octal, l: Octal :: DeadEnd(k, Sub(Top, m, l))
    {
      hide DeadEnd, Links.Contents;
      var m: Octal :| Slot(Top, m) in k.t;
      var l := ChildIn(Top, m);
      if k.Contents() == map[] {
        EmptyDeadEnd(Sub(Top, m, l));
      }
    }

    // st_lookup_string
    method LookupString(string_: CString) returns (r: Lookup<object?>)
      requires Valid()
      ensures string_.NoString? || string_.chars == [] ==> r == Found(null)
      ensures string_.Str? ==> (r.NullDereference? <==> DeadEnd(k, PathOf(string_.chars)))
      ensures string_.Str? && string_.chars != [] && r.Found? ==> (
        if PathOf(string_.chars) in k.Contents() then r.data == k.Contents()[PathOf(string_.chars)]
        else IsCompletion(k, PathOf(string_.chars), r.data))
    {
      hide *;
      ValidView();
      if string_.NoString? || string_.chars == [] {
        NoKey(string_);
        return Found(null);
      }
      ghost var q := PathOf(string_.chars);
      NonEmptyPath(string_.chars);
      var node := FindNode(string_.chars);
      if node == null {
        NotThere(q);
        return Found(null);
      }
      DataOf(q);
      if node.data != null {
        NotDeadEnd(k, q);
        return Found(node.data);
      }
      var only := GetTheOnlyChild(node, q);
      r := match only
        case NullDereference => NullDereference
        case Found(n) => Found(if n == null then null else n.data);
    }

    lemma NoKey(string_: CString)
      requires string_.NoString? || string_.chars == []
      ensures string_.Str? ==> !DeadEnd(k, PathOf(string_.chars))
    {
    }

    lemma NotThere(q: Path)
      requires Valid() && q !in k.n
      ensures !DeadEnd(k, q) && q !in k.Contents() && IsCompletion(k, q, null)
    {
      hide Valid, Shape, Links.Contents, Links.Good, Links.Ok;
      ValidView();
      MissingKey(k, q);
      GoodAliveBut(k, q);
      forall w
        ensures !Completes(k, q, w)
      {
        KeysOf(k, w);
        KeysView(k);
        if Completes(k, q, w) {
          ShapeClosed();
          AboveIn(k, q, w);
        }
      }
    }

    lemma KeyHasNode(q: Path)
      requires Valid() && q in k.Contents()
      ensures q in k.n
    {
      KeysOf(k, q);
    }

    lemma EmptyDeadEnd(q: Path)
      requires Valid() && k.Contents() == map[] && q in k.n && q.Sub?
      ensures DeadEnd(k, q)
    {
      forall m: Octal
        ensures Slot(q, m) !in k.t
      {
        if Slot(q, m) in k.t {
          var l := ChildIn(q, m);
          ChildDepth(q, m, l);
          var w := LiveCompletes(k, Sub(q, m, l));
        }
      }
    }
  }

  // st_foreach_data. func is called on every key shorter than 64 characters, once and in the order
  // of the codes, with a string that folds to the key.
  method ForEachData(trie: Trie) returns (calls: seq<Call>)
    requires trie.Valid()
    ensures CallsFor(trie.k.Contents(), 64, calls)
  {
    hide *;
    var buf := new Byte[64];
    trie.ValidView();
    trie.ShapeView();
    SpellNothing(buf[..]);
    ghost var keys;
    calls, keys := ForEachFrom(trie, trie.root, buf, 0, Top);
    VisitsAll(trie.k, 64, calls, keys);
  }

  method PutByte(buf: array<Byte>, idx: nat, c: Byte, ghost p: Path)
    requires Spells(buf[..], p) && idx == Depth(p) && idx < buf.Length
    modifies buf
    ensures Spells(buf[..], p) && buf[..][idx] == c
  {
    hide Unfold;
    buf[idx] := c;
  }

  // __st_foreach_data
  method ForEachFrom(trie: Trie, node: StRoot, buf: array<Byte>, idx: nat, ghost p: Path)
    returns (calls: seq<Call>, ghost keys: seq<Path>)
    requires trie.Shape() && p in trie.k.n && trie.k.n[p] == node && idx == Depth(p) && Spells(buf[..], p)
    modifies buf
    ensures trie.Shape() && Spells(buf[..], p)
    ensures Visits(trie.k, p, buf.Length, calls, keys)
    decreases buf.Length - idx, 1
  {
    hide *;
    calls, keys := [], [];
    if idx >= buf.Length {
      VisitsDeep(trie.k, p, buf.Length);
      return;
    }
    trie.DataOf(p);
    if node.data != null {
      PutByte(buf, idx, 0, p);
      SpelledString(buf[..], p);
      calls, keys := [Call(node.data, UntilZero(buf[..]))], [p];
      VisitedSelf(trie.k, p, buf.Length);
    } else {
      VisitedNone(trie.k, p, buf.Length);
    }
    for i := 0 to 8
      invariant trie.Shape() && Spells(buf[..], p)
      invariant Visited(trie.k, p, i * 8, buf.Length, calls, keys)
    {
      trie.Entries(p, i, 0);
      var lsb := node.msb[i];
      if lsb == null {
        trie.ShapeView();
        VisitedSkipTable(trie.k, p, i, buf.Length, calls, keys);
      } else {
        calls, keys := ForEachIn(trie, lsb, buf, idx, i, p, calls, keys);
      }
    }
    VisitedAll(trie.k, p, buf.Length, calls, keys);
  }

  // The inner loop of __st_foreach_data: the nodes of one table.
  method ForEachIn(trie: Trie, lsb: StLsb, buf: array<Byte>, idx: nat, i: Octal, ghost p: Path,
                   before: seq<Call>, ghost seen: seq<Path>)
    returns (calls: seq<Call>, ghost keys: seq<Path>)
    requires trie.Shape() && p in trie.k.n && Slot(p, i) in trie.k.t && trie.k.t[Slot(p, i)] == lsb
    requires idx == Depth(p) && idx < buf.Length && Spells(buf[..], p)
    requires Visited(trie.k, p, i * 8, buf.Length, before, seen)
    modifies buf
    ensures trie.Shape() && Spells(buf[..], p)
    ensures Visited(trie.k, p, i * 8 + 8, buf.Length, calls, keys)
    decreases buf.Length - idx, 0
  {
    hide *;
    calls, keys := before, seen;
    for j := 0 to 8
      invariant trie.Shape() && Spells(buf[..], p)
      invariant Visited(trie.k, p, i * 8 + j, buf.Length, calls, keys)
    {
      trie.Entries(p, i, j);
      var next := lsb.lsb[j];
      if next == null {
        VisitedSkip(trie.k, p, i, j, buf.Length, calls, keys);
      } else {
        PutByte(buf, idx, FromMsbLsb(i, j), p);
        SpellMore(buf[..], p, i, j);
        DepthOfSub(p, i, j);
        var calls', keys' := ForEachFrom(trie, next, buf, idx + 1, Sub(p, i, j));
        SpellLess(buf[..], p, i, j);
        VisitedMore(trie.k, p, i, j, buf.Length, calls, keys, calls', keys');
        calls, keys := calls + calls', keys + keys';
      }
    }
  }

  // ----- runs of st_add_string and st_rm_string -----

  datatype Edit = Add(key: CString, data: object) | Rm(key: CString)

  ghost predicate Adds(e: Edit) {
    e.Add? && e.key.Str? && e.key.chars != []
  }

  // The map the last of the edits leaves.
  ghost function Edited(es: seq<Edit>): map<Path, object> {
    if es == [] then map[]
    else
      var m, e := Edited(es[..|es| - 1]), es[|es| - 1];
      if Adds(e) then m[PathOf(e.key.chars) := e.data] else if e.Rm? && e.key.Str? then m - {PathOf(e.key.chars)} else m
  }

  // The first codes of all keys that were ever added.
  ghost function Begun(es: seq<Edit>): set<Path> {
    if es == [] then {}
    else
      var e := es[|es| - 1];
      Begun(es[..|es| - 1]) + if Adds(e) then {First(PathOf(e.key.chars))} else {}
  }

  lemma EditedMore(es: seq<Edit>, i: nat)
    requires i < |es|
    ensures var m, e := Edited(es[..i]), es[i];
      Edited(es[..i + 1]) ==
      if Adds(e) then m[PathOf(e.key.chars) := e.data] else if e.Rm? && e.key.Str? then m - {PathOf(e.key.chars)} else m
    ensures Begun(es[..i + 1]) == Begun(es[..i]) + if Adds(es[i]) then {First(PathOf(es[i].key.chars))} else {}
  {
    assert es[..i + 1][..i] == es[..i];
  }

  // Over every run the trie is the map that the edits make, and its nodes one code deep are those of
  // all keys there ever were.
  method Replay(es: seq<Edit>) returns (trie: Trie)
    ensures fresh(trie) && trie.Valid() && trie.k.Contents() == Edited(es) && Starts(trie.k, Begun(es))
  {
    hide *;
    trie := new Trie();
    NothingYet(es, trie.k);
    for i := 0 to |es|
      invariant fresh(trie) && fresh(trie.roots) && fresh(trie.tables)
      invariant trie.Valid() && trie.k.Contents() == Edited(es[..i]) && Starts(trie.k, Begun(es[..i]))
    {
      ghost var k0, b := trie.k, Begun(es[..i]);
      EditedMore(es, i);
      AddsView(es[i]);
      assert b + {} == b;
      match es[i] {
        case Add(key, data) =>
          var r := trie.AddString(key, data);
          if r == 0 {
            NonEmptyPath(key.chars);
            StartsGrown(k0, trie.k, PathOf(key.chars), b);
          }
        case Rm(key) =>
          var d := trie.RmString(key);
          StartsKept(k0, trie.k, b);
      }
    }
    assert es[..|es|] == es;
  }

  lemma AddsView(e: Edit)
    ensures Adds(e) <==> e.Add? && e.key.Str? && e.key.chars != []
  {
  }

  lemma NothingYet(es: seq<Edit>, k: Links)
    requires k.n.Keys == {Top}
    ensures Edited(es[..0]) == map[] && Begun(es[..0]) == {} && Starts(k, {})
  {
  }

  // After any run, the prefix lookup follows a null pointer exactly for single characters that a key
  // once began with and none does now.
  method LookupAfter(es: seq<Edit>, s: seq<Char>) returns (r: Lookup<object?>)
    ensures r.NullDereference? <==>
      |s| == 1 && PathOf(s) in Begun(es) && forall w :: w in Edited(es) ==> !Above(PathOf(s), w)
    ensures r.Found? && PathOf(s) in Edited(es) ==> r.data == Edited(es)[PathOf(s)]
  {
    hide Trie.Valid, Links.Contents, Links.Good, Edited, Begun, PathOf, DeadEnd, Starts, IsCompletion;
    var trie := Replay(es);
    trie.ValidView();
    PathOfDepth(s);
    DeadEndIff(trie.k, Begun(es), PathOf(s));
    NoCompletion(trie.k, PathOf(s));
    hide Completes;
    if s == [] {
      EmptyKey(trie.k, Str(s));
    }
    r := trie.LookupString(Str(s));
  }

  // The dead end is there to be met: "a" is stored and removed, and st_lookup_string("a") follows null.
  method DeadEndLeftBehind(data: object) returns (trie: Trie, r: Lookup<object?>)
    ensures fresh(trie) && trie.Valid() && trie.k.Contents() == map[] && r == NullDereference
  {
    hide *;
    trie := new Trie();
    var a := Str(['a' as int]);
    ghost var q := PathOf(a.chars);
    OneCharacter(a.chars);
    var added := trie.AddString(a, data);
    trie.KeyHasNode(q);
    var removed := trie.RmString(a);
    trie.EmptyDeadEnd(q);
    r := trie.LookupString(a);
  }
}

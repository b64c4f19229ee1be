// The nodes and tables of a string trie as values: what links them, and what each change of
// one entry keeps.
module TrieLinks {
  import opened CharCodes

  // struct st_root: a node, with a table for the high three bits of the next code.
  class StRoot {
    var msb: seq<StLsb?>
    var data: object?

    constructor ()
      ensures msb == Nulls8<StLsb?>(null) && data == null
    {
      msb, data := Nulls8(null), null;
    }
  }

  // struct st_lsb: the nodes for the low three bits.
  class StLsb {
    var lsb: seq<StRoot?>

    constructor ()
      ensures lsb == Nulls8<StRoot?>(null)
    {
      lsb := Nulls8(null);
    }
  }

  function Nulls8<T>(x: T): (s: seq<T>)
    ensures |s| == 8 && forall i :: 0 <= i < 8 ==> s[i] == x
  {
    [x, x, x, x, x, x, x, x]
  }

  // The table for the high bits msb at the node of path.
  datatype Slot = Slot(path: Path, msb: Octal)

  type Nodes = map<Path, StRoot>
  type Lsbs = map<Slot, StLsb>

  // The nodes and tables of a trie by the place they sit at, and what they hold.
  datatype Links = Links(n: Nodes, t: Lsbs, ms: map<Path, seq<StLsb?>>, ls: map<Slot, seq<StRoot?>>,
                         ds: map<Path, object?>) {

    // The stored keys with their data.
    function Contents(): map<Path, object> {
      map p | p in ds && ds[p] != null :: ds[p]
    }

    // Each node and table sits at one place, and the entries are exactly the places known.
    ghost predicate Ok() {
      Injective() && Closed() && MsbsOk() && LsbsOk()
    }

    ghost predicate Injective() {
      && (forall p, q :: p in n && q in n && n[p] == n[q] ==> p == q)
      && (forall x, y :: x in t && y in t && t[x] == t[y] ==> x == y)
    }

    ghost predicate Closed() {
      && Top in n && ds.Keys == n.Keys
      && (forall x :: x in t ==> x.path in n)
      && (forall p {:trigger p.up} :: p in n && p.Sub? ==> Slot(p.up, p.msb) in t)
    }

    ghost predicate MsbsOk() {
      && ms.Keys == n.Keys
      && (forall p :: p in n ==> |ms[p]| == 8)
      && (forall p, m: Octal :: p in n ==> ms[p][m] == if Slot(p, m) in t then t[Slot(p, m)] else null)
    }

    ghost predicate HasTable(k0: Links, p: Path, m: Octal) {
      Slot(p, m) in t && p in k0.ms && m < |k0.ms[p]| && this == WithTable(k0, p, m, t[Slot(p, m)])
    }

    ghost predicate HasNode(k0: Links, p: Path, m: Octal, l: Octal) {
      && Sub(p, m, l) in n && Slot(p, m) in k0.ls && l < |k0.ls[Slot(p, m)]|
      && this == WithNode(k0, p, m, l, n[Sub(p, m, l)])
    }

    // Some node hangs in the table.
    ghost predicate Occupied(x: Slot) {
      exists l: Octal :: Sub(x.path, x.msb, l) in n
    }

    // A stored key is p or extends it.
    ghost predicate Live(p: Path) {
      exists q :: q in Contents() && Above(p, q)
    }

    // Every table holds a node, and every node two or more codes deep leads to a stored key;
    // the nodes on the way to q are not asked.
    ghost predicate AliveBut(q: Path) {
      && (forall x :: x in t ==> Occupied(x))
      && (forall p :: p in n && Depth(p) >= 2 && !Above(p, q) ==> Live(p))
    }

    // Top is above everything and has no node two codes deep above it.
    ghost predicate Good() {
      Ok() && Top !in Contents() && AliveBut(Top)
    }

    ghost predicate LsbsOk() {
      && ls.Keys == t.Keys
      && (forall x :: x in t ==> |ls[x]| == 8)
      && (forall p, m: Octal, l: Octal :: Slot(p, m) in t ==>
            ls[Slot(p, m)][l] == if Sub(p, m, l) in n then n[Sub(p, m, l)] else null)
    }
  }

  lemma {:induction false} AboveIn(k: Links, p: Path, q: Path)
    requires k.Closed() && q in k.n && Above(p, q)
    ensures p in k.n
  {
    if p != q {
      assert Slot(q.up, q.msb) in k.t;
      AboveIn(k, p, q.up);
    }
  }

  // What the two table entries for m and l at node p hold.
  lemma EntriesOf(k: Links, p: Path, m: Octal, l: Octal)
    requires k.Ok() && p in k.n
    ensures |k.ms[p]| == 8 && k.ms[p][m] == if Slot(p, m) in k.t then k.t[Slot(p, m)] else null
    ensures Slot(p, m) in k.t ==> (
      && |k.ls[Slot(p, m)]| == 8
      && k.ls[Slot(p, m)][l] == if Sub(p, m, l) in k.n then k.n[Sub(p, m, l)] else null)
    ensures Slot(p, m) !in k.t ==> Sub(p, m, l) !in k.n
  {
    assert Sub(p, m, l).up == p;
  }

  function WithTable(k: Links, p: Path, m: Octal, table: StLsb): Links
    requires p in k.ms && m < |k.ms[p]|
  {
    Links(k.n, k.t[Slot(p, m) := table], k.ms[p := k.ms[p][m := table]], k.ls[Slot(p, m) := Nulls8(null)], k.ds)
  }

  lemma TableAdded(k: Links, p: Path, m: Octal, table: StLsb)
    requires k.Ok() && p in k.n && Slot(p, m) !in k.t && table !in k.t.Values
    ensures |k.ms[p]| == 8 && WithTable(k, p, m, table).Ok()
  {
    NoChildren(k, p, m);
    hide Links.Injective, Links.Closed, Links.LsbsOk;
    TableInjective(k, p, m, table);
    TableClosed(k, p, m, table);
    TableMsbs(k, p, m, table);
    TableLsbs(k, p, m, table);
  }

  lemma TableInjective(k: Links, p: Path, m: Octal, table: StLsb)
    requires k.Injective() && p in k.ms && m < |k.ms[p]| && table !in k.t.Values
    ensures WithTable(k, p, m, table).Injective()
  {
  }

  lemma TableClosed(k: Links, p: Path, m: Octal, table: StLsb)
    requires k.Closed() && p in k.ms && p in k.n && m < |k.ms[p]|
    ensures WithTable(k, p, m, table).Closed()
  {
  }

  lemma TableMsbs(k: Links, p: Path, m: Octal, table: StLsb)
    requires k.MsbsOk() && p in k.n
    ensures |k.ms[p]| == 8 && WithTable(k, p, m, table).MsbsOk()
  {
  }

  lemma TableLsbs(k: Links, p: Path, m: Octal, table: StLsb)
    requires k.LsbsOk() && p in k.ms && m < |k.ms[p]| && forall l: Octal :: Sub(p, m, l) !in k.n
    ensures WithTable(k, p, m, table).LsbsOk()
  {
  }

  lemma NoChildren(k: Links, p: Path, m: Octal)
    requires k.Ok() && p in k.n && Slot(p, m) !in k.t
    ensures forall l: Octal :: Sub(p, m, l) !in k.n
  {
    forall l: Octal
      ensures Sub(p, m, l) !in k.n
    {
      EntriesOf(k, p, m, l);
    }
  }

  function WithNode(k: Links, p: Path, m: Octal, l: Octal, child: StRoot): Links
    requires Slot(p, m) in k.ls && l < |k.ls[Slot(p, m)]|
  {
    var q := Sub(p, m, l);
    Links(k.n[q := child], k.t, k.ms[q := Nulls8(null)], k.ls[Slot(p, m) := k.ls[Slot(p, m)][l := child]],
          k.ds[q := null])
  }

  lemma NodeAdded(k: Links, p: Path, m: Octal, l: Octal, child: StRoot)
    requires k.Ok() && Slot(p, m) in k.t && Sub(p, m, l) !in k.n && child !in k.n.Values
    ensures Slot(p, m) in k.ls && |k.ls[Slot(p, m)]| == 8 && WithNode(k, p, m, l, child).Ok()
  {
    NoTables(k, Sub(p, m, l));
    hide Links.Injective, Links.Closed, Links.MsbsOk;
    NodeInjective(k, p, m, l, child);
    NodeClosed(k, p, m, l, child);
    NodeMsbs(k, p, m, l, child);
    NodeLsbs(k, p, m, l, child);
  }

  lemma NodeHas(k: Links, p: Path, m: Octal, l: Octal, child: StRoot)
    requires Slot(p, m) in k.ls && |k.ls[Slot(p, m)]| == 8 && Top in k.n
    ensures (
      var k' := WithNode(k, p, m, l, child);
      k'.HasNode(k, p, m, l) && Top in k'.n && k'.n[Top] == k.n[Top] && Sub(p, m, l) in k'.n)
  {
  }

  lemma NoTables(k: Links, q: Path)
    requires k.Closed() && q !in k.n
    ensures forall m: Octal :: Slot(q, m) !in k.t
  {
    assert forall m: Octal :: Slot(q, m) in k.t ==> Slot(q, m).path in k.n;
  }

  lemma NodeInjective(k: Links, p: Path, m: Octal, l: Octal, child: StRoot)
    requires k.Injective() && Slot(p, m) in k.ls && l < |k.ls[Slot(p, m)]| && child !in k.n.Values
    ensures WithNode(k, p, m, l, child).Injective()
  {
  }

  lemma NodeClosed(k: Links, p: Path, m: Octal, l: Octal, child: StRoot)
    requires k.Closed() && Slot(p, m) in k.t && Slot(p, m) in k.ls && l < |k.ls[Slot(p, m)]|
    ensures WithNode(k, p, m, l, child).Closed()
  {
  }

  lemma NodeMsbs(k: Links, p: Path, m: Octal, l: Octal, child: StRoot)
    requires k.MsbsOk() && Slot(p, m) in k.ls && l < |k.ls[Slot(p, m)]| && forall m': Octal :: Slot(Sub(p, m, l), m') !in k.t
    ensures WithNode(k, p, m, l, child).MsbsOk()
  {
  }

  lemma NodeLsbs(k: Links, p: Path, m: Octal, l: Octal, child: StRoot)
    requires k.LsbsOk() && Slot(p, m) in k.t && Sub(p, m, l) !in k.n
    ensures |k.ls[Slot(p, m)]| == 8 && WithNode(k, p, m, l, child).LsbsOk()
  {
  }

  // The data of the node at q changes; q is a non-empty string's node.
  function WithData(k: Links, q: Path, d: object?): Links {
    k.(ds := k.ds[q := d])
  }

  lemma WithDataView(k: Links, q: Path, d: object?)
    ensures var k' := WithData(k, q, d); k'.n == k.n && k'.t == k.t
    ensures d != null ==> WithData(k, q, d).Contents() == k.Contents()[q := d]
    ensures d == null ==> WithData(k, q, d).Contents() == k.Contents() - {q}
  {
  }

  lemma DataSet(k: Links, q: Path, d: object)
    requires k.Ok() && k.AliveBut(q) && q in k.n && q.Sub? && Top !in k.Contents()
    ensures WithData(k, q, d).Good() && WithData(k, q, d).Contents() == k.Contents()[q := d]
  {
    var k' := WithData(k, q, d);
    OkWithData(k, q, d);
    WithDataView(k, q, d);
    DataAlive(k, k', q, d);
    assert Top !in k'.Contents();
  }

  lemma DataAlive(k: Links, k': Links, q: Path, d: object)
    requires k.AliveBut(q) && k'.n == k.n && k'.t == k.t && k'.Contents() == k.Contents()[q := d]
    ensures k'.AliveBut(Top)
  {
    hide WithData, Links.Contents;
    forall x | x in k'.t
      ensures k'.Occupied(x)
    {
      assert k.Occupied(x);
    }
    forall p | p in k'.n && Depth(p) >= 2
      ensures k'.Live(p)
    {
      if Above(p, q) {
        assert q in k'.Contents();
      } else {
        assert k.Live(p);
      }
    }
  }

  lemma OkWithData(k: Links, q: Path, d: object?)
    requires k.Ok() && q in k.n
    ensures WithData(k, q, d).Ok()
  {
    ClosedWithData(k, q, d);
    EntriesWithData(k, q, d);
    hide Links.Injective, Links.Closed, Links.MsbsOk, Links.LsbsOk;
  }

  lemma ClosedWithData(k: Links, q: Path, d: object?)
    requires k.Closed() && q in k.n
    ensures WithData(k, q, d).Closed()
  {
  }

  lemma EntriesWithData(k: Links, q: Path, d: object?)
    requires k.Injective() && k.MsbsOk() && k.LsbsOk()
    ensures WithData(k, q, d).Injective() && WithData(k, q, d).MsbsOk() && WithData(k, q, d).LsbsOk()
  {
  }

  lemma {:induction false} AboveTop(p: Path)
    ensures Above(Top, p)
    ensures Above(p, Top) ==> p == Top
  {
    if p.Sub? {
      AboveTop(p.up);
    }
  }

  lemma GoodAliveBut(k: Links, q: Path)
    requires k.Good()
    ensures k.Ok() && k.AliveBut(q) && Top in k.n && Top !in k.Contents()
  {
    forall p | p in k.n && Depth(p) >= 2
      ensures k.Live(p)
    {
      AboveTop(p);
    }
  }

  lemma TableView(k0: Links, k1: Links, p: Path, m: Octal)
    requires k1.HasTable(k0, p, m)
    ensures k1.n == k0.n && k1.t.Keys == k0.t.Keys + {Slot(p, m)} && k1.ds == k0.ds
  {
  }

  lemma NodeView(k0: Links, k1: Links, p: Path, m: Octal, l: Octal)
    requires k1.HasNode(k0, p, m, l)
    ensures k1.n.Keys == k0.n.Keys + {Sub(p, m, l)} && k1.t == k0.t && k1.ds == k0.ds[Sub(p, m, l) := null]
    ensures forall q :: q in k0.n && q != Sub(p, m, l) ==> q in k1.n && k1.n[q] == k0.n[q]
  {
  }

  lemma KeysView(k: Links)
    requires k.Ok()
    ensures k.ds.Keys == k.n.Keys && Top in k.n
  {
  }

  // The nodes are those there were, and those on the way to q.
  ghost predicate Grown(k0: Links, k: Links, q: Path) {
    forall r :: r in k.n <==> r in k0.n || Above(r, q)
  }

  lemma GrownStart(k: Links)
    requires Top in k.n
    ensures Grown(k, k, Top)
  {
    forall r | Above(r, Top)
      ensures r == Top
    {
      AboveTop(r);
    }
  }

  lemma GrownMore(k0: Links, k1: Links, k: Links, q: Path)
    requires q.Sub? && Grown(k0, k1, q.up) && k.n.Keys == k1.n.Keys + {q}
    ensures Grown(k0, k, q)
  {
    forall r
      ensures Above(r, q) <==> r == q || Above(r, q.up)
    {
    }
  }

  lemma GrownSame(k0: Links, k1: Links, k: Links, q: Path)
    requires Grown(k0, k1, q) && k.n == k1.n
    ensures Grown(k0, k, q)
  {
  }

  lemma GainedNode(k0: Links, k1: Links, k: Links, p: Path, m: Octal, l: Octal)
    requires k1.n == k0.n && if Sub(p, m, l) in k1.n then k == k1 else k.HasNode(k1, p, m, l)
    ensures k.n.Keys == k0.n.Keys + {Sub(p, m, l)}
  {
    if Sub(p, m, l) !in k1.n {
      NodeView(k1, k, p, m, l);
    }
  }

  lemma NodeStays(k0: Links, k1: Links, p: Path, m: Octal, l: Octal)
    requires p in k0.n && (k1 == k0 || k1.HasNode(k0, p, m, l))
    ensures p in k1.n && k1.t == k0.t
  {
  }

  lemma GrownAlive(k0: Links, k1: Links, k: Links, p: Path, m: Octal, l: Octal, q: Path)
    requires k0.AliveBut(q) && Above(Sub(p, m, l), q) && k0.Ok()
    requires if Slot(p, m) in k0.t then k1 == k0 else k1.HasTable(k0, p, m)
    requires if Sub(p, m, l) in k1.n then k == k1 else k.HasNode(k1, p, m, l)
    ensures k.AliveBut(q) && k.Contents() == k0.Contents()
  {
    hide *;
    var x, y := Slot(p, m), Sub(p, m, l);
    KeysView(k0);
    if x !in k0.t {
      TableView(k0, k1, p, m);
    }
    if y !in k1.n {
      NodeView(k1, k, p, m, l);
    }
    SameContents(k0, k, y);
    StillAlive(k0, k, x, y, q);
  }

  lemma SameContents(k0: Links, k: Links, y: Path)
    requires k.ds == k0.ds || (y !in k0.ds && k.ds == k0.ds[y := null])
    ensures k.Contents() == k0.Contents()
  {
  }

  lemma StillAlive(k0: Links, k: Links, x: Slot, y: Path, q: Path)
    requires k0.AliveBut(q) && Above(y, q) && y.Sub? && x == Slot(y.up, y.msb)
    requires k.t.Keys == k0.t.Keys + {x} && k.n.Keys == k0.n.Keys + {y} && k.Contents() == k0.Contents()
    ensures k.AliveBut(q)
  {
    forall z | z in k.t
      ensures k.Occupied(z)
    {
      if z == x {
        assert Sub(x.path, x.msb, y.lsb) in k.n;
      } else {
        assert k0.Occupied(z);
      }
    }
    forall p | p in k.n && Depth(p) >= 2 && !Above(p, q)
      ensures k.Live(p)
    {
      assert k0.Live(p);
    }
  }

  // The node at q goes, with its entry.
  function WithoutNode(k: Links, q: Path): Links
    requires q.Sub? && Slot(q.up, q.msb) in k.ls && q.lsb < |k.ls[Slot(q.up, q.msb)]|
  {
    var x := Slot(q.up, q.msb);
    Links(k.n - {q}, k.t, k.ms - {q}, k.ls[x := k.ls[x][q.lsb := null]], k.ds - {q})
  }

  // The table x goes, with its entry.
  function WithoutTable(k: Links, x: Slot): Links
    requires x.path in k.ms && x.msb < |k.ms[x.path]|
  {
    Links(k.n, k.t - {x}, k.ms[x.path := k.ms[x.path][x.msb := null]], k.ls - {x}, k.ds)
  }

  ghost predicate NoTableAt(k: Links, q: Path) {
    forall m: Octal :: Slot(q, m) !in k.t
  }

  lemma NodeRemoved(k: Links, q: Path)
    requires k.Ok() && q in k.n && q.Sub? && NoTableAt(k, q) && k.ds[q] == null
    ensures Slot(q.up, q.msb) in k.ls && |k.ls[Slot(q.up, q.msb)]| == 8
    ensures WithoutNode(k, q).Ok()
  {
    assert Slot(q.up, q.msb) in k.t;
    hide Links.Injective, Links.Closed, Links.MsbsOk, Links.LsbsOk;
    NodeGoneInjective(k, q);
    NodeGoneClosed(k, q);
    NodeGoneMsbs(k, q);
    NodeGoneLsbs(k, q);
  }

  lemma NodeGoneContents(k: Links, k': Links, q: Path)
    requires q in k.ds && k.ds[q] == null && k'.ds == k.ds - {q}
    ensures k'.Contents() == k.Contents()
  {
  }

  lemma NodeGoneInjective(k: Links, q: Path)
    requires k.Injective() && q.Sub? && Slot(q.up, q.msb) in k.ls && q.lsb < |k.ls[Slot(q.up, q.msb)]|
    ensures WithoutNode(k, q).Injective()
  {
  }

  lemma NodeGoneClosed(k: Links, q: Path)
    requires k.Closed() && q.Sub? && Slot(q.up, q.msb) in k.ls && q.lsb < |k.ls[Slot(q.up, q.msb)]| && NoTableAt(k, q)
    ensures WithoutNode(k, q).Closed()
  {
  }

  lemma NodeGoneMsbs(k: Links, q: Path)
    requires k.MsbsOk() && q.Sub? && Slot(q.up, q.msb) in k.ls && q.lsb < |k.ls[Slot(q.up, q.msb)]|
    ensures WithoutNode(k, q).MsbsOk()
  {
  }

  lemma NodeGoneLsbs(k: Links, q: Path)
    requires k.LsbsOk() && q.Sub? && Slot(q.up, q.msb) in k.t
    ensures Slot(q.up, q.msb) in k.ls && |k.ls[Slot(q.up, q.msb)]| == 8 && WithoutNode(k, q).LsbsOk()
  {
  }

  lemma TableRemoved(k: Links, x: Slot)
    requires k.Ok() && x in k.t && !k.Occupied(x)
    ensures x.path in k.ms && |k.ms[x.path]| == 8
    ensures WithoutTable(k, x).Ok() && WithoutTable(k, x).Contents() == k.Contents()
  {
    assert x.path in k.n && |k.ms[x.path]| == 8;
    hide Links.Injective, Links.Closed, Links.MsbsOk, Links.LsbsOk;
    TableGoneInjective(k, x);
    TableGoneClosed(k, x);
    TableGoneMsbs(k, x);
    TableGoneLsbs(k, x);
  }

  lemma TableGoneInjective(k: Links, x: Slot)
    requires k.Injective() && x.path in k.ms && |k.ms[x.path]| == 8
    ensures WithoutTable(k, x).Injective()
  {
  }

  lemma TableGoneClosed(k: Links, x: Slot)
    requires k.Closed() && x.path in k.ms && |k.ms[x.path]| == 8 && !k.Occupied(x)
    ensures WithoutTable(k, x).Closed()
  {
    forall p {:trigger p.up} | p in k.n && p.Sub?
      ensures Slot(p.up, p.msb) != x
    {
      assert p == Sub(p.up, p.msb, p.lsb);
    }
  }

  lemma TableGoneMsbs(k: Links, x: Slot)
    requires k.MsbsOk() && x.path in k.n && x.path in k.ms && |k.ms[x.path]| == 8
    ensures WithoutTable(k, x).MsbsOk()
  {
  }

  lemma TableGoneLsbs(k: Links, x: Slot)
    requires k.LsbsOk() && x.path in k.ms && |k.ms[x.path]| == 8
    ensures WithoutTable(k, x).LsbsOk()
  {
  }

  // Clearing the key q takes away no other node's key.
  lemma ClearedAlive(k: Links, q: Path)
    requires k.Good() && q in k.n
    ensures WithData(k, q, null).Ok() && WithData(k, q, null).AliveBut(q)
    ensures WithData(k, q, null).Contents() == k.Contents() - {q}
  {
    var k' := WithData(k, q, null);
    OkWithData(k, q, null);
    WithDataView(k, q, null);
    hide *;
    DataGoneAlive(k, k', q);
  }

  lemma DataGoneAlive(k: Links, k': Links, q: Path)
    requires k.Good() && k'.n == k.n && k'.t == k.t && k'.Contents() == k.Contents() - {q}
    ensures k'.AliveBut(q)
  {
    hide Links.Ok, Links.Contents;
    forall x | x in k'.t
      ensures k'.Occupied(x)
    {
      assert k.Occupied(x);
    }
    forall p | p in k'.n && Depth(p) >= 2 && !Above(p, q)
      ensures k'.Live(p)
    {
      AboveTop(p);
      assert k.Live(p);
    }
  }

  // With its node at q gone, every table but the one it hung in still holds a node.
  lemma NodeGoneAlive(k: Links, k': Links, q: Path)
    requires k.AliveBut(q) && q.Sub? && k'.n == k.n - {q} && k'.t == k.t && k'.Contents() == k.Contents()
    ensures forall x :: x in k'.t && x != Slot(q.up, q.msb) ==> k'.Occupied(x)
    ensures forall p :: p in k'.n && Depth(p) >= 2 && !Above(p, q.up) ==> k'.Live(p)
  {
    hide Links.Contents;
    forall x | x in k'.t && x != Slot(q.up, q.msb)
      ensures k'.Occupied(x)
    {
      assert k.Occupied(x);
      var l: Octal :| Sub(x.path, x.msb, l) in k.n;
      assert Sub(x.path, x.msb, l) != q;
    }
    forall p | p in k'.n && Depth(p) >= 2 && !Above(p, q.up)
      ensures k'.Live(p)
    {
      assert k.Live(p);
    }
  }

  lemma TableGoneAlive(k: Links, k': Links, x: Slot)
    requires k'.n == k.n && k'.t == k.t - {x} && k'.Contents() == k.Contents()
    requires forall y :: y in k.t && y != x ==> k.Occupied(y)
    requires forall p :: p in k.n && Depth(p) >= 2 && !Above(p, x.path) ==> k.Live(p)
    ensures k'.AliveBut(x.path)
  {
    hide Links.Contents;
    forall y | y in k'.t
      ensures k'.Occupied(y)
    {
      assert k.Occupied(y);
    }
    forall p | p in k'.n && Depth(p) >= 2 && !Above(p, x.path)
      ensures k'.Live(p)
    {
      assert k.Live(p);
    }
  }

  // A key at or below q keeps everything above q alive.
  lemma KeyKeeps(k: Links, q: Path, w: Path)
    requires k.AliveBut(q) && w in k.Contents() && Above(q, w)
    ensures k.AliveBut(Top)
  {
    hide Links.Contents;
    forall p | p in k.n && Depth(p) >= 2
      ensures k.Live(p)
    {
      if Above(p, q) {
        AboveTrans(p, q, w);
      }
    }
  }

  // So does any node below q that is two codes deep.
  lemma ChildKeeps(k: Links, q: Path, r: Path)
    requires k.AliveBut(q) && r in k.n && r.Sub? && r.up == q && Depth(r) >= 2
    ensures k.AliveBut(Top)
  {
    if Above(r, q) {
      AboveDepth(r, q);
    }
    assert k.Live(r);
    var w :| w in k.Contents() && Above(r, w);
    hide Links.Contents;
    AboveTrans(q, r, w);
    KeyKeeps(k, q, w);
  }

  // Above a node one code deep there is nothing to keep alive.
  lemma ShallowKeeps(k: Links, q: Path)
    requires k.AliveBut(q) && Depth(q) <= 1
    ensures k.AliveBut(Top)
  {
    forall p | p in k.n && Depth(p) >= 2
      ensures k.Live(p)
    {
      if Above(p, q) {
        AboveDepth(p, q);
      }
    }
  }

  lemma WithoutNodeView(k: Links, q: Path)
    requires q.Sub? && Slot(q.up, q.msb) in k.ls && q.lsb < |k.ls[Slot(q.up, q.msb)]|
    ensures var k' := WithoutNode(k, q); k'.n == k.n - {q} && k'.t == k.t && k'.ds == k.ds - {q}
  {
  }

  lemma WithoutTableView(k: Links, x: Slot)
    requires x.path in k.ms && x.msb < |k.ms[x.path]|
    ensures var k' := WithoutTable(k, x); k'.n == k.n && k'.t == k.t - {x} && k'.ds == k.ds
  {
  }

  // st_rm_string's struct pair: a node on the way to the string, and its table for the next code.
  datatype Pair = Pair(root: StRoot, lsb: StLsb)

  ghost predicate At(k: Links, p: Path, m: Octal, x: Pair) {
    p in k.n && k.n[p] == x.root && Slot(p, m) in k.t && k.t[Slot(p, m)] == x.lsb
  }

  ghost predicate OnPath(k: Links, s: seq<Char>, path: seq<Pair>, n: nat) {
    n <= |s| && n <= |path| && forall j :: 0 <= j < n ==> At(k, PathOf(s[..j]), Msb(s[j]), path[j])
  }

  // What goes below does not change what the path above points to.
  lemma OnPathAbove(k: Links, k': Links, s: seq<Char>, path: seq<Pair>, i: nat)
    requires i < |s| && OnPath(k, s, path, i + 1)
    requires k'.n == k.n - {PathOf(s[..i + 1])} && k'.t == k.t - {Slot(PathOf(s[..i]), Msb(s[i]))}
    ensures OnPath(k', s, path, i)
  {
    forall j | 0 <= j < i
      ensures At(k', PathOf(s[..j]), Msb(s[j]), path[j])
    {
      assert At(k, PathOf(s[..j]), Msb(s[j]), path[j]);
      PathOfDepth(s[..j]);
      PathOfDepth(s[..i]);
      PathOfDepth(s[..i + 1]);
    }
  }

  lemma OnPathLonger(k: Links, s: seq<Char>, path: seq<Pair>, i: nat, x: Pair)
    requires i < |s| && |path| == i && OnPath(k, s, path, i) && At(k, PathOf(s[..i]), Msb(s[i]), x)
    ensures OnPath(k, s, path + [x], i + 1)
  {
  }

  lemma AtView(k: Links, p: Path, m: Octal, x: Pair)
    requires At(k, p, m, x)
    ensures p in k.n && k.n[p] == x.root && Slot(p, m) in k.t && k.t[Slot(p, m)] == x.lsb
  {
  }

  lemma AboveSelf(p: Path)
    ensures Above(p, p)
  {
  }

  lemma OccupiedAlive(k: Links, p: Path, m: Octal)
    requires k.Occupied(Slot(p, m))
    requires forall x :: x in k.t && x != Slot(p, m) ==> k.Occupied(x)
    requires forall r :: r in k.n && Depth(r) >= 2 && !Above(r, p) ==> k.Live(r)
    ensures k.AliveBut(p)
  {
  }

  lemma OtherTable(k: Links, p: Path)
    requires !NoTableAt(k, p)
    ensures exists m: Octal :: Slot(p, m) in k.t
  {
  }

  lemma AliveOccupied(k: Links, p: Path, m: Octal)
    requires k.AliveBut(p) && Slot(p, m) in k.t
    ensures k.Occupied(Slot(p, m))
  {
  }

  lemma IntoAt(k: Links, p: Path, m: Octal, x: Pair)
    requires p in k.n && k.n[p] == x.root && Slot(p, m) in k.t && k.t[Slot(p, m)] == x.lsb
    ensures At(k, p, m, x)
  {
  }

  lemma EmptyOnPath(k: Links, s: seq<Char>)
    ensures OnPath(k, s, [], 0)
  {
  }

  lemma OnPathAt(k: Links, s: seq<Char>, path: seq<Pair>, i: nat)
    requires i < |s| && OnPath(k, s, path, i + 1)
    ensures i < |path| && At(k, PathOf(s[..i]), Msb(s[i]), path[i])
  {
  }

  lemma OnPathSame(k: Links, k': Links, s: seq<Char>, path: seq<Pair>)
    requires OnPath(k, s, path, |s|) && k'.n == k.n && k'.t == k.t
    ensures OnPath(k', s, path, |s|)
  {
    hide PathOf;
  }

  lemma KeysOf(k: Links, q: Path)
    ensures q in k.Contents() ==> q in k.ds
  {
  }

  lemma WithoutAbsent<K, V>(m: map<K, V>, q: K)
    requires q !in m
    ensures m - {q} == m
  {
  }

  lemma EmptyKey(k: Links, string_: CString)
    requires k.Good() && (string_.NoString? || string_.chars == [])
    ensures string_.Str? ==> PathOf(string_.chars) !in k.Contents() && k.Contents() == k.Contents() - {PathOf(string_.chars)}
  {
    hide Links.Ok, Links.AliveBut, Links.Contents;
    if string_.Str? {
      WithoutAbsent(k.Contents(), Top);
    }
  }

  lemma MissingKey(k: Links, q: Path)
    requires k.Good() && q !in k.n
    ensures q !in k.Contents() && k.Contents() == k.Contents() - {q}
  {
    GoodAliveBut(k, q);
    KeysView(k);
    KeysOf(k, q);
    hide *;
    WithoutAbsent(k.Contents(), q);
  }

  lemma IntoGood(k: Links, k0: Links, q: Path)
    requires k0.Good() && k.Ok() && k.AliveBut(Top) && k.Contents() == k0.Contents() - {q}
    ensures k.Good()
  {
  }
}

// Owners, links and system lists of civilisations as values: what each spawn and growth step
// keeps, and what that says about the link graph.
module CivGraph {
  import opened Universes

  // Who owns which system, which systems are linked, and each civ's list of systems.
  datatype Sky = Sky(owner: map<System, Civ?>, links: map<System, seq<System>>, lists: map<Civ, seq<System>>) {

    ghost predicate Ok() {
      OwnersOk() && LinksOk() && TreesOk()
    }

    // The lists are disjoint and cover exactly the owned systems.
    ghost predicate OwnersOk() {
      && (forall s :: s in owner && owner[s] != null ==> owner[s] in lists && s in lists[owner[s]])
      && (forall c, s :: c in lists && s in lists[c] ==> s in owner && owner[s] == c)
      && (forall c :: c in lists ==> NoRepeat(lists[c]))
    }

    // Links are symmetric, and join systems of one owner.
    ghost predicate LinksOk() {
      && links.Keys == owner.Keys
      && (forall s :: s in links ==> NoRepeat(links[s]) && s !in links[s])
      && (forall s, t :: s in links && t in links[s] ==>
            t in links && s in links[t] && owner[s] != null && owner[t] == owner[s])
    }

    // Each system of a list but the first is linked to exactly one earlier one.
    ghost predicate TreesOk() {
      forall c, i: nat :: c in lists && 0 < i < |lists[c]| ==> OneEarlier(lists[c], i)
    }

    ghost predicate Linked(s: System, t: System) {
      s in links && t in links[s]
    }

    ghost predicate OneEarlier(l: seq<System>, i: nat)
      requires i < |l|
    {
      exists j: nat :: j < i && Linked(l[i], l[j]) && forall h: nat :: h < i && Linked(l[i], l[h]) ==> h == j
    }

    // No link leaves the set.
    ghost predicate Closed(v: set<System>) {
      forall s, t :: s in v && s in links && t in links[s] ==> t in v
    }

    ghost function Owned(): set<System> {
      set s | s in owner && owner[s] != null
    }
  }

  ghost predicate NoRepeat(l: seq<System>) {
    forall i, j :: 0 <= i < j < |l| ==> l[i] != l[j]
  }

  // A civ without systems takes an unowned one as its home.
  function Spawned(k: Sky, c: Civ, s: System): Sky {
    Sky(k.owner[s := c], k.links, k.lists[c := [s]])
  }

  // A civ takes the unowned system s and links it to its own system t.
  function Grown(k: Sky, c: Civ, s: System, t: System): Sky
    requires s in k.links && t in k.links && c in k.lists
  {
    Sky(k.owner[s := c], k.links[s := k.links[s] + [t]][t := k.links[t] + [s]], k.lists[c := k.lists[c] + [s]])
  }

  // Owners once set stay, and links once made.
  ghost predicate Kept(k0: Sky, k1: Sky) {
    && (forall s :: s in k0.owner && k0.owner[s] != null ==> s in k1.owner && k1.owner[s] == k0.owner[s])
    && (forall s :: s in k0.links ==> s in k1.links && k0.links[s] <= k1.links[s])
  }

  lemma KeptSelf(k: Sky)
    ensures Kept(k, k)
  {
  }

  lemma SameOwners(k0: Sky, k1: Sky)
    requires k1.owner == k0.owner && k1.links == k0.links
    ensures Kept(k0, k1)
  {
  }

  lemma KeptTrans(k0: Sky, k1: Sky, k2: Sky)
    requires Kept(k0, k1) && Kept(k1, k2)
    ensures Kept(k0, k2)
  {
    forall s | s in k0.links
      ensures s in k2.links && k0.links[s] <= k2.links[s]
    {
      assert k0.links[s] <= k1.links[s] <= k2.links[s];
    }
  }

  lemma SpawnedKept(k: Sky, c: Civ, s: System)
    requires s in k.owner && k.owner[s] == null
    ensures Kept(k, Spawned(k, c, s))
  {
  }

  lemma GrownKept(k: Sky, c: Civ, s: System, t: System)
    requires s in k.links && t in k.links && c in k.lists && s in k.owner && k.owner[s] == null && s != t
    ensures Kept(k, Grown(k, c, s, t))
  {
  }

  lemma SpawnKeeps(k: Sky, c: Civ, s: System)
    requires k.Ok() && c in k.lists && k.lists[c] == [] && s in k.owner && k.owner[s] == null
    ensures Spawned(k, c, s).Ok() && |Spawned(k, c, s).Owned()| == |k.Owned()| + 1
  {
    var k' := Spawned(k, c, s);
    SpawnedOwners(k, c, s);
    SpawnedLinks(k, c, s);
    assert k'.Owned() == k.Owned() + {s};
    hide Sky.OwnersOk, Sky.LinksOk, Sky.Owned;
    forall d, i: nat | d in k'.lists && 0 < i < |k'.lists[d]|
      ensures k'.OneEarlier(k'.lists[d], i)
    {
      assert k.OneEarlier(k.lists[d], i);
      SameEarlier(k, k', k.lists[d], i);
    }
  }

  lemma SpawnedOwners(k: Sky, c: Civ, s: System)
    requires k.OwnersOk() && c in k.lists && k.lists[c] == [] && s in k.owner && k.owner[s] == null
    ensures Spawned(k, c, s).OwnersOk()
  {
  }

  lemma SpawnedLinks(k: Sky, c: Civ, s: System)
    requires k.LinksOk() && s in k.owner && k.owner[s] == null
    ensures Spawned(k, c, s).LinksOk()
  {
    forall x, y | x in k.links && y in k.links[x]
      ensures x != s && y != s
    {
      LinkOwned(k, x, y);
    }
  }

  lemma SameEarlier(k: Sky, k': Sky, l: seq<System>, i: nat)
    requires i < |l| && k.OneEarlier(l, i) && forall h: nat :: h < i ==> (k.Linked(l[i], l[h]) <==> k'.Linked(l[i], l[h]))
    ensures k'.OneEarlier(l, i)
  {
  }

  lemma GrowKeeps(k: Sky, c: Civ, s: System, t: System)
    requires k.Ok() && c in k.lists && t in k.lists[c] && s in k.owner && k.owner[s] == null
    ensures s in k.links && t in k.links && Grown(k, c, s, t).Ok()
    ensures |Grown(k, c, s, t).Owned()| == |k.Owned()| + 1
  {
    NewLinks(k, c, s, t);
    var k' := Grown(k, c, s, t);
    GrownOwners(k, c, s, t);
    GrownLinks(k, c, s, t);
    hide Sky.OwnersOk, Sky.LinksOk, Grown;
    forall d, i: nat | d in k'.lists && 0 < i < |k'.lists[d]|
      ensures k'.OneEarlier(k'.lists[d], i)
    {
      GrownTree(k, c, s, t, d, i);
    }
  }

  // An unowned system has no links, so only s and t get a new one.
  lemma NewLinks(k: Sky, c: Civ, s: System, t: System)
    requires k.Ok() && c in k.lists && t in k.lists[c] && s in k.owner && k.owner[s] == null
    ensures s != t && s in k.links && t in k.links && k.links[s] == [] && s !in k.links[t] && s !in k.lists[c]
    ensures forall x, y :: Grown(k, c, s, t).Linked(x, y) <==> k.Linked(x, y) || (x == s && y == t) || (x == t && y == s)
  {
    if k.links[s] != [] {
      LinkOwned(k, s, k.links[s][0]);
    }
    if s in k.links[t] {
      LinkOwned(k, t, s);
    }
  }

  lemma LinkOwned(k: Sky, s: System, t: System)
    requires k.LinksOk() && k.Linked(s, t)
    ensures k.owner[s] != null && t in k.owner && k.owner[t] == k.owner[s] && k.Linked(t, s)
  {
  }

  lemma GrownOwners(k: Sky, c: Civ, s: System, t: System)
    requires k.Ok() && c in k.lists && t in k.lists[c] && s in k.owner && k.owner[s] == null
    requires s in k.links && t in k.links && s !in k.lists[c]
    ensures Grown(k, c, s, t).OwnersOk() && Grown(k, c, s, t).Owned() == k.Owned() + {s}
  {
  }

  lemma GrownLinks(k: Sky, c: Civ, s: System, t: System)
    requires k.Ok() && c in k.lists && t in k.lists[c] && s in k.owner && k.owner[s] == null
    requires s != t && s in k.links && t in k.links && k.links[s] == [] && s !in k.links[t]
    ensures Grown(k, c, s, t).LinksOk()
  {
  }

  lemma GrownTree(k: Sky, c: Civ, s: System, t: System, d: Civ, i: nat)
    requires k.Ok() && c in k.lists && t in k.lists[c] && s in k.owner && k.owner[s] == null && s in k.links && t in k.links
    requires d in Grown(k, c, s, t).lists && 0 < i < |Grown(k, c, s, t).lists[d]|
    ensures Grown(k, c, s, t).OneEarlier(Grown(k, c, s, t).lists[d], i)
  {
    var k' := Grown(k, c, s, t);
    var l' := k'.lists[d];
    NewLinks(k, c, s, t);
    if d == c && i == |k.lists[c]| {
      var j: nat :| j < |k.lists[c]| && k.lists[c][j] == t;
      assert l'[i] == s && l'[j] == t && k'.Linked(l'[i], l'[j]);
      forall h: nat | h < i && k'.Linked(l'[i], l'[h])
        ensures h == j
      {
        assert !k.Linked(s, l'[h]);
        assert l'[h] == k.lists[c][h] == t;
      }
    } else {
      var l := k.lists[d];
      assert k.OneEarlier(l, i);
      forall h: nat | h < i
        ensures l'[h] == l[h] && l'[i] == l[i] && l[h] != s && l[i] != s
      {
        assert l[h] in l && l[i] in l;
      }
      SameEarlier(k, k', l, i);
      assert l'[..i + 1] == l[..i + 1];
      EarlierPrefix(k', l, l', i);
    }
  }

  lemma EarlierPrefix(k: Sky, l: seq<System>, l': seq<System>, i: nat)
    requires i < |l| && i < |l'| && l[..i + 1] == l'[..i + 1] && k.OneEarlier(l, i)
    ensures k.OneEarlier(l', i)
  {
    assert forall h: nat :: h <= i ==> l[..i + 1][h] == l[h] && l'[..i + 1][h] == l'[h];
  }

  // ----- what the invariant says about the link graph -----

  // The systems of a civ are closed under links ...
  lemma NoLinkLeaves(k: Sky, c: Civ)
    requires k.Ok() && c in k.lists
    ensures k.Closed(Members(k.lists[c]))
  {
    forall s, t | s in k.lists[c] && k.Linked(s, t)
      ensures t in k.lists[c]
    {
      LinkOwned(k, s, t);
    }
  }

  // ... and every closed set with one of them has them all: they are one component.
  lemma OneComponent(k: Sky, c: Civ, v: set<System>, i: nat, j: nat)
    requires k.Ok() && c in k.lists && i < |k.lists[c]| && j < |k.lists[c]| && k.Closed(v) && k.lists[c][i] in v
    ensures k.lists[c][j] in v
  {
    DownToHome(k, c, v, i);
    UpFromHome(k, c, v, j);
  }

  lemma {:induction false} DownToHome(k: Sky, c: Civ, v: set<System>, i: nat)
    requires k.Ok() && c in k.lists && i < |k.lists[c]| && k.Closed(v) && k.lists[c][i] in v
    ensures k.lists[c][0] in v
  {
    if i > 0 {
      var l := k.lists[c];
      assert k.OneEarlier(l, i);
      var j: nat :| j < i && k.Linked(l[i], l[j]);
      DownToHome(k, c, v, j);
    }
  }

  lemma {:induction false} UpFromHome(k: Sky, c: Civ, v: set<System>, i: nat)
    requires k.Ok() && c in k.lists && i < |k.lists[c]| && k.Closed(v) && k.lists[c][0] in v
    ensures k.lists[c][i] in v
  {
    if i > 0 {
      var l := k.lists[c];
      assert k.OneEarlier(l, i);
      var j: nat :| j < i && k.Linked(l[i], l[j]);
      UpFromHome(k, c, v, j);
      assert k.Linked(l[j], l[i]);
    }
  }

  // A ring of at least three different systems, each linked to the next.
  ghost predicate Cycle(k: Sky, r: seq<System>) {
    |r| >= 3 && NoRepeat(r) && Ring(k, r)
  }

  ghost predicate Ring(k: Sky, r: seq<System>)
    requires |r| > 0
  {
    && k.Linked(r[|r| - 1], r[0]) && forall i :: 0 < i < |r| ==> k.Linked(r[i - 1], r[i])
  }

  function Prev(i: nat, n: nat): nat
    requires i < n
  {
    if i == 0 then n - 1 else i - 1
  }

  function Next(i: nat, n: nat): nat
    requires i < n
  {
    if i == n - 1 then 0 else i + 1
  }

  lemma NoCycles(k: Sky, r: seq<System>)
    requires k.Ok()
    ensures !Cycle(k, r)
  {
    if Cycle(k, r) {
      var c := k.owner[r[0]];
      OneOwner(k, r, |r| - 1);
      var m := Latest(k, c, r, |r|);
      LatestTurnsBack(k, c, r, m);
    }
  }

  // Both neighbours of the latest member are earlier, so they are the same system.
  lemma LatestTurnsBack(k: Sky, c: Civ, r: seq<System>, m: nat)
    requires k.Ok() && |r| >= 3 && Ring(k, r) && c in k.lists && m < |r|
    requires forall j :: 0 <= j < |r| ==> r[j] in k.lists[c] && Before(k.lists[c], r[j], r[m])
    ensures r[Prev(m, |r|)] == r[Next(m, |r|)]
  {
    var l, n := k.lists[c], |r|;
    var x, y, z := r[m], r[Prev(m, n)], r[Next(m, n)];
    assert k.Linked(y, x) && k.Linked(x, z);
    var i: nat :| i < |l| && l[i] == x;
    var g: nat :| g < |l| && l[g] == y;
    var h: nat :| h < |l| && l[h] == z;
    assert Before(l, y, x) && Before(l, z, x);
    LinkOwned(k, y, x);
    assert g < i && h < i;
    OnlyOneEarlier(k, l, i, g, h);
  }

  lemma OnlyOneEarlier(k: Sky, l: seq<System>, i: nat, g: nat, h: nat)
    requires i < |l| && k.OneEarlier(l, i) && g < i && h < i && k.Linked(l[i], l[g]) && k.Linked(l[i], l[h])
    ensures g == h
  {
  }

  lemma {:induction false} OneOwner(k: Sky, r: seq<System>, i: nat)
    requires k.Ok() && Cycle(k, r) && i < |r|
    ensures r[0] in k.owner && k.owner[r[0]] != null && k.owner[r[0]] in k.lists
    ensures forall j :: 0 <= j <= i ==> r[j] in k.lists[k.owner[r[0]]]
  {
    if i > 0 {
      OneOwner(k, r, i - 1);
      LinkOwned(k, r[i - 1], r[i]);
    } else {
      assert k.Linked(r[1 - 1], r[1]);
      LinkOwned(k, r[0], r[1]);
    }
  }

  // x is nowhere after y in l.
  ghost predicate Before(l: seq<System>, x: System, y: System) {
    forall i, j :: 0 <= i < |l| && 0 <= j < |l| && l[i] == x && l[j] == y ==> i <= j
  }

  // The member of the ring that comes last in the list.
  lemma {:induction false} Latest(k: Sky, c: Civ, r: seq<System>, n: nat) returns (m: nat)
    requires k.OwnersOk() && c in k.lists && 0 < n <= |r| && forall j :: 0 <= j < n ==> r[j] in k.lists[c]
    ensures m < n && forall j :: 0 <= j < n ==> Before(k.lists[c], r[j], r[m])
  {
    if n == 1 {
      m := 0;
    } else {
      m := Latest(k, c, r, n - 1);
      if !Before(k.lists[c], r[n - 1], r[m]) {
        m := n - 1;
      }
    }
  }

  function Members(l: seq<System>): set<System> {
    set s | s in l
  }

  lemma {:induction false} SetSize(l: seq<System>)
    requires NoRepeat(l)
    ensures |Members(l)| == |l|
  {
    if l != [] {
      var u, x := l[..|l| - 1], l[|l| - 1];
      SetSize(u);
      assert Members(l) == Members(u) + {x};
      assert x !in u;
    }
  }

  // A civ without systems can be forgotten.
  lemma DropKeeps(k: Sky, c: Civ)
    requires k.Ok() && c in k.lists && k.lists[c] == []
    ensures Sky(k.owner, k.links, k.lists - {c}).Ok() && Sky(k.owner, k.links, k.lists - {c}).Owned() == k.Owned()
  {
    var k' := Sky(k.owner, k.links, k.lists - {c});
    assert k'.OwnersOk() && k'.LinksOk();
    forall d, i: nat | d in k'.lists && 0 < i < |k'.lists[d]|
      ensures k'.OneEarlier(k'.lists[d], i)
    {
      assert k.OneEarlier(k.lists[d], i);
      SameEarlier(k, k', k.lists[d], i);
    }
  }
}

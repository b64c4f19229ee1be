// civ.c: civilisations get a home and grow over neighbouring systems.
module Civs {
  import opened RbShape
  import opened Universes
  import opened CivGraph

  const TICK_PER_LY := 10000
  const CIV_MIN_BORDER_WIDTH := 200 * TICK_PER_LY
  const CIV_GROW_MIN_LY := 10 * TICK_PER_LY
  const CIV_GROW_STEP_LY := 10 * TICK_PER_LY
  const INITIAL_MIN_INTERCIV_DISTANCE_LY := 10 * CIV_MIN_BORDER_WIDTH

  predicate Free(k: Sky, s: System) {
    s in k.owner && k.owner[s] == null
  }

  // No system of the list has another owner, and some have none.
  ghost predicate AtBorder(k: Sky, l: seq<System>, c: Civ) {
    && (exists i :: 0 <= i < |l| && Free(k, l[i]))
    && forall i :: 0 <= i < |l| ==> Free(k, l[i]) || (l[i] in k.owner && k.owner[l[i]] == c)
  }

  // s is the first system without an owner.
  ghost predicate FirstFree(k: Sky, l: seq<System>, s: System) {
    exists i :: 0 <= i < |l| && l[i] == s && Free(k, s) && forall j :: 0 <= j < i ==> !Free(k, l[j])
  }

  ghost predicate NoneFree(k: Sky, l: seq<System>) {
    forall i :: 0 <= i < |l| ==> !Free(k, l[i])
  }

  // k tells the owners of these systems.
  ghost predicate Tells(k: Sky, l: seq<System>)
    reads l`owner
  {
    forall i :: 0 <= i < |l| ==> l[i] in k.owner && k.owner[l[i]] == l[i].owner
  }

  lemma AtBorderIs(k: Sky, l: seq<System>, c: Civ)
    requires Tells(k, l)
    ensures AtBorder(k, l, c) <==> (exists x :: x in l && x.owner == null) && forall x :: x in l ==> x.owner == null || x.owner == c
  {
    forall x | x in l
      ensures x in k.owner && k.owner[x] == x.owner
    {
    }
    if exists x :: x in l && x.owner == null {
      var x :| x in l && x.owner == null;
      var i :| 0 <= i < |l| && l[i] == x;
      assert Free(k, l[i]);
    }
  }

  // The loop of is_border_system.
  method ScanBorder(neigh: seq<System>, c: Civ, ghost k: Sky) returns (isBorder: bool)
    requires Tells(k, neigh)
    ensures isBorder == AtBorder(k, neigh, c)
  {
    isBorder := false;
    for i := 0 to |neigh|
      invariant isBorder <==> exists j :: 0 <= j < i && Free(k, neigh[j])
      invariant forall j :: 0 <= j < i ==> Free(k, neigh[j]) || k.owner[neigh[j]] == c
    {
      var s := neigh[i];
      if s.owner == null {
        isBorder := true;
      } else if s.owner != c {
        return false;
      }
    }
  }

  // The list loop of grow_civ; past the end the iterator is null.
  method ScanFree(neigh: seq<System>, ghost k: Sky) returns (s: System?)
    requires Tells(k, neigh)
    ensures s == null <==> NoneFree(k, neigh)
    ensures s != null ==> FirstFree(k, neigh, s)
  {
    for i := 0 to |neigh|
      invariant forall j :: 0 <= j < i ==> !Free(k, neigh[j])
    {
      if neigh[i].owner == null {
        return neigh[i];
      }
    }
    s := null;
  }

  lemma RadiusIs(turns: nat)
    ensures Radius(turns) == 100_000 * (turns + 1)
  {
  }

  // The radius after some turns of grow_civ's search.
  function Radius(turns: nat): int {
    CIV_GROW_MIN_LY + turns * CIV_GROW_STEP_LY
  }

  class Galaxy {
    const u: Universe
    var systems: seq<System>
    var civs: seq<Civ>
    var inhabitedSystems: nat

    ghost function Now(): Sky
      reads this`systems, this`civs, systems`owner, systems`links, civs`systems
    {
      Sky(map s | s in systems :: s.owner, map s | s in systems :: s.links, map c | c in civs :: c.systems)
    }

    // The index and the list of systems fit together.
    ghost predicate Placed()
      reads this`systems, u, u.xRbtree, Nodes(u.xRbtree.shape), u.known`x
    {
      && u.Valid() && Nodes(u.xRbtree.shape) <= u.entry.Keys && NoRepeat(systems)
      && (forall n :: n in Nodes(u.xRbtree.shape) ==> u.entry[n] in systems)
      && (forall s :: s in systems ==> s.xRbtree in u.entry && u.entry[s.xRbtree] == s)
    }

    // The civs' lists, with n owned systems.
    ghost predicate Settled(n: nat)
      reads this`systems, this`civs, systems`owner, systems`links, civs
    {
      Now().Ok() && |Now().Owned()| == n && Civilised()
    }

    ghost predicate Civilised()
      reads this`civs, civs
    {
      && (forall i, j :: 0 <= i < j < |civs| ==> civs[i] != civs[j])
      && (forall c :: c in civs ==>
            && (c.home == null <==> c.systems == [])
            && (c.home != null ==> c.systems[0] == c.home)
            && (forall s :: s in c.borderSystems ==> s in c.systems))
    }

    ghost predicate Valid()
      reads this, u, u.xRbtree, Nodes(u.xRbtree.shape), u.known`x, systems`owner, systems`links, civs
    {
      Placed() && Settled(inhabitedSystems)
    }

    constructor (universe: Universe, s: seq<System>, c: seq<Civ>)
      requires universe.Valid() && NoRepeat(s) && forall i, j :: 0 <= i < j < |c| ==> c[i] != c[j]
      requires forall n :: n in Nodes(universe.xRbtree.shape) ==> n in universe.entry && universe.entry[n] in s
      requires forall x :: x in s ==> x.xRbtree in universe.entry && universe.entry[x.xRbtree] == x
      requires forall x :: x in s ==> x.owner == null && x.links == []
      requires forall d :: d in c ==> d.home == null && d.systems == [] && d.borderSystems == []
      ensures Valid() && u == universe && systems == s && civs == c && inhabitedSystems == 0
    {
      hide NoRepeat, Settled, Placed;
      u, systems, civs, inhabitedSystems := universe, s, c, 0;
      new;
      Arranged();
      Unsettled();
    }

    lemma Arranged()
      requires u.Valid() && NoRepeat(systems)
      requires forall n :: n in Nodes(u.xRbtree.shape) ==> n in u.entry && u.entry[n] in systems
      requires forall x :: x in systems ==> x.xRbtree in u.entry && u.entry[x.xRbtree] == x
      ensures Placed()
    {
    }

    // Nobody owns anything yet.
    lemma Unsettled()
      requires forall x :: x in systems ==> x.owner == null && x.links == []
      requires forall d :: d in civs ==> d.home == null && d.systems == [] && d.borderSystems == []
      requires forall i, j :: 0 <= i < j < |civs| ==> civs[i] != civs[j]
      ensures Settled(0)
    {
      assert Now().Owned() == {};
    }

    // Some indexed system has no owner.
    ghost predicate RoomLeft()
      requires Placed()
      reads this`systems, u, u.xRbtree, Nodes(u.xRbtree.shape), u.known`x, systems`owner
    {
      exists n :: n in Nodes(u.xRbtree.shape) && u.entry[n].owner == null
    }

    // The neighbours are systems of the list, and the snapshot tells their owners.
    lemma FoundMembers(origin: System, d: int)
      requires Placed()
      ensures forall i :: 0 <= i < |u.Found(origin, d)| ==> u.Found(origin, d)[i] in systems
      ensures Tells(Now(), u.Found(origin, d))
      ensures forall n :: n in Nodes(u.xRbtree.shape) && SystemDistance(origin, u.entry[n]) < d ==>
        u.entry[n] in u.Found(origin, d)
    {
      u.FoundSystems(origin, d);
      hide Universe.Valid, Universe.Found, SystemDistance;
      var l := u.Found(origin, d);
      forall i | 0 <= i < |l|
        ensures l[i] in systems
      {
        assert l[i] in l;
      }
    }

    // get_neighbouring_systems changes nothing here.
    method Neighbours(origin: System, d: int) returns (neigh: seq<System>)
      requires Placed() && origin in u.known
      ensures Placed() && u.Valid() && neigh == u.Found(origin, d) && Now() == old(Now()) && Tells(Now(), neigh)
      ensures Civilised() == old(Civilised())
      ensures forall o, r :: o in u.known ==> u.Found(o, r) == old(u.Found(o, r))
    {
      hide Universe.Valid, Universe.Found, Tells, NoRepeat;
      neigh := u.Neighbours(origin, d);
      FoundMembers(origin, d);
    }

    // is_border_system
    method IsBorderSystem(system: System, c: Civ) returns (isBorder: bool)
      requires Placed() && system in u.known
      ensures Placed() && u.Valid() && Now() == old(Now()) && Civilised() == old(Civilised())
      ensures forall o, r :: o in u.known ==> u.Found(o, r) == old(u.Found(o, r))
      ensures isBorder == AtBorder(Now(), u.Found(system, CIV_MIN_BORDER_WIDTH), c)
      ensures isBorder <==>
        && (exists x :: x in u.Found(system, CIV_MIN_BORDER_WIDTH) && x.owner == null)
        && forall x :: x in u.Found(system, CIV_MIN_BORDER_WIDTH) ==> x.owner == null || x.owner == c
    {
      hide Universe.Valid, Universe.Found, AtBorder, Tells, NoRepeat;
      var neigh := Neighbours(system, CIV_MIN_BORDER_WIDTH);
      isBorder := ScanBorder(neigh, c, Now());
      AtBorderIs(Now(), neigh, c);
    }

    lemma SomeRoom() returns (far: RbNode)
      requires Placed() && RoomLeft()
      ensures u.Valid() && far in Nodes(u.xRbtree.shape) && far in u.entry && Free(Now(), u.entry[far])
    {
      far :| far in Nodes(u.xRbtree.shape) && u.entry[far].owner == null;
    }

    // A system without an owner that is closer than the radius is found.
    lemma NotWithin(t: System, radius: int, far: RbNode)
      requires Placed() && far in Nodes(u.xRbtree.shape) && far in u.entry && Free(Now(), u.entry[far])
      requires NoneFree(Now(), u.Found(t, radius))
      ensures SystemDistance(t, u.entry[far]) >= radius
    {
      FoundMembers(t, radius);
    }

    // One turn of grow_civ's search.
    method SearchWithin(t: System, radius: int) returns (found: System?)
      requires Placed() && t in u.known
      ensures Placed() && u.Valid() && Now() == old(Now()) && Civilised() == old(Civilised())
      ensures forall o, r :: o in u.known ==> u.Found(o, r) == old(u.Found(o, r))
      ensures if found == null then NoneFree(Now(), u.Found(t, radius)) else FirstFree(Now(), u.Found(t, radius), found)
    {
      hide Universe.Valid, Universe.Found, NoneFree, FirstFree, Free, Tells, NoRepeat;
      var neigh := Neighbours(t, radius);
      found := ScanFree(neigh, Now());
    }

    // The search of grow_civ: the first unowned system in the smallest circle that has one.
    method FindUnowned(t: System) returns (s: System, ghost turns: nat)
      requires Placed() && RoomLeft() && t in u.known
      ensures Placed() && u.Valid() && Now() == old(Now()) && Civilised() == old(Civilised())
      ensures FirstFree(Now(), old(u.Found(t, Radius(turns))), s)
      ensures forall i: nat :: i < turns ==> NoneFree(Now(), old(u.Found(t, Radius(i))))
    {
      hide *;
      ghost var far := SomeRoom();
      var radius := CIV_GROW_MIN_LY;
      turns := 0;
      FirstRadius();
      var found := SearchWithin(t, radius);
      while found == null
        invariant Placed() && u.Valid() && Now() == old(Now()) && radius == Radius(turns)
        invariant Civilised() == old(Civilised())
        invariant forall r :: u.Found(t, r) == old(u.Found(t, r))
        invariant if found == null then NoneFree(Now(), u.Found(t, radius)) else FirstFree(Now(), u.Found(t, radius), found)
        invariant forall i: nat :: i < turns ==> NoneFree(Now(), old(u.Found(t, Radius(i))))
        decreases SystemDistance(t, u.entry[far]) - radius, found == null
      {
        NotWithin(t, radius, far);
        NextRadius(turns);
        radius, turns := radius + CIV_GROW_STEP_LY, turns + 1;
        found := SearchWithin(t, radius);
      }
      s := found;
    }

    // s gets the owner c and is linked to t: the assignments of grow_civ and linksystems.
    method Assign(c: Civ, s: System, t: System)
      requires c in civs && s in systems && t in systems && s != t
      modifies s`owner, s`links, t`links, c`systems
      ensures s in old(Now()).links && t in old(Now()).links && c in old(Now()).lists
      ensures Now() == Grown(old(Now()), c, s, t) && c.systems == old(c.systems) + [s]
      ensures s.owner == c && s.links == old(s.links) + [t] && t.links == old(t.links) + [s]
    {
      s.owner := c;
      s.links := s.links + [t];
      t.links := t.links + [s];
      c.systems := c.systems + [s];
    }

    method Claim(c: Civ, s: System, t: System)
      requires c in civs && s in systems && t in systems && s != t && c.systems != [] && Placed() && Civilised()
      modifies s`owner, s`links, t`links, c`systems
      ensures Placed() && u.Valid() && Civilised()
      ensures s in old(Now()).links && t in old(Now()).links && c in old(Now()).lists
      ensures Now() == Grown(old(Now()), c, s, t) && c.systems == old(c.systems) + [s]
      ensures s.owner == c && s.links == old(s.links) + [t] && t.links == old(t.links) + [s]
    {
      hide NoRepeat, Now, Grown;
      Assign(c, s, t);
      PlacedView();
    }

    lemma IntoSettled(n: nat)
      requires Now().Ok() && |Now().Owned()| == n && Civilised()
      ensures Settled(n)
    {
    }

    lemma FreeHere(l: seq<System>, s: System)
      requires FirstFree(Now(), l, s)
      ensures s in systems && s.owner == null && s in Now().owner && Now().owner[s] == null
    {
    }

    lemma BorderHere(n: nat, c: Civ)
      requires Settled(n) && c in civs && c.borderSystems != []
      ensures Now().Ok() && |Now().Owned()| == n && Civilised() && c in Now().lists && Now().lists[c] == c.systems
      ensures c.borderSystems[0] in c.systems && c.borderSystems[0] in systems && c.borderSystems[0].owner == c
      ensures c.borderSystems[0] in Now().owner && Now().owner[c.borderSystems[0]] == c
    {
      ListOwner(Now(), c, c.borderSystems[0]);
    }

    lemma InSystems(n: nat, c: Civ, s: System)
      requires Settled(n) && c in civs && s in c.systems
      ensures s in systems
    {
      assert s in Now().lists[c];
      ListOwner(Now(), c, s);
    }

    // grow_civ. The civ takes the first unowned system s within the smallest radius around its first
    // border system t, and links it to t. s joins the border list if it is a border system now, and
    // t leaves it unless it still is one.
    method GrowCiv(c: Civ, ghost n: nat) returns (r: int, s: System?, ghost turns: nat)
      requires Placed() && Settled(n) && c in civs && RoomLeft()
      modifies systems`owner, systems`links, c`systems, c`borderSystems
      ensures Placed() && r == (if old(c.borderSystems) == [] then 1 else 0)
      ensures r == 1 ==> Settled(n) && Now() == old(Now()) && c.borderSystems == old(c.borderSystems)
      ensures r == 0 ==> s != null && FirstFree(old(Now()), old(u.Found(c.borderSystems[0], Radius(turns))), s)
      ensures r == 0 ==> forall i: nat :: i < turns ==> NoneFree(old(Now()), old(u.Found(c.borderSystems[0], Radius(i))))
      ensures r == 0 ==> InCircle(old(c.borderSystems[0]), s, 100_000 * (turns + 1))
      ensures r == 0 && turns > 0 ==> forall n :: n in Nodes(u.xRbtree.shape) && old(u.entry[n].owner) == null ==>
        !InCircle(old(c.borderSystems[0]), u.entry[n], 100_000 * turns)
      ensures r == 0 ==> (
        var t := old(c.borderSystems[0]);
        && s in systems && t in systems && old(s.owner) == null && s.owner == c
        && s.links == old(s.links) + [t] && t.links == old(t.links) + [s] && c.systems == old(c.systems) + [s]
        && forall x :: x in systems && x != s ==> x.owner == old(x.owner) && (x != t ==> x.links == old(x.links)))
      ensures r == 0 ==> (
        var t := old(c.borderSystems[0]);
        && s in old(Now()).links && t in old(Now()).links && c in old(Now()).lists
        && Settled(n + 1) && Now() == Grown(old(Now()), c, s, t)
        && c.borderSystems ==
          (if AtBorder(Now(), u.Found(t, CIV_MIN_BORDER_WIDTH), c) then old(c.borderSystems) else old(c.borderSystems[1..])) +
          (if AtBorder(Now(), u.Found(s, CIV_MIN_BORDER_WIDTH), c) then [s] else []))
    {
      hide *;
      if |c.borderSystems| == 0 {
        return 1, null, 0;
      }
      var t := c.borderSystems[0];
      PlacedView();
      s, turns := Take(c, t, n);
      SetBorders(c, s, t, n + 1);
      r := 0;
    }

    lemma PlacedView()
      requires Placed()
      ensures u.Valid() && forall s :: s in systems ==> s in u.known
    {
    }

    // The first half: the civ gets its new system.
    method Take(c: Civ, t: System, ghost n: nat) returns (s: System, ghost turns: nat)
      requires Placed() && Settled(n) && RoomLeft() && c in civs && c.borderSystems != [] && t == c.borderSystems[0]
      modifies systems`owner, systems`links, c`systems
      ensures Placed() && u.Valid() && Settled(n + 1) && s in c.systems && t in c.systems
      ensures FirstFree(old(Now()), old(u.Found(t, Radius(turns))), s)
      ensures forall i: nat :: i < turns ==> NoneFree(old(Now()), old(u.Found(t, Radius(i))))
      ensures s in old(Now()).links && t in old(Now()).links && c in old(Now()).lists
      ensures Now() == Grown(old(Now()), c, s, t)
      ensures s in systems && t in systems && old(s.owner) == null && s.owner == c
      ensures s.links == old(s.links) + [t] && t.links == old(t.links) + [s] && c.systems == old(c.systems) + [s]
      ensures forall x :: x in systems && x != s ==> x.owner == old(x.owner) && (x != t ==> x.links == old(x.links))
      ensures turns > 0 ==> forall n :: n in Nodes(u.xRbtree.shape) && old(u.entry[n].owner) == null ==> !InCircle(t, u.entry[n], 100_000 * turns)
      ensures InCircle(t, s, 100_000 * (turns + 1))
    {
      hide *;
      PlacedView();
      BorderHere(n, c);
      s, turns := FindUnowned(t);
      FreeHere(old(u.Found(t, Radius(turns))), s);
      SearchMeans(t, turns, s);
      GrowKeeps(Now(), c, s, t);
      Claim(c, s, t);
      IntoSettled(n + 1);
    }

    // What the search comes to: s lies inside the circle, and no unowned system in the one before.
    lemma SearchMeans(t: System, turns: nat, s: System)
      requires Placed() && FirstFree(Now(), u.Found(t, Radius(turns)), s)
      requires forall i: nat :: i < turns ==> NoneFree(Now(), u.Found(t, Radius(i)))
      ensures InCircle(t, s, 100_000 * (turns + 1))
      ensures turns > 0 ==>
        forall n :: n in Nodes(u.xRbtree.shape) && u.entry[n].owner == null ==> !InCircle(t, u.entry[n], 100_000 * turns)
    {
      hide Universe.Valid, Universe.Found, SystemDistance, InCircle, NoRepeat;
      RadiusIs(turns);
      u.FoundSystems(t, Radius(turns));
      DistanceBelow(t, s, Radius(turns));
      if turns > 0 {
        RadiusIs(turns - 1);
        forall n | n in Nodes(u.xRbtree.shape) && u.entry[n].owner == null
          ensures !InCircle(t, u.entry[n], 100_000 * turns)
        {
          NotWithin(t, Radius(turns - 1), n);
          DistanceBelow(t, u.entry[n], Radius(turns - 1));
        }
      }
    }

    // The second half: its border list.
    method SetBorders(c: Civ, s: System, t: System, ghost n: nat)
      requires Placed() && Settled(n) && c in civs && c.borderSystems != [] && t == c.borderSystems[0]
      requires s in c.systems
      modifies c`borderSystems
      ensures Placed() && u.Valid() && Settled(n) && Now() == old(Now())
      ensures c.borderSystems ==
        (if AtBorder(Now(), u.Found(t, CIV_MIN_BORDER_WIDTH), c) then old(c.borderSystems) else old(c.borderSystems[1..])) +
        (if AtBorder(Now(), u.Found(s, CIV_MIN_BORDER_WIDTH), c) then [s] else [])
    {
      hide *;
      PlacedView();
      BorderHere(n, c);
      InSystems(n, c, s);
      var sBorder := IsBorderSystem(s, c);
      if sBorder {
        Bordering(c, c.borderSystems + [s]);
      }
      var tBorder := IsBorderSystem(t, c);
      if !tBorder {
        Bordering(c, c.borderSystems[1..]);
      }
      IntoSettled(n);
    }

    // A change of a border list.
    method Bordering(c: Civ, border: seq<System>)
      requires c in civs && Placed() && Civilised() && forall s :: s in border ==> s in c.systems
      modifies c`borderSystems
      ensures Placed() && u.Valid() && Civilised() && c.borderSystems == border && Now() == old(Now())
      ensures forall o, r :: o in u.known ==> u.Found(o, r) == old(u.Found(o, r))
    {
      PlacedView();
      hide Universe.Valid, NoRepeat, Universe.Found;
      c.borderSystems := border;
    }

    // ----- spawn_civilizations -----

    method AssignHome(c: Civ, s: System)
      requires c in civs && s in systems && c.systems == []
      modifies s`owner, c`home, c`systems, c`borderSystems
      ensures Now() == Spawned(old(Now()), c, s) && c.home == s && c.systems == [s] && c.borderSystems == old(c.borderSystems) + [s]
    {
      s.owner := c;
      c.home := s;
      c.systems := c.systems + [s];
      c.borderSystems := c.borderSystems + [s];
      assert c.systems == [s];
    }

    method TakeHome(c: Civ, s: System)
      requires c in civs && s in systems && c.systems == [] && c.borderSystems == [] && Placed() && Civilised()
      modifies s`owner, c`home, c`systems, c`borderSystems
      ensures Placed() && u.Valid() && Civilised() && Now() == Spawned(old(Now()), c, s) && c.home == s
      ensures forall o, r :: o in u.known ==> u.Found(o, r) == old(u.Found(o, r))
    {
      hide NoRepeat, Now, Spawned, Universe.Found;
      PlacedView();
      AssignHome(c, s);
      PlacedView();
    }

    lemma HomelessHere(n: nat, c: Civ, s: System)
      requires Settled(n) && c in civs && c.home == null && Free(Now(), s)
      ensures Now().Ok() && |Now().Owned()| == n && Civilised() && c in Now().lists && Now().lists[c] == []
      ensures c.systems == [] && c.borderSystems == [] && s in systems && s in Now().owner && Now().owner[s] == null
    {
      if |c.borderSystems| > 0 {
        BorderHere(n, c);
      }
    }

    method Settle(c: Civ, s: System, ghost n: nat)
      requires Placed() && Settled(n) && c in civs && c.home == null && Free(Now(), s)
      modifies s`owner, c`home, c`systems, c`borderSystems
      ensures Placed() && u.Valid() && Settled(n + 1) && c.home == s && Kept(old(Now()), Now())
      ensures forall o, r :: o in u.known ==> u.Found(o, r) == old(u.Found(o, r))
    {
      hide *;
      PlacedView();
      HomelessHere(n, c, s);
      SpawnKeeps(Now(), c, s);
      SpawnedKept(Now(), c, s);
      TakeHome(c, s);
      IntoSettled(n + 1);
    }

    // The list loop of spawn_civilizations: nobody lives near.
    method IsRemote(s: System) returns (success: bool)
      requires Placed() && s in u.known && s in systems
      ensures Placed() && u.Valid() && Now() == old(Now()) && Civilised() == old(Civilised())
      ensures forall o, r :: o in u.known ==> u.Found(o, r) == old(u.Found(o, r))
      ensures success == (Free(Now(), s) && AllFree(Now(), u.Found(s, INITIAL_MIN_INTERCIV_DISTANCE_LY)))
    {
      hide Universe.Valid, Universe.Found, NoRepeat;
      if s.owner != null {
        PlacedView();
        return false;
      }
      var neigh := Neighbours(s, INITIAL_MIN_INTERCIV_DISTANCE_LY);
      success := ScanTaken(neigh, Now());
    }

    // The pick of draw j would do as a home: nobody owns it or anything near it.
    ghost predicate Remote(random: nat -> nat, j: nat)
      requires Placed() && systems != []
      reads this`systems, this`civs, u, u.xRbtree, Nodes(u.xRbtree.shape), u.known`x, u.known`y
      reads systems`owner, systems`links, civs`systems, systems`x, systems`y
    {
      RemoteSystem(systems[random(j) % |systems|])
    }

    ghost predicate RemoteSystem(s: System)
      requires Placed()
      reads this`systems, this`civs, u, u.xRbtree, Nodes(u.xRbtree.shape), u.known`x, u.known`y, s`x, s`y
      reads systems`owner, systems`links, civs`systems
    {
      Free(Now(), s) && AllFree(Now(), u.Found(s, INITIAL_MIN_INTERCIV_DISTANCE_LY))
    }

    // The tries of one civ, from draw first on; ptrlist_random picks an entry by the random number. Those at the draws before k are in vain; the
    // hundredth try always is.
    method FindHome(random: nat -> nat, first: nat) returns (s: System?, ghost k: nat)
      requires Placed() && systems != []
      ensures Placed() && u.Valid() && Now() == old(Now()) && Civilised() == old(Civilised())
      ensures forall o, r :: o in u.known ==> u.Found(o, r) == old(u.Found(o, r))
      ensures s != null ==> s in u.known && s in systems && Free(Now(), s)
      ensures s != null ==> AllFree(Now(), u.Found(s, INITIAL_MIN_INTERCIV_DISTANCE_LY))
      ensures first <= k <= first + 99 && (s == null <==> k == first + 99)
      ensures forall j: nat :: first <= j < k ==> !Remote(random, j)
      ensures s != null ==> s == systems[random(k) % |systems|] && Remote(random, k)
    {
      hide *;
      PlacedView();
      var tries, success := 0, false;
      s := null;
      k := first;
      while !success && tries < 100
        invariant Placed() && u.Valid() && Now() == old(Now()) && Civilised() == old(Civilised()) && tries <= 100
        invariant forall o, r :: o in u.known ==> u.Found(o, r) == old(u.Found(o, r))
        invariant success ==> s != null && s in u.known && s in systems && Free(Now(), s)
        invariant success ==> AllFree(Now(), u.Found(s, INITIAL_MIN_INTERCIV_DISTANCE_LY))
        invariant k == first + if success then tries - 1 else tries
        invariant success ==> tries > 0 && s == systems[random(k) % |systems|] && Remote(random, k)
        invariant forall j: nat :: first <= j < k ==> !Remote(random, j)
        decreases 100 - tries, !success
      {
        PlacedView();
        s := systems[random(first + tries) % |systems|];
        success := IsRemote(s);
        RemoteIs(random, first + tries);
        tries := tries + 1;
        k := if success then k else k + 1;
      }
      if tries >= 100 {
        s := null;
        k := first + 99;
      }
    }

    lemma RemoteIs(random: nat -> nat, j: nat)
      requires Placed() && systems != []
      ensures var s := systems[random(j) % |systems|];
        Remote(random, j) <==> Free(Now(), s) && AllFree(Now(), u.Found(s, INITIAL_MIN_INTERCIV_DISTANCE_LY))
    {
    }

    // The first n civs have homes, the others none, and no home is near a later one.
    ghost predicate Homes(n: nat)
      requires Placed()
      reads this`systems, this`civs, u, u.xRbtree, Nodes(u.xRbtree.shape), u.known`x, u.known`y, civs`home, systems`x, systems`y
    {
      && n <= |civs|
      && (forall i :: 0 <= i < |civs| ==> (civs[i].home != null <==> i < n))
      && (forall i :: 0 <= i < n ==> civs[i].home in u.known)
      && (forall i, j :: 0 <= i < j < n ==>
            civs[i].home !in u.Found(civs[j].home, INITIAL_MIN_INTERCIV_DISTANCE_LY))
    }

    lemma ValidView()
      requires Valid()
      ensures Placed() && Settled(inhabitedSystems)
    {
    }

    lemma SettledView(n: nat)
      requires Settled(n)
      ensures Now().Ok() && |Now().Owned()| == n && Civilised()
    {
    }

    lemma HomeTaken(n: nat, c: Civ)
      requires Settled(n) && c in civs && c.home != null
      ensures !Free(Now(), c.home)
    {
      assert c.home in Now().lists[c];
      ListOwner(Now(), c, c.home);
    }

    // One more home that none of the others is near to.
    lemma MoreHomes(n: nat, i: nat, s: System)
      requires Placed() && Settled(n) && Homes(i) && i < |civs|
      requires s in u.known && AllFree(Now(), u.Found(s, INITIAL_MIN_INTERCIV_DISTANCE_LY))
      ensures forall j :: 0 <= j < i ==> civs[j].home !in u.Found(s, INITIAL_MIN_INTERCIV_DISTANCE_LY)
      ensures civs[i].home == null
    {
      hide Universe.Valid, Universe.Found, Settled, Free, NoRepeat;
      forall j | 0 <= j < i
        ensures civs[j].home !in u.Found(s, INITIAL_MIN_INTERCIV_DISTANCE_LY)
      {
        HomeTaken(n, civs[j]);
        TakenNotFree(Now(), u.Found(s, INITIAL_MIN_INTERCIV_DISTANCE_LY), civs[j].home);
      }
    }

    // spawn_civilizations. It stops early only when the tries of the next civ were in vain.
    method SpawnCivilizations(random: nat -> nat) returns (n: nat)
      requires Valid() && systems != [] && Homes(0)
      modifies this`inhabitedSystems, systems`owner, civs
      ensures Valid() && Homes(n) && civs == old(civs) && systems == old(systems) && Kept(old(Now()), Now())
      ensures inhabitedSystems == old(inhabitedSystems) + n
      ensures n < |civs| ==> Placed() && forall j: nat :: 100 * n <= j < 100 * n + 99 ==> !Remote(random, j)
    {
      hide *;
      ValidView();
      KeptSelf(Now());
      n := 0;
      while n < |civs|
        invariant Valid() && Placed() && Homes(n) && civs == old(civs) && systems == old(systems)
        invariant Kept(old(Now()), Now()) && n <= |civs| && inhabitedSystems == old(inhabitedSystems) + n
        modifies this`inhabitedSystems, systems`owner, civs
      {
        ghost var k := Now();
        var done := SpawnOne(random, n);
        KeptTrans(old(Now()), k, Now());
        if done {
          return;
        }
        n := n + 1;
      }
    }

    method SpawnOne(random: nat -> nat, n: nat) returns (done: bool)
      requires Valid() && Placed() && systems != [] && n < |civs| && Homes(n)
      modifies this`inhabitedSystems, systems`owner, civs
      ensures Valid() && Placed() && Homes(if done then n else n + 1) && civs == old(civs) && systems == old(systems)
      ensures Kept(old(Now()), Now()) && inhabitedSystems == old(inhabitedSystems) + if done then 0 else 1
      ensures done ==> forall j: nat :: 100 * n <= j < 100 * n + 99 ==> !Remote(random, j)
    {
      hide *;
      var s := Choose(random, n);
      if s == null {
        KeptSelf(Now());
        return true;
      }
      ValidView();
      Install(n, s, inhabitedSystems);
      Count();
      done := false;
    }

    // A place for the next home.
    method Choose(random: nat -> nat, n: nat) returns (s: System?)
      requires Valid() && systems != [] && n < |civs| && Placed() && Homes(n)
      ensures Valid() && Placed() && Homes(n) && Now() == old(Now())
      ensures s != null ==> s in systems && s in u.known && Free(Now(), s)
      ensures s != null ==> forall j :: 0 <= j < n ==> civs[j].home !in u.Found(s, INITIAL_MIN_INTERCIV_DISTANCE_LY)
      ensures s == null ==> forall j: nat :: 100 * n <= j < 100 * n + 99 ==> !Remote(random, j)
    {
      hide Placed, Civilised, Universe.Valid, Universe.Found, NoRepeat, Now, Free, AllFree, Sky.Ok, Sky.Owned, Remote;
      SettledView(inhabitedSystems);
      PlacedView();
      ghost var k;
      s, k := FindHome(random, 100 * n);
      if s != null {
        MoreHomes(inhabitedSystems, n, s);
      }
    }

    method Install(i: nat, s: System, ghost n: nat)
      requires Placed() && Settled(n) && i < |civs| && Homes(i) && s in systems && s in u.known && Free(Now(), s)
      requires forall j :: 0 <= j < i ==> civs[j].home !in u.Found(s, INITIAL_MIN_INTERCIV_DISTANCE_LY)
      modifies s`owner, civs[i]
      ensures Placed() && Settled(n + 1) && Homes(i + 1) && Kept(old(Now()), Now())
    {
      hide Placed, Settled, Universe.Valid, Universe.Found, NoRepeat, Now, Free, Sky.Ok, Sky.Owned;
      DifferentCivs(n);
      PlacedView();
      Settle(civs[i], s, n);
      OneMoreHome(i, s);
    }

    lemma OneMoreHome(i: nat, s: System)
      requires Placed() && i < |civs| && civs[i].home == s && s in u.known
      requires forall j :: 0 <= j < |civs| && j != i ==> (civs[j].home != null <==> j < i)
      requires forall j :: 0 <= j < i ==> civs[j].home in u.known
      requires forall j :: 0 <= j < i ==> civs[j].home !in u.Found(s, INITIAL_MIN_INTERCIV_DISTANCE_LY)
      requires forall j, h :: 0 <= j < h < i ==> civs[j].home !in u.Found(civs[h].home, INITIAL_MIN_INTERCIV_DISTANCE_LY)
      ensures Homes(i + 1)
    {
      hide Universe.Valid, Universe.Found;
    }

    lemma DifferentCivs(n: nat)
      requires Settled(n)
      ensures forall i, j :: 0 <= i < j < |civs| ==> civs[i] != civs[j]
    {
    }

    method Count()
      requires Placed() && Settled(inhabitedSystems + 1)
      modifies this`inhabitedSystems
      ensures Valid() && Placed() && Now() == old(Now()) && inhabitedSystems == old(inhabitedSystems) + 1
      ensures forall n :: Homes(n) == old(Homes(n))
    {
      hide Universe.Valid, NoRepeat, Universe.Found, Sky.Ok;
      inhabitedSystems := inhabitedSystems + 1;
    }

    // ----- remove_civs_without_homes -----

    // list_del_init on a civ of the list
    method Unlist(i: nat)
      requires i < |civs| && forall j, h :: 0 <= j < h < |civs| ==> civs[j] != civs[h]
      modifies this`civs
      ensures civs == old(civs[..i] + civs[i + 1..])
      ensures Now() == Sky(old(Now().owner), old(Now().links), old(Now().lists) - {old(civs[i])})
    {
      NowWithout(i);
      civs := civs[..i] + civs[i + 1..];
    }

    method Forget(i: nat)
      requires Placed() && Settled(inhabitedSystems) && i < |civs| && civs[i].home == null
      modifies this`civs
      ensures Placed() && u.Valid() && Settled(inhabitedSystems) && civs == old(civs[..i] + civs[i + 1..])
      ensures Now().owner == old(Now().owner) && Now().links == old(Now().links)
      ensures forall o, r :: o in u.known ==> u.Found(o, r) == old(u.Found(o, r))
    {
      hide Universe.Valid, NoRepeat, Now, Sky.Ok, Sky.Owned;
      HomelessList(inhabitedSystems, civs[i]);
      DropKeeps(Now(), civs[i]);
      Unlist(i);
    }

    // remove_civs_without_homes
    method RemoveCivsWithoutHomes(ghost n: nat)
      requires Valid() && Placed() && Homes(n)
      modifies this`civs
      ensures Valid() && n <= |old(civs)| && civs == old(civs)[..n] && forall c :: c in civs ==> c.home != null
      ensures Placed() && Homes(n) && Kept(old(Now()), Now())
    {
      hide *;
      ValidView();
      HomesView(n);
      ghost var all := civs;
      ghost var m := 0;
      var i := 0;
      while i < |civs|
        invariant Placed() && Settled(inhabitedSystems) && i <= n && n + m <= |all| && (m > 0 ==> i == n)
        invariant civs == all[..n] + all[n + m..]
        invariant Now().owner == old(Now().owner) && Now().links == old(Now().links)
        invariant forall o, r :: o in u.known ==> u.Found(o, r) == old(u.Found(o, r))
        decreases |civs| - i
      {
        assert civs[i] == if i < n then all[i] else all[n + m];
        if civs[i].home != null {
          i := i + 1;
        } else {
          RemoveMiddle(all, n, m);
          Forget(i);
          m := m + 1;
        }
      }
      assert all[n + m..] == [];
      SameOwners(old(Now()), Now());
      IntoHomes(n);
      IntoValid();
    }

    lemma IntoHomes(n: nat)
      requires Placed() && n <= |civs| && (forall i :: 0 <= i < |civs| ==> (civs[i].home != null <==> i < n))
      requires forall i :: 0 <= i < n ==> civs[i].home in u.known
      requires forall i, j :: 0 <= i < j < n ==>
        civs[i].home !in u.Found(civs[j].home, INITIAL_MIN_INTERCIV_DISTANCE_LY)
      ensures Homes(n)
    {
      hide Universe.Valid, Universe.Found;
    }

    lemma IntoValid()
      requires Placed() && Settled(inhabitedSystems)
      ensures Valid()
    {
    }

    lemma HomesView(n: nat)
      requires Placed() && Homes(n)
      ensures u.Valid() && n <= |civs| && forall i :: 0 <= i < |civs| ==> (civs[i].home != null <==> i < n)
      ensures forall i :: 0 <= i < n ==> civs[i].home in u.known
      ensures forall i, j :: 0 <= i < j < n ==>
        civs[i].home !in u.Found(civs[j].home, INITIAL_MIN_INTERCIV_DISTANCE_LY)
    {
    }

    lemma HomelessList(n: nat, c: Civ)
      requires Settled(n) && c in civs && c.home == null
      ensures Now().Ok() && c in Now().lists && Now().lists[c] == []
    {
    }

    lemma NowWithout(i: nat)
      requires i < |civs| && forall j, h :: 0 <= j < h < |civs| ==> civs[j] != civs[h]
      ensures (map c | c in civs[..i] + civs[i + 1..] :: c.systems) == Now().lists - {civs[i]}
    {
    }

    // ----- grow_all_civs -----

    ghost function Unindexed(): set<System>
      reads this`systems, u.xRbtree
    {
      set s | s in systems && s.xRbtree !in Nodes(u.xRbtree.shape)
    }

    // As long as fewer systems are owned than indexed, a search finds one.
    lemma RoomByCount(n: nat)
      requires Placed() && Settled(n) && n + |Unindexed()| < |systems|
      ensures RoomLeft()
    {
      hide Universe.Valid, Sky.Ok;
      SetSize(systems);
      var all := Members(systems);
      if all <= Now().Owned() + Unindexed() {
        SizeBound(all, Now().Owned(), Unindexed());
      } else {
        var s :| s in all && s !in Now().Owned() + Unindexed();
        assert s.xRbtree in Nodes(u.xRbtree.shape) && u.entry[s.xRbtree].owner == null;
      }
    }

    // Every civ with a home owns a system of its own.
    lemma CivsFewer(n: nat)
      requires Settled(n) && forall c :: c in civs ==> c.home != null
      ensures |civs| <= n
    {
      var k := Now();
      var homes: set<System>, i := {}, 0;
      hide Now, Sky.Ok;
      while i < |civs|
        invariant i <= |civs| && |homes| == i && homes <= k.Owned()
        invariant forall s :: s in homes ==> exists j :: 0 <= j < i && k.owner[s] == civs[j]
      {
        HomeOwner(n, civs[i]);
        homes, i := homes + {civs[i].home}, i + 1;
      }
      SizeBound(homes, k.Owned(), {});
    }

    lemma HomeOwner(n: nat, c: Civ)
      requires Settled(n) && c in civs && c.home != null
      ensures c.home in Now().Owned() && Now().owner[c.home] == c
    {
      assert c.home in Now().lists[c];
      ListOwner(Now(), c, c.home);
    }

    // The civs that cannot grow
    ghost function Borderless(): set<Civ>
      reads this`civs, civs`borderSystems
    {
      set c | c in civs && c.borderSystems == []
    }

    lemma BorderlessIs()
      ensures Borderless() == set c | c in civs && c.borderSystems == []
    {
    }

    // One pass over the growing civs; skip(k) is how lottery draw k ends. Only civs without border
    // systems leave, and each of the others grows unless it is skipped.
    method GrowPass(growing: seq<Civ>, skip: nat -> bool, draw: nat) returns (left: seq<Civ>)
      requires Valid() && forall c :: c in growing ==> c in civs
      requires inhabitedSystems + |growing| + |Unindexed()| <= |systems|
      modifies this`inhabitedSystems, systems`owner, systems`links, civs`systems, civs`borderSystems
      ensures Valid() && |left| <= |growing| && (forall c :: c in left ==> c in growing)
      ensures old(inhabitedSystems) <= inhabitedSystems <= old(inhabitedSystems) + |left|
      ensures (forall k: nat :: !skip(k)) ==> inhabitedSystems == old(inhabitedSystems) + |left|
      ensures (forall c :: c in growing && c !in left ==> c in Borderless()) && old(Borderless()) <= Borderless()
      ensures Kept(old(Now()), Now())
    {
      hide *;
      left := [];
      var i := 0;
      ValidView();
      KeptSelf(Now());
      while i < |growing|
        invariant Placed() && Settled(inhabitedSystems) && i <= |growing|
        invariant |left| <= i && forall c :: c in left ==> c in growing
        invariant old(inhabitedSystems) <= inhabitedSystems <= old(inhabitedSystems) + |left|
        invariant (forall k: nat :: !skip(k)) ==> inhabitedSystems == old(inhabitedSystems) + |left|
        invariant forall j :: 0 <= j < i && growing[j] !in left ==> growing[j] in Borderless()
        invariant old(Borderless()) <= Borderless()
        invariant Kept(old(Now()), Now())
        invariant Unindexed() == old(Unindexed())
        modifies this`inhabitedSystems, systems`owner, systems`links, civs`systems, civs`borderSystems
      {
        assert growing[i] in growing;
        ghost var k := Now();
        var keep := GrowTurn(growing[i], skip(draw + i));
        KeptTrans(old(Now()), k, Now());
        if keep {
          left := left + [growing[i]];
        }
        i := i + 1;
      }
      IntoValid();
    }

    // One civ's turn in a pass.
    method GrowTurn(c: Civ, skipped: bool) returns (keep: bool)
      requires Placed() && Settled(inhabitedSystems) && c in civs
      requires inhabitedSystems + |Unindexed()| < |systems|
      modifies this`inhabitedSystems, systems`owner, systems`links, c`systems, c`borderSystems
      ensures Placed() && Settled(inhabitedSystems) && Unindexed() == old(Unindexed())
      ensures inhabitedSystems == old(inhabitedSystems) + if skipped || !keep then 0 else 1
      ensures keep == (skipped || old(c.borderSystems) != []) && (!keep ==> c in Borderless())
      ensures old(Borderless()) <= Borderless()
      ensures Kept(old(Now()), Now())
    {
      hide *;
      KeptSelf(Now());
      if skipped {
        return true;
      }
      PlacedView();
      RoomByCount(inhabitedSystems);
      if c.borderSystems != [] {
        BorderHere(inhabitedSystems, c);
      }
      BorderlessIs();
      var r, s, turns := GrowCiv(c, inhabitedSystems);
      if r == 0 {
        GrownFrom(old(Now()), old(u.Found(c.borderSystems[0], Radius(turns))), c, s, old(c.borderSystems[0]));
        Count();
        ValidView();
      }
      BorderlessIs();
      keep := r == 0;
    }

    // grow_all_civs. The lottery may never end, so any number of passes is looked at; the searches
    // in them end because the goal leaves more systems unowned than can be missing from the index.
    // The loop stops at the goal or when no civ can grow; unless civs are skipped, every pass adds
    // systems.
    method GrowAllCivs(skip: nat -> bool, passes: nat) returns (pass: nat)
      requires Valid() && (forall c :: c in civs ==> c.home != null) && |Unindexed()| <= |systems| / 5 + 2
      modifies this`inhabitedSystems, systems`owner, systems`links, civs`systems, civs`borderSystems
      ensures Valid() && Kept(old(Now()), Now())
      ensures old(inhabitedSystems) <= inhabitedSystems
      ensures inhabitedSystems == old(inhabitedSystems) || inhabitedSystems < 2 * (|systems| * 2 / 5)
      ensures pass <= passes
      ensures pass == passes || inhabitedSystems >= |systems| * 2 / 5 || forall c :: c in civs ==> c in Borderless()
      ensures (forall k: nat :: !skip(k)) ==>
        inhabitedSystems >= old(inhabitedSystems) + pass || forall c :: c in civs ==> c in Borderless()
    {
      hide *;
      var goalHab := |systems| * 2 / 5;
      var growing: seq<Civ>, i := [], 0;
      while i < |civs|
        invariant i <= |civs| && |growing| == i && forall c :: c in growing ==> c in civs
        invariant forall j :: 0 <= j < i ==> civs[j] in growing
      {
        growing, i := [civs[i]] + growing, i + 1;
      }
      ValidView();
      CivsFewer(inhabitedSystems);
      KeptSelf(Now());
      var draw: nat := 0;
      pass := 0;
      while inhabitedSystems < goalHab && growing != [] && pass < passes
        invariant Valid() && |growing| <= |civs| <= old(inhabitedSystems) <= inhabitedSystems
        invariant forall c :: c in growing ==> c in civs
        invariant forall c :: c in civs && c !in growing ==> c in Borderless()
        invariant inhabitedSystems == old(inhabitedSystems) || inhabitedSystems < 2 * goalHab
        invariant (forall k: nat :: !skip(k)) ==> growing == [] || inhabitedSystems >= old(inhabitedSystems) + pass
        invariant Unindexed() == old(Unindexed()) && Kept(old(Now()), Now()) && pass <= passes
        decreases passes - pass
      {
        var turns := |growing|;
        ghost var k := Now();
        growing := GrowPass(growing, skip, draw);
        KeptTrans(old(Now()), k, Now());
        draw, pass := draw + turns, pass + 1;
      }
    }

    // civ_spawncivs
    method SpawnCivs(random: nat -> nat, skip: nat -> bool, passes: nat) returns (homes: nat)
      requires Valid() && Placed() && systems != [] && Homes(0) && |Unindexed()| <= |systems| / 5 + 2
      modifies this`inhabitedSystems, this`civs, systems`owner, systems`links, civs
      ensures Valid() && homes <= |old(civs)| && civs == old(civs)[..homes] && forall c :: c in civs ==> c.home != null
      ensures Placed() && Homes(homes) && Kept(old(Now()), Now())
      ensures inhabitedSystems >= old(inhabitedSystems) + homes
    {
      hide *;
      homes := SpawnCivilizations(random);
      ghost var k := Now();
      ValidView();
      RemoveCivsWithoutHomes(homes);
      KeptTrans(old(Now()), k, Now());
      k := Now();
      GrowHomed(homes, skip, passes);
      KeptTrans(old(Now()), k, Now());
    }

    // Growth moves no home.
    method GrowHomed(homes: nat, skip: nat -> bool, passes: nat)
      requires Valid() && (forall c :: c in civs ==> c.home != null) && |Unindexed()| <= |systems| / 5 + 2
      requires Placed() && Homes(homes)
      modifies this`inhabitedSystems, systems`owner, systems`links, civs`systems, civs`borderSystems
      ensures Valid() && Placed() && Homes(homes) && Kept(old(Now()), Now()) && old(inhabitedSystems) <= inhabitedSystems
    {
      hide *;
      var pass := GrowAllCivs(skip, passes);
      ValidView();
    }
  }

  lemma GrownFrom(k: Sky, l: seq<System>, c: Civ, s: System, t: System)
    requires FirstFree(k, l, s) && s in k.links && t in k.links && c in k.lists && t in k.owner && k.owner[t] != null
    ensures Kept(k, Grown(k, c, s, t))
  {
    GrownKept(k, c, s, t);
  }

  lemma SizeBound(a: set<System>, b: set<System>, c: set<System>)
    requires a <= b + c
    ensures |a| <= |b| + |c|
  {
    SubsetSize(a, b + c);
    assert b + c == b + (c - b);
    SubsetSize(c - b, c);
    assert |b + (c - b)| == |b| + |c - b|;
  }

  lemma {:induction false} SubsetSize(a: set<System>, b: set<System>)
    requires a <= b
    ensures |a| <= |b|
  {
    if a != {} {
      var x :| x in a;
      SubsetSize(a - {x}, b - {x});
    }
  }

  lemma RemoveMiddle(all: seq<Civ>, n: nat, m: nat)
    requires n + m < |all|
    ensures var s := all[..n] + all[n + m..]; s[..n] + s[n + 1..] == all[..n] + all[n + m + 1..]
  {
  }

  lemma TakenNotFree(k: Sky, l: seq<System>, s: System)
    requires AllFree(k, l) && !Free(k, s)
    ensures s !in l
  {
  }

  ghost predicate AllFree(k: Sky, l: seq<System>) {
    forall i :: 0 <= i < |l| ==> Free(k, l[i])
  }

  method ScanTaken(neigh: seq<System>, ghost k: Sky) returns (free: bool)
    requires Tells(k, neigh)
    ensures free == AllFree(k, neigh)
  {
    for i := 0 to |neigh|
      invariant forall j :: 0 <= j < i ==> Free(k, neigh[j])
    {
      if neigh[i].owner != null {
        return false;
      }
    }
    free := true;
  }

  lemma ListOwner(k: Sky, c: Civ, s: System)
    requires k.Ok() && c in k.lists && s in k.lists[c]
    ensures s in k.owner && k.owner[s] == c
  {
  }

  lemma FirstRadius()
    ensures Radius(0) == CIV_GROW_MIN_LY
  {
  }

  lemma NextRadius(turns: nat)
    ensures Radius(turns + 1) == Radius(turns) + CIV_GROW_STEP_LY && CIV_GROW_STEP_LY > 0
  {
  }
}

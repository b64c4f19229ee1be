// port_update.c, ship.c and player.c: ports, ships and players as the objects the server changes in
// place, against the values of Economy and Trade.
module Market {
  import opened CArith
  import opened Economy
  import opened Trade
  import opened Universes

  class Planet {
    const system: System

    constructor (s: System)
      ensures system == s
    {
      system := s;
    }
  }

  // Where a ship is: enum postype with its pos pointer.
  datatype Position = Nowhere | InSystem(system: System) | AtPort(port: Port) | AtPlanet(planet: Planet)

  class Cargo {
    const item: Item
    var max: int
    var amount: int
    var dailyChange: int
    var price: int
    var needs: seq<Cargo>

    // cargo_init, with the item the callers set next
    constructor (it: Item)
      ensures item == it && max == 0 && amount == 0 && dailyChange == 0 && price == 0 && needs == []
    {
      item := it;
      max, amount, dailyChange, price, needs := 0, 0, 0, 0, [];
    }
  }

  function ItemsOf(s: seq<Cargo>): (r: seq<Item>)
    ensures |r| == |s| && forall i :: 0 <= i < |s| ==> r[i] == s[i].item
  {
    seq(|s|, i requires 0 <= i < |s| => s[i].item)
  }

  // A list of cargos and the names trie for it: one cargo an item.
  ghost predicate Named(list: seq<Cargo>, names: map<Item, Cargo>) {
    && (forall i :: 0 <= i < |list| ==> list[i].item in names && names[list[i].item] == list[i])
    && (forall it :: it in names ==> names[it] in list && names[it].item == it)
  }

  // What port_genesis draws for one cargo of the port's type, and the names it needs.
  datatype Kind = Kind(item: Item, max: int, amount: int, dailyChange: int, needs: seq<Item>)

  // The type lists each item once, with needs among its own items, however often; stocks are drawn
  // below their maximum.
  ghost predicate KindsOk(kinds: seq<Kind>) {
    && (forall i, j :: 0 <= i < j < |kinds| ==> kinds[i].item != kinds[j].item)
    && (forall i :: 0 <= i < |kinds| ==> 0 <= kinds[i].amount <= kinds[i].max && NeedsFor(kinds, kinds[i]))
  }

  ghost predicate NeedsFor(kinds: seq<Kind>, k: Kind) {
    forall n :: n in k.needs ==> exists j :: 0 <= j < |kinds| && kinds[j].item == n
  }

  function GoodFor(k: Kind): Good {
    Good(k.amount, k.max, k.dailyChange, k.item.basePrice, k.needs)
  }

  // The shelf that was drawn: a cargo for each kind and no others.
  ghost predicate StockedAs(shelf: Shelf, kinds: seq<Kind>) {
    && (forall i :: 0 <= i < |kinds| ==> kinds[i].item in shelf && shelf[kinds[i].item] == GoodFor(kinds[i]))
    && (forall it :: it in shelf ==> exists i :: 0 <= i < |kinds| && kinds[i].item == it)
  }

  class Port {
    const planet: Planet?
    const system: System?
    var items: seq<Cargo>
    var itemNames: map<Item, Cargo>

    // port_init and the first loop of port_genesis: a cargo for each item, not yet with its needs.
    constructor (p: Planet, kinds: seq<Kind>)
      requires KindsOk(kinds)
      ensures planet == p && Located()
      ensures Made(kinds) && (forall c :: c in items ==> fresh(c) && c.needs == [])
    {
      planet, system := p, p.system;
      items, itemNames := [], map[];
      new;
      for i := 0 to |kinds|
        invariant Made(kinds[..i]) && (forall c :: c in items ==> fresh(c) && c.needs == [])
      {
        AddCargo(kinds, i);
      }
      assert kinds[..|kinds|] == kinds;
    }

    // A port on a planet is in the planet's system.
    predicate Located() {
      system != null && (planet != null ==> system == planet.system)
    }

    method AddCargo(kinds: seq<Kind>, i: nat)
      requires KindsOk(kinds) && i < |kinds| && Made(kinds[..i])
      modifies this
      ensures Made(kinds[..i + 1])
      ensures |items| > 0 && fresh(items[0]) && items[0].needs == [] && items == [items[0]] + old(items)
    {
      hide Named;
      NotYetNamed(kinds, i);
      var k := kinds[i];
      var c := new Cargo(k.item);
      NamedMore(items, itemNames, c);
      c.max, c.dailyChange, c.price, c.amount := k.max, k.dailyChange, k.item.basePrice, k.amount;
      ghost var names := itemNames;
      itemNames := itemNames[c.item := c];
      items := [c] + items;
      assert kinds[..i + 1][..i] == kinds[..i];
      KindsMore(kinds[..i], kinds[..i + 1], names, itemNames, c);
    }

    // The cargos of these kinds, and no others.
    ghost predicate Made(kinds: seq<Kind>)
      reads this, items`max, items`amount, items`dailyChange, items`price
    {
      && Named(items, itemNames) && |items| == |kinds|
      && (forall i :: 0 <= i < |kinds| ==> kinds[i].item in itemNames && IsOfKind(itemNames[kinds[i].item], kinds[i]))
      && (forall it :: it in itemNames ==> exists i :: 0 <= i < |kinds| && kinds[i].item == it)
    }

    // The second loop of port_genesis: the needs, looked up by name.
    method AddNeeds(kinds: seq<Kind>)
      requires KindsOk(kinds) && Made(kinds) && forall c :: c in items ==> c.needs == []
      modifies items`needs
      ensures Valid() && StockedAs(ShelfNow(), kinds) && InBounds(ShelfNow()) && Priced(ShelfNow())
      ensures forall k :: k in kinds ==> k.item in ShelfNow()
      ensures forall k :: k in kinds ==>
        ShelfNow()[k.item] == Good(k.amount, k.max, k.dailyChange, k.item.basePrice, k.needs)
    {
      hide Named, IsOfKind, KindsOk;
      MadeView(kinds);
      for i := 0 to |kinds|
        invariant Made(kinds)
        invariant forall j :: 0 <= j < i ==> Needing(kinds[j])
        invariant forall j :: i <= j < |kinds| ==> itemNames[kinds[j].item].needs == []
      {
        KindApart(kinds, i);
        FillNeeds(kinds, i);
      }
      Ready(kinds);
    }

    // The cargo of kind k has its needs.
    ghost predicate Needing(k: Kind)
      reads this, items`needs, if k.item in itemNames then {itemNames[k.item]} else {}
    {
      k.item in itemNames && ItemsOf(itemNames[k.item].needs) == k.needs
      && forall n: Cargo :: n in itemNames[k.item].needs ==> n in items
    }

    lemma KindApart(kinds: seq<Kind>, i: nat)
      requires KindsOk(kinds) && Made(kinds) && i < |kinds|
      ensures forall j :: 0 <= j < |kinds| ==> kinds[j].item in itemNames && itemNames[kinds[j].item] in items
      ensures forall j :: 0 <= j < |kinds| && j != i ==> itemNames[kinds[j].item] != itemNames[kinds[i].item]
      ensures forall n: Item :: n in kinds[i].needs ==> n in itemNames && itemNames[n] in items && itemNames[n].item == n
    {
    }

    method FillNeeds(kinds: seq<Kind>, i: nat)
      requires KindsOk(kinds) && Made(kinds) && i < |kinds| && itemNames[kinds[i].item].needs == []
      modifies items`needs
      ensures Needing(kinds[i])
      ensures forall d :: d in items && d != itemNames[kinds[i].item] ==> d.needs == old(d.needs)
    {
      hide Named, IsOfKind;
      KindApart(kinds, i);
      var c: Cargo := itemNames[kinds[i].item];
      var needs: seq<Item> := kinds[i].needs;
      for j := 0 to |needs|
        invariant ItemsOf(c.needs) == needs[..j] && forall n: Cargo :: n in c.needs ==> n in items
        modifies c`needs
      {
        assert needs[j] in needs;
        c.needs := c.needs + [itemNames[needs[j]]];
      }
      assert needs[..|needs|] == needs;
    }

    lemma Ready(kinds: seq<Kind>)
      requires KindsOk(kinds) && Made(kinds) && forall j :: 0 <= j < |kinds| ==> Needing(kinds[j])
      ensures Valid() && StockedAs(ShelfNow(), kinds) && InBounds(ShelfNow()) && Priced(ShelfNow())
      ensures forall k :: k in kinds ==> k.item in ShelfNow()
      ensures forall k :: k in kinds ==>
        ShelfNow()[k.item] == Good(k.amount, k.max, k.dailyChange, k.item.basePrice, k.needs)
    {
    }

    lemma MadeView(kinds: seq<Kind>)
      requires Made(kinds)
      ensures Named(items, itemNames)
    {
    }

    lemma NotYetNamed(kinds: seq<Kind>, i: nat)
      requires KindsOk(kinds) && i < |kinds| && Made(kinds[..i])
      ensures kinds[i].item !in itemNames
    {
    }

    ghost predicate Valid()
      reads this, items`needs
    {
      Named(items, itemNames) && forall c, n :: c in items && n in c.needs ==> n in items
    }

    ghost function ShelfNow(): Shelf
      requires Valid()
      reads this, items
    {
      map it | it in itemNames :: GoodOf(itemNames[it])
    }

    // Assignments to amounts
    method SetAmount(c: Cargo, v: int)
      requires Valid() && c in items
      modifies c`amount
      ensures Valid() && c.item in old(ShelfNow()) && ShelfNow() == WithAmount(old(ShelfNow()), c.item, v)
      ensures c.amount == v
    {
      c.amount := v;
    }

    lemma OnShelf(c: Cargo)
      requires Valid() && c in items
      ensures c.item in ShelfNow() && ShelfNow()[c.item] == GoodOf(c)
      ensures forall n :: n in c.needs ==> n in items
      ensures forall i :: 0 <= i < |c.needs| ==> c.needs[i].item in ShelfNow() && ShelfNow()[c.needs[i].item] == GoodOf(c.needs[i])
      ensures forall n :: n in ItemsOf(c.needs) ==> n in ShelfNow()
    {
      var i :| 0 <= i < |items| && items[i] == c;
      forall n | n in c.needs
        ensures n.item in ShelfNow() && ShelfNow()[n.item] == GoodOf(n)
      {
        assert n in items;
        var j :| 0 <= j < |items| && items[j] == n;
      }
    }

    lemma NamesOnShelf()
      requires Valid()
      ensures ShelfNow().Keys == itemNames.Keys
      ensures forall it :: it in itemNames ==> itemNames[it] in items && itemNames[it].item == it
    {
    }

    // The first half of update_port's loop: by how much the cargo changes.
    method FindChange(c: Cargo, iteration: nat) returns (change: int)
      requires Valid() && c in items && c.dailyChange != 0
      ensures c.item in ShelfNow() && (forall n :: n in ShelfNow()[c.item].needs ==> n in ShelfNow())
      ensures ShelfNow()[c.item].dailyChange == c.dailyChange && change == ChangeOf(ShelfNow(), c.item, iteration)
    {
      hide Valid, ShelfNow, CDiv, CMod, Met;
      OnShelf(c);
      change := CDiv(c.dailyChange, PORT_UPDATE_FRACTION);
      var mod := CMod(c.dailyChange, PORT_UPDATE_FRACTION);
      var fractionIteration := CDiv(PORT_UPDATE_FRACTION, c.dailyChange);
      if mod != 0 && fractionIteration != 0 && CMod(iteration, fractionIteration) == 0 {
        if c.dailyChange > 0 {
          change := change + 1;
        } else {
          change := change - 1;
        }
      }
      assert change == Wanted(c.dailyChange, iteration);
      hide Wanted;
      if change < 0 && c.amount < -change {
        change := -c.amount;
      } else if change > 0 && c.max - c.amount < change {
        change := c.max - c.amount;
      }
      change := MeetNeeds(c, change);
    }

    // The loop over what the cargo needs
    method MeetNeeds(c: Cargo, limited: int) returns (change: int)
      requires Valid() && c in items
      ensures (forall n :: n in ItemsOf(c.needs) ==> n in ShelfNow())
      ensures change == Met(limited, ShelfNow(), ItemsOf(c.needs))
    {
      hide Valid, ShelfNow;
      OnShelf(c);
      ghost var needs := ItemsOf(c.needs);
      change := limited;
      for j := 0 to |c.needs|
        invariant change == Met(limited, ShelfNow(), needs[..j])
      {
        assert needs[..j + 1][..j] == needs[..j];
        var req := c.needs[j];
        if change > 0 && req.amount < change {
          change := req.amount;
        } else if change < 0 && req.amount < -change {
          change := -req.amount;
        }
      }
      assert needs[..|needs|] == needs;
    }

    // The loops that take as much from each need: req->amount += change or -= change.
    method TakeNeeds(c: Cargo, change: int)
      requires Valid() && c in items
      modifies items`amount
      ensures Valid() && (forall n :: n in ItemsOf(c.needs) ==> n in old(ShelfNow()))
      ensures ShelfNow() == Taken(old(ShelfNow()), ItemsOf(c.needs), Abs(change))
    {
      hide Valid, ShelfNow;
      OnShelf(c);
      ghost var needs, shelf := ItemsOf(c.needs), ShelfNow();
      if change < 0 {
        for j := 0 to |c.needs|
          invariant Valid() && ShelfNow() == Taken(shelf, needs[..j], -change)
        {
          TakeOne(c, j, -change, shelf);
        }
      } else {
        for j := 0 to |c.needs|
          invariant Valid() && ShelfNow() == Taken(shelf, needs[..j], change)
        {
          TakeOne(c, j, change, shelf);
        }
      }
      assert needs[..|needs|] == needs;
    }

    method TakeOne(c: Cargo, j: nat, part: int, ghost shelf: Shelf)
      requires Valid() && c in items && j < |c.needs| && (forall n :: n in ItemsOf(c.needs) ==> n in shelf)
      requires ShelfNow() == Taken(shelf, ItemsOf(c.needs)[..j], part)
      modifies items`amount
      ensures Valid() && ShelfNow() == Taken(shelf, ItemsOf(c.needs)[..j + 1], part)
    {
      hide Valid, ShelfNow;
      OnShelf(c);
      ghost var needs := ItemsOf(c.needs);
      assert needs[..j + 1][..j] == needs[..j];
      assert c.needs[j] in c.needs;
      SetAmount(c.needs[j], c.needs[j].amount - part);
    }

    // One turn of update_port's loop.
    method UpdateCargo(c: Cargo, iteration: nat)
      requires Valid() && c in items
      modifies items`amount
      ensures Valid() && c.item in old(ShelfNow()) && (forall n :: n in old(ShelfNow())[c.item].needs ==> n in old(ShelfNow()))
      ensures ShelfNow() == Ticked(old(ShelfNow()), c.item, iteration)
    {
      hide Valid, ShelfNow;
      OnShelf(c);
      if c.dailyChange == 0 {
        return;
      }
      var change := FindChange(c, iteration);
      SetAmount(c, c.amount + change);
      TakeNeeds(c, change);
    }

    ghost function Order(): seq<Item>
      reads this
    {
      ItemsOf(items)
    }

    lemma OrderOnShelf()
      requires Valid()
      ensures AllListed(ShelfNow()) && forall it :: it in Order() ==> it in ShelfNow()
    {
      forall it | it in ShelfNow()
        ensures Listed(ShelfNow(), it)
      {
        NamesOnShelf();
        OnShelf(itemNames[it]);
      }
    }

    // update_port
    method Update(iteration: nat)
      requires Valid()
      modifies items`amount
      ensures Valid() && Order() == old(Order())
      ensures AllListed(old(ShelfNow())) && forall it :: it in Order() ==> it in old(ShelfNow())
      ensures ShelfNow() == Updated(old(ShelfNow()), Order(), iteration)
    {
      hide Valid, ShelfNow, AllListed, Ticked;
      ghost var shelf, order := ShelfNow(), Order();
      OrderOnShelf();
      for i := 0 to |items|
        invariant Valid() && ShelfNow() == Updated(shelf, order[..i], iteration)
      {
        assert order[..i + 1][..i] == order[..i];
        UpdateCargo(items[i], iteration);
      }
      assert order[..|order|] == order;
    }
  }

  lemma KindsMore(before: seq<Kind>, now: seq<Kind>, names: map<Item, Cargo>, names': map<Item, Cargo>, c: Cargo)
    requires now != [] && now[..|now| - 1] == before && IsOfKind(c, now[|now| - 1])
    requires names' == names[c.item := c] && c.item !in names
    requires forall j :: 0 <= j < |before| ==> before[j].item in names && IsOfKind(names[before[j].item], before[j])
    requires forall it :: it in names ==> exists j :: 0 <= j < |before| && before[j].item == it
    ensures forall j :: 0 <= j < |now| ==> now[j].item in names' && IsOfKind(names'[now[j].item], now[j])
    ensures forall it :: it in names' ==> exists j :: 0 <= j < |now| && now[j].item == it
  {
    hide IsOfKind;
    var last := |now| - 1;
    SameKind(c, now[last]);
    forall j | 0 <= j < |now|
      ensures now[j].item in names' && IsOfKind(names'[now[j].item], now[j])
    {
      assert j < last ==> before[j] == now[j];
    }
    forall it | it in names'
      ensures exists j :: 0 <= j < |now| && now[j].item == it
    {
      if it == c.item {
        assert now[last].item == it;
      } else {
        var j :| 0 <= j < |before| && before[j].item == it;
        assert now[j].item == it;
      }
    }
  }

  lemma SameKind(c: Cargo, k: Kind)
    requires IsOfKind(c, k)
    ensures c.item == k.item
  {
  }

  lemma NamedMore(list: seq<Cargo>, names: map<Item, Cargo>, c: Cargo)
    requires Named(list, names) && c.item !in names
    ensures Named([c] + list, names[c.item := c])
    ensures forall it :: it in names ==> names[it] in list
  {
    var l := [c] + list;
    assert forall i :: 0 <= i < |l| ==> l[i] == if i == 0 then c else list[i - 1];
    assert forall d :: d in list ==> d in l;
  }

  ghost predicate IsOfKind(c: Cargo, k: Kind)
    reads c`max, c`amount, c`dailyChange, c`price
  {
    && c.item == k.item && c.max == k.max && c.amount == k.amount && c.dailyChange == k.dailyChange
    && c.price == k.item.basePrice
  }

  ghost function GoodOf(c: Cargo): Good
    reads c
  {
    Good(c.amount, c.max, c.dailyChange, c.price, ItemsOf(c.needs))
  }

  // list_del
  function Unlisted(list: seq<Cargo>, c: Cargo): (r: seq<Cargo>)
    ensures forall d :: d in r ==> d in list
  {
    if list == [] then [] else if list[0] == c then list[1..] else [list[0]] + Unlisted(list[1..], c)
  }

  ghost predicate Distinct(list: seq<Cargo>) {
    forall i, j :: 0 <= i < j < |list| ==> list[i] != list[j]
  }

  // Exactly one entry goes, and the others keep their order.
  lemma {:induction false} UnlistedAt(list: seq<Cargo>, c: Cargo) returns (i: nat)
    requires c in list
    ensures i < |list| && list[i] == c && Unlisted(list, c) == list[..i] + list[i + 1..]
  {
    if list[0] == c {
      i := 0;
    } else {
      var rest := list[1..];
      var k := UnlistedAt(rest, c);
      i := k + 1;
      assert list[..i] == [list[0]] + rest[..k] && list[i + 1..] == rest[k + 1..];
    }
  }

  lemma {:induction false} UnlistedIs(list: seq<Cargo>, c: Cargo)
    requires Distinct(list) && c in list
    ensures c !in Unlisted(list, c) && (forall d :: d in list && d != c ==> d in Unlisted(list, c))
    ensures Distinct(Unlisted(list, c))
  {
    if list[0] != c {
      var u := Unlisted(list[1..], c);
      UnlistedIs(list[1..], c);
      assert forall d :: d in list <==> d == list[0] || d in list[1..];
      assert list[0] !in u;
      assert forall i :: 0 <= i < |u| ==> u[i] in u;
    }
  }

  lemma NamesWithout(list: seq<Cargo>, names: map<Item, Cargo>, c: Cargo)
    requires Named(list, names) && Distinct(list) && c in list
    ensures Named(Unlisted(list, c), names - {c.item}) && Distinct(Unlisted(list, c)) && names[c.item] == c
  {
    UnlistedIs(list, c);
    var u := Unlisted(list, c);
    forall i | 0 <= i < |u|
      ensures u[i].item in names && u[i].item != c.item && names[u[i].item] == u[i]
    {
      assert u[i] in u && u[i] in list;
    }
  }

  lemma NamesWith(list: seq<Cargo>, names: map<Item, Cargo>, c: Cargo)
    requires Named(list, names) && Distinct(list) && c !in list && c.item !in names
    ensures Named([c] + list, names[c.item := c]) && Distinct([c] + list)
  {
    var l := [c] + list;
    assert forall i :: 0 <= i < |l| ==> l[i] == if i == 0 then c else list[i - 1];
    assert forall d :: d in list ==> d in l;
  }

  class Ship {
    var cargo: seq<Cargo>
    var cargoNames: map<Item, Cargo>
    var pos: Position

    // ship_init
    constructor ()
      ensures Valid() && HoldNow() == map[] && pos == Nowhere
    {
      cargo, cargoNames, pos := [], map[], Nowhere;
    }

    ghost predicate Valid()
      reads this`cargo, this`cargoNames, cargo`max
    {
      Named(cargo, cargoNames) && Distinct(cargo) && forall c :: c in cargo ==> c.max == LONG_MAX
    }

    ghost function HoldNow(): Hold
      requires Valid()
      reads this`cargo, this`cargoNames, cargo`max, cargo`amount
    {
      map it | it in cargoNames :: cargoNames[it].amount
    }

    // new_cargo_to_ship
    method NewCargo(c: Cargo) returns (shipCargo: Cargo)
      requires Valid() && c.item !in cargoNames
      modifies this`cargo, this`cargoNames
      ensures Valid() && fresh(shipCargo) && shipCargo.item == c.item && shipCargo.amount == 0
      ensures cargo == [shipCargo] + old(cargo) && cargoNames == old(cargoNames)[c.item := shipCargo]
      ensures HoldNow() == old(HoldNow())[c.item := 0]
    {
      hide Named, Distinct;
      shipCargo := new Cargo(c.item);
      NamesWith(cargo, cargoNames, shipCargo);
      NamedMembers();
      shipCargo.max := LONG_MAX;
      cargoNames := cargoNames[c.item := shipCargo];
      cargo := [shipCargo] + cargo;
    }

    lemma NamedMembers()
      requires Valid()
      ensures forall it :: it in cargoNames ==> cargoNames[it] in cargo && cargoNames[it].item == it
      ensures forall c :: c in cargo ==> c.item in cargoNames && cargoNames[c.item] == c && c.max == LONG_MAX
    {
    }

    lemma HoldIs(it: Item)
      requires Valid()
      ensures it in HoldNow() <==> it in cargoNames
      ensures it in cargoNames ==> HoldNow()[it] == cargoNames[it].amount
    {
    }

    method SetAmount(c: Cargo, v: int)
      requires Valid() && c in cargo
      modifies c`amount
      ensures Valid() && HoldNow() == old(HoldNow())[c.item := v] && c.amount == v
    {
      c.amount := v;
    }

    // move_cargo_to_ship; the long moved is returned as an int.
    method MoveTo(c: Cargo, amount: int) returns (r: int)
      requires Valid() && c !in cargo && c.amount >= 0
      modifies this`cargo, this`cargoNames, cargo`amount, c`amount
      ensures Valid() && (forall d :: d in cargo ==> d in old(cargo) || fresh(d))
      ensures (
        var h := Opened(old(HoldNow()), c.item);
        var m := Min(Min(amount, old(c.amount)), LONG_MAX - h[c.item]);
        HoldNow() == h[c.item := h[c.item] + m] && c.amount == old(c.amount) - m && r == ToInt(m))
    {
      hide Valid, HoldNow;
      NamedMembers();
      HoldIs(c.item);
      var shipCargo;
      if c.item in cargoNames {
        shipCargo := cargoNames[c.item];
      } else {
        shipCargo := NewCargo(c);
      }
      var moved := Min(amount, c.amount);
      moved := Min(moved, shipCargo.max - shipCargo.amount);
      c.amount := c.amount - moved;
      SetAmount(shipCargo, shipCargo.amount + moved);
      r := ToInt(moved);
    }

    // An emptied entry leaves the names and the list.
    method Drop(c: Cargo)
      requires Valid() && c in cargo
      modifies this`cargo, this`cargoNames
      ensures Valid() && HoldNow() == old(HoldNow()) - {c.item} && forall d :: d in cargo ==> d in old(cargo)
    {
      hide Named, Distinct, Unlisted;
      NamesWithout(cargo, cargoNames, c);
      cargoNames := cargoNames - {c.item};
      cargo := Unlisted(cargo, c);
    }

    // move_cargo_from_ship
    method MoveFrom(c: Cargo, amount: int) returns (r: int)
      requires Valid() && c !in cargo && c.item in cargoNames && 0 <= c.amount <= c.max
      modifies this`cargo, this`cargoNames, cargo`amount, c`amount
      ensures Valid() && (forall d :: d in cargo ==> d in old(cargo))
      ensures (
        var h := old(HoldNow());
        var m := Min(Min(amount, h[c.item]), c.max - old(c.amount));
        HoldNow() == WithHold(h, c.item, h[c.item] - m) && c.amount == old(c.amount) + m && r == ToInt(m))
    {
      hide Valid, HoldNow;
      NamedMembers();
      HoldIs(c.item);
      var shipCargo := cargoNames[c.item];
      var moved := Min(amount, shipCargo.amount);
      moved := Min(moved, c.max - c.amount);
      SetAmount(shipCargo, shipCargo.amount - moved);
      c.amount := c.amount + moved;
      if shipCargo.amount == 0 {
        Drop(shipCargo);
      }
      r := ToInt(moved);
    }
  }
}

// port_update.c, ship.c and player.c: production, buying and selling, on values.
module Economy {
  import opened CArith

  const SECONDS_PER_DAY: nat := 24 * 60 * 60
  const PORT_UPDATE_INTERVAL: nat := 10
  const PORT_UPDATE_FRACTION: nat := SECONDS_PER_DAY / PORT_UPDATE_INTERVAL
  const LONG_MAX := 0x7fff_ffff_ffff_ffff

  class Item {
    const basePrice: nat

    constructor (price: nat)
      ensures basePrice == price
    {
      basePrice := price;
    }
  }

  // A port's cargo of one item.
  datatype Good = Good(amount: int, max: int, dailyChange: int, price: int, needs: seq<Item>)

  type Shelf = map<Item, Good>

  // ----- update_port -----

  // What a cargo would change by at this tick, if nothing limited it.
  function Wanted(d: int, iteration: nat): int
    requires d != 0
  {
    var change := CDiv(d, PORT_UPDATE_FRACTION);
    var mod := CMod(d, PORT_UPDATE_FRACTION);
    var fractionIteration := CDiv(PORT_UPDATE_FRACTION, d);
    if mod != 0 && fractionIteration != 0 && CMod(iteration, fractionIteration) == 0
    then (if d > 0 then change + 1 else change - 1)
    else change
  }

  // ... limited by what is there and by what there is room for,
  function Limited(change: int, amount: int, max: int): int {
    if change < 0 && amount < -change then -amount
    else if change > 0 && max - amount < change then max - amount
    else change
  }

  // ... and by one required cargo after the other.
  function Narrowed(change: int, amount: int): int {
    if change > 0 && amount < change then amount
    else if change < 0 && amount < -change then -amount
    else change
  }

  function Met(change: int, shelf: Shelf, needs: seq<Item>): int
    requires forall n :: n in needs ==> n in shelf
  {
    if needs == [] then change
    else
      var n := needs[|needs| - 1];
      Narrowed(Met(change, shelf, needs[..|needs| - 1]), shelf[n].amount)
  }

  function Taken(shelf: Shelf, needs: seq<Item>, part: int): Shelf
    requires forall n :: n in needs ==> n in shelf
    ensures Taken(shelf, needs, part).Keys == shelf.Keys
  {
    if needs == [] then shelf
    else
      var s := Taken(shelf, needs[..|needs| - 1], part);
      var n := needs[|needs| - 1];
      s[n := s[n].(amount := s[n].amount - part)]
  }

  function ChangeOf(shelf: Shelf, it: Item, iteration: nat): int
    requires it in shelf && shelf[it].dailyChange != 0 && forall n :: n in shelf[it].needs ==> n in shelf
  {
    var g := shelf[it];
    Met(Limited(Wanted(g.dailyChange, iteration), g.amount, g.max), shelf, g.needs)
  }

  // One turn of update_port's loop.
  function Ticked(shelf: Shelf, it: Item, iteration: nat): Shelf
    requires it in shelf && forall n :: n in shelf[it].needs ==> n in shelf
  {
    if shelf[it].dailyChange == 0 then shelf
    else
      var change := ChangeOf(shelf, it, iteration);
      Taken(shelf[it := shelf[it].(amount := shelf[it].amount + change)], shelf[it].needs, Abs(change))
  }

  // The cargo is in the port, with everything it needs.
  ghost predicate Listed(shelf: Shelf, it: Item) {
    it in shelf && forall n :: n in shelf[it].needs ==> n in shelf
  }

  ghost predicate AllListed(shelf: Shelf) {
    forall it :: it in shelf ==> Listed(shelf, it)
  }

  ghost predicate InBounds(shelf: Shelf) {
    forall it :: it in shelf ==> 0 <= shelf[it].amount <= shelf[it].max
  }

  // Everything but the amounts.
  ghost predicate SameTerms(s: Shelf, t: Shelf) {
    s.Keys == t.Keys && forall it :: it in s ==> s[it].(amount := 0) == t[it].(amount := 0)
  }

  function Count(s: seq<Item>, n: Item): nat {
    if s == [] then 0 else Count(s[..|s| - 1], n) + if s[|s| - 1] == n then 1 else 0
  }

  lemma {:induction false} CountIn(s: seq<Item>, n: Item)
    ensures Count(s, n) > 0 <==> n in s
  {
    if s != [] {
      CountIn(s[..|s| - 1], n);
      assert n in s <==> n in s[..|s| - 1] || n == s[|s| - 1];
    }
  }

  lemma OneMoreTimes(k: nat, part: int)
    ensures (k + 1) * part == k * part + part
  {
  }

  lemma {:induction false} TakenIs(shelf: Shelf, needs: seq<Item>, part: int)
    requires forall n :: n in needs ==> n in shelf
    ensures SameTerms(shelf, Taken(shelf, needs, part))
    ensures forall it :: it in shelf ==>
      Taken(shelf, needs, part)[it].amount == shelf[it].amount - Count(needs, it) * part
  {
    if needs != [] {
      var u, n := needs[..|needs| - 1], needs[|needs| - 1];
      TakenIs(shelf, u, part);
      assert n in needs;
      forall it: Item
        ensures Count(needs, it) * part == Count(u, it) * part + if it == n then part else 0
      {
        OneMoreTimes(Count(u, it), part);
      }
      hide Count;
    }
  }

  // The change that is made is no larger than any of its limits, and has the wanted sign.
  lemma {:induction false} MetIs(change: int, shelf: Shelf, needs: seq<Item>)
    requires forall n :: n in needs ==> n in shelf && shelf[n].amount >= 0
    ensures var c := Met(change, shelf, needs);
      && (change >= 0 ==> 0 <= c <= change) && (change <= 0 ==> change <= c <= 0)
      && forall n :: n in needs ==> Abs(c) <= shelf[n].amount
    ensures (forall n :: n in needs ==> Abs(change) <= shelf[n].amount) ==> Met(change, shelf, needs) == change
    ensures change != 0 && (forall n :: n in needs ==> shelf[n].amount > 0) ==> Met(change, shelf, needs) != 0
    ensures Met(change, shelf, needs) != change ==> exists n :: n in needs && Abs(Met(change, shelf, needs)) == shelf[n].amount
  {
    if needs != [] {
      var u, n := needs[..|needs| - 1], needs[|needs| - 1];
      MetIs(change, shelf, u);
      assert forall it :: it in needs <==> it in u || it == n;
      if Met(change, shelf, needs) == Met(change, shelf, u) != change {
        var m :| m in u && Abs(Met(change, shelf, u)) == shelf[m].amount;
        assert m in needs;
      }
    }
  }

  // A tick moves one cargo, and takes as much from each cargo it needs, as often as it is listed.
  lemma TickedIs(shelf: Shelf, it: Item, iteration: nat)
    requires Listed(shelf, it) && shelf[it].dailyChange != 0
    ensures var s, c := Ticked(shelf, it, iteration), ChangeOf(shelf, it, iteration);
      && SameTerms(shelf, s)
      && forall n :: n in shelf ==>
           s[n].amount == shelf[n].amount + (if n == it then c else 0) - Count(shelf[it].needs, n) * Abs(c)
  {
    hide Count, ChangeOf, Taken;
    var g, c := shelf[it], ChangeOf(shelf, it, iteration);
    var moved := shelf[it := g.(amount := g.amount + c)];
    assert SameTerms(shelf, moved);
    TakenIs(moved, g.needs, Abs(c));
    SameTermsTrans(shelf, moved, Ticked(shelf, it, iteration));
    hide SameTerms;
  }

  // The change fits the stock, the room and every need, and has the sign of the daily change; it is
  // the wanted one unless it uses up the stock, the room or a need.
  lemma ChangeIs(shelf: Shelf, it: Item, iteration: nat)
    requires Listed(shelf, it) && shelf[it].dailyChange != 0 && InBounds(shelf)
    ensures var c := ChangeOf(shelf, it, iteration);
      && 0 <= shelf[it].amount + c <= shelf[it].max
      && (if shelf[it].dailyChange > 0 then c >= 0 else c <= 0)
      && forall n :: n in shelf[it].needs ==> Abs(c) <= shelf[n].amount
    ensures var c := ChangeOf(shelf, it, iteration);
      || c == Wanted(shelf[it].dailyChange, iteration)
      || (c <= 0 && shelf[it].amount + c == 0)
      || (c >= 0 && shelf[it].amount + c == shelf[it].max)
      || exists n :: n in shelf[it].needs && Abs(c) == shelf[n].amount
  {
    var g := shelf[it];
    WantedSign(g.dailyChange, iteration);
    hide Wanted;
    MetIs(Limited(Wanted(g.dailyChange, iteration), g.amount, g.max), shelf, g.needs);
  }

  lemma TickedTerms(shelf: Shelf, it: Item, iteration: nat)
    requires Listed(shelf, it)
    ensures SameTerms(shelf, Ticked(shelf, it, iteration))
    ensures shelf[it].dailyChange == 0 ==> Ticked(shelf, it, iteration) == shelf
  {
    if shelf[it].dailyChange != 0 {
      TickedIs(shelf, it, iteration);
    }
  }

  // ----- which needs keep stocks in bounds -----

  // A tick can change the cargo at all: its own maximum and those of its needs leave room for that.
  ghost predicate Movable(shelf: Shelf, it: Item)
    requires it in shelf
  {
    && shelf[it].dailyChange != 0
    && shelf[it].max >= (if shelf[it].dailyChange > 0 && it in shelf[it].needs then 2 else 1)
    && forall n :: n in shelf[it].needs && n in shelf ==> shelf[n].max >= 1
  }

  // No other cargo is needed twice; a produced cargo may be listed twice among its own needs, as one
  // of them is made up for by what is produced, a consumed one not at all.
  ghost predicate NeedsOk(shelf: Shelf, it: Item)
    requires it in shelf
  {
    Movable(shelf, it) ==>
      && (forall n :: n in shelf[it].needs && n != it ==> Count(shelf[it].needs, n) == 1)
      && Count(shelf[it].needs, it) <= (if shelf[it].dailyChange > 0 then 2 else 0)
  }

  // That is a question of the terms alone.
  ghost predicate Orderly(shelf: Shelf) {
    forall it :: it in shelf ==> Listed(shelf, it) && NeedsOk(shelf, it)
  }

  lemma TermsListed(s: Shelf, t: Shelf, it: Item)
    requires SameTerms(s, t) && Listed(s, it)
    ensures Listed(t, it) && s[it].needs == t[it].needs && s[it].dailyChange == t[it].dailyChange
    ensures s[it].max == t[it].max && s[it].price == t[it].price
  {
    assert s[it].(amount := 0).needs == t[it].(amount := 0).needs;
    assert s[it].(amount := 0).max == t[it].(amount := 0).max;
  }

  lemma AllTermsListed(s: Shelf, t: Shelf)
    requires SameTerms(s, t) && AllListed(s)
    ensures AllListed(t)
  {
    forall it | it in t
      ensures Listed(t, it)
    {
      TermsListed(s, t, it);
    }
  }

  lemma TermsOk(s: Shelf, t: Shelf, it: Item)
    requires SameTerms(s, t) && Listed(s, it)
    ensures NeedsOk(s, it) <==> NeedsOk(t, it)
  {
    TermsListed(s, t, it);
    assert forall n :: n in s ==> s[n].max == s[n].(amount := 0).max && t[n].max == t[n].(amount := 0).max;
  }

  lemma TermsOrderly(s: Shelf, t: Shelf)
    requires SameTerms(s, t) && Orderly(s)
    ensures Orderly(t)
  {
    forall it | it in t
      ensures Listed(t, it) && NeedsOk(t, it)
    {
      hide NeedsOk;
      TermsListed(s, t, it);
      TermsOk(s, t, it);
    }
  }

  lemma SameTermsTrans(s: Shelf, t: Shelf, u: Shelf)
    requires SameTerms(s, t) && SameTerms(t, u)
    ensures SameTerms(s, u)
  {
  }

  lemma TickedKeeps(shelf: Shelf, it: Item, iteration: nat)
    requires Listed(shelf, it) && NeedsOk(shelf, it) && InBounds(shelf)
    ensures InBounds(Ticked(shelf, it, iteration))
  {
    if shelf[it].dailyChange != 0 {
      hide Ticked, ChangeOf, Count;
      var c, needs := ChangeOf(shelf, it, iteration), shelf[it].needs;
      TickedIs(shelf, it, iteration);
      ChangeIs(shelf, it, iteration);
      forall n | n in shelf
        ensures 0 <= shelf[n].amount + (if n == it then c else 0) - Count(needs, n) * Abs(c) <= shelf[n].max
      {
        CountIn(needs, n);
        if !Movable(shelf, it) {
          NotMovable(shelf, it, iteration);
        }
        Few(Count(needs, n), Abs(c));
      }
      InBoundsBy(shelf, Ticked(shelf, it, iteration));
    }
  }

  lemma NotMovable(shelf: Shelf, it: Item, iteration: nat)
    requires Listed(shelf, it) && InBounds(shelf) && shelf[it].dailyChange != 0 && !Movable(shelf, it)
    ensures ChangeOf(shelf, it, iteration) == 0
  {
    hide ChangeOf;
    ChangeIs(shelf, it, iteration);
  }

  lemma Few(k: nat, c: nat)
    ensures k == 0 ==> k * c == 0
    ensures k == 1 ==> k * c == c
    ensures k == 2 ==> k * c == 2 * c
    ensures c == 0 ==> k * c == 0
  {
  }

  lemma InBoundsBy(s: Shelf, t: Shelf)
    requires SameTerms(s, t) && forall n :: n in s ==> 0 <= t[n].amount <= s[n].max
    ensures InBounds(t)
  {
    forall n | n in t
      ensures t[n].max == s[n].max
    {
      assert s[n].(amount := 0).max == t[n].(amount := 0).max;
    }
  }

  // A port with one unit of every cargo that can have one; of a produced cargo that does not need
  // itself, none.
  ghost function Scarce(shelf: Shelf, it: Item): Shelf
    requires it in shelf
  {
    map n | n in shelf ::
      shelf[n].(amount :=
        if (n == it && shelf[it].dailyChange > 0 && it !in shelf[it].needs) || shelf[n].max < 1 then 0 else 1)
  }

  lemma ScarceMoves(shelf: Shelf, it: Item)
    requires Listed(shelf, it) && InBounds(shelf) && Movable(shelf, it) && shelf[it].needs != []
    ensures var s := Scarce(shelf, it);
      && SameTerms(shelf, s) && InBounds(s) && Listed(s, it) && s[it].dailyChange != 0
      && ChangeOf(s, it, 0) == Sign(shelf[it].dailyChange)
      && forall n :: n in shelf[it].needs ==> s[n].amount == 1
  {
    var s, d := Scarce(shelf, it), shelf[it].dailyChange;
    TermsListed(shelf, s, it);
    FirstWanted(d);
    hide Wanted;
    var g := s[it];
    MetIs(Limited(Wanted(d, 0), g.amount, g.max), s, g.needs);
    assert g.needs[0] in g.needs;
  }

  // Whatever the stocks and the time, a tick of the cargo keeps all stocks between 0 and their maximum:
  // that holds exactly if its needs are as above.
  lemma KeptIff(shelf: Shelf, it: Item)
    requires Listed(shelf, it) && InBounds(shelf)
    ensures NeedsOk(shelf, it) <==>
      forall s: Shelf, i: nat :: SameTerms(shelf, s) && InBounds(s) && Listed(s, it) ==> InBounds(Ticked(s, it, i))
  {
    if NeedsOk(shelf, it) {
      forall s: Shelf, i: nat | SameTerms(shelf, s) && InBounds(s) && Listed(s, it)
        ensures InBounds(Ticked(s, it, i))
      {
        TermsOk(shelf, s, it);
        TickedKeeps(s, it, i);
      }
    } else {
      TooMuchTaken(shelf, it);
    }
  }

  // Otherwise one unit too many is taken from the scarce port, at midnight.
  lemma TooMuchTaken(shelf: Shelf, it: Item)
    requires Listed(shelf, it) && InBounds(shelf) && !NeedsOk(shelf, it)
    ensures var s := Scarce(shelf, it);
      SameTerms(shelf, s) && InBounds(s) && Listed(s, it) && !InBounds(Ticked(s, it, 0))
  {
    hide Count, Ticked, ChangeOf, Scarce;
    var s, needs := Scarce(shelf, it), shelf[it].needs;
    var most := if shelf[it].dailyChange > 0 then 2 else 0;
    CountIn(needs, it);
    var n := if Count(needs, it) > most then it else OftenNeeded(shelf, it);
    CountIn(needs, n);
    ScarceMoves(shelf, it);
    TermsListed(shelf, s, it);
    TickedIs(s, it, 0);
    assert Ticked(s, it, 0)[n].amount < 0;
  }

  ghost function OftenNeeded(shelf: Shelf, it: Item): (n: Item)
    requires it in shelf && !NeedsOk(shelf, it)
    requires Count(shelf[it].needs, it) <= if shelf[it].dailyChange > 0 then 2 else 0
    ensures n in shelf[it].needs && n != it && Count(shelf[it].needs, n) != 1
  {
    var n :| n in shelf[it].needs && n != it && Count(shelf[it].needs, n) != 1;
    n
  }

  // update_port visits the cargos in the order of the port's list.
  function Updated(shelf: Shelf, order: seq<Item>, iteration: nat): Shelf
    requires AllListed(shelf) && forall it :: it in order ==> it in shelf
    ensures SameTerms(shelf, Updated(shelf, order, iteration)) && AllListed(Updated(shelf, order, iteration))
  {
    if order == [] then shelf
    else
      var s := Updated(shelf, order[..|order| - 1], iteration);
      assert order[|order| - 1] in order;
      TickedTerms(s, order[|order| - 1], iteration);
      AllTermsListed(s, Ticked(s, order[|order| - 1], iteration));
      Ticked(s, order[|order| - 1], iteration)
  }

  // The first cargo of the list is the first to change.
  lemma {:induction false} FirstUpdated(shelf: Shelf, it: Item, rest: seq<Item>, iteration: nat)
    requires AllListed(shelf) && it in shelf && forall o :: o in rest ==> o in shelf
    ensures var s := Ticked(shelf, it, iteration);
      && AllListed(s) && s.Keys == shelf.Keys
      && Updated(shelf, [it] + rest, iteration) == Updated(s, rest, iteration)
  {
    TickedTerms(shelf, it, iteration);
    var s := Ticked(shelf, it, iteration);
    AllTermsListed(shelf, s);
    var all := [it] + rest;
    if rest == [] {
      assert all == [it] && all[..0] == [];
    } else {
      var u, o := rest[..|rest| - 1], rest[|rest| - 1];
      assert all[..|all| - 1] == [it] + u && all[|all| - 1] == o;
      hide Ticked, SameTerms;
      FirstUpdated(shelf, it, u, iteration);
    }
  }

  lemma {:induction false} UpdatedKeeps(shelf: Shelf, order: seq<Item>, iteration: nat)
    requires Orderly(shelf) && InBounds(shelf) && forall it :: it in order ==> it in shelf
    ensures AllListed(shelf)
    ensures Orderly(Updated(shelf, order, iteration)) && InBounds(Updated(shelf, order, iteration))
  {
    if order != [] {
      var u, it := order[..|order| - 1], order[|order| - 1];
      assert it in order;
      UpdatedKeeps(shelf, u, iteration);
      var s := Updated(shelf, u, iteration);
      assert it in s;
      TickedKeeps(s, it, iteration);
    }
    assert AllListed(shelf);
    TermsOrderly(shelf, Updated(shelf, order, iteration));
  }

  // A need listed twice, or a consumed cargo among its own needs, lets a tick drive a stock below zero.
  lemma RepeatedNeedBreaks(a: Item, b: Item)
    requires a != b
    ensures (
      var shelf := map[a := Good(0, 10, PORT_UPDATE_FRACTION, 1, [b, b]), b := Good(1, 10, 0, 1, [])];
      InBounds(shelf) && Ticked(shelf, a, 0)[b].amount == -1)
  {
    var shelf := map[a := Good(0, 10, PORT_UPDATE_FRACTION, 1, [b, b]), b := Good(1, 10, 0, 1, [])];
    assert [b, b][..1] == [b] && [b][..0] == [];
    MetIs(1, shelf, [b, b]);
    assert Count([b], b) == 1 && Count([b, b], b) == 2;
    TickedIs(shelf, a, 0);
    hide Ticked, Met, Count, Taken;
  }

  lemma SelfNeedBreaks(a: Item)
    ensures (
      var shelf := map[a := Good(1, 10, 0 - PORT_UPDATE_FRACTION, 1, [a])];
      InBounds(shelf) && Ticked(shelf, a, 0)[a].amount == -1)
  {
    var shelf := map[a := Good(1, 10, 0 - PORT_UPDATE_FRACTION, 1, [a])];
    assert [a][..0] == [];
    MetIs(-1, shelf, [a]);
    assert Count([a], a) == 1;
    TickedIs(shelf, a, 0);
    hide Ticked, Met, Count, Taken;
  }

  // ----- a day of ticks -----

  // port_update_worker's counter
  function NextIteration(iteration: nat): nat {
    if iteration + 1 >= PORT_UPDATE_FRACTION then 0 else iteration + 1
  }

  // The counter before tick n, from midnight on
  function Counter(n: nat): nat {
    if n == 0 then 0 else NextIteration(Counter(n - 1))
  }

  // A day's ticks see each iteration once, in order, and the next day starts over.
  lemma {:induction false} CounterIs(n: nat)
    ensures n < PORT_UPDATE_FRACTION ==> Counter(n) == n
    ensures n == PORT_UPDATE_FRACTION == 8640 ==> Counter(n) == 0
  {
    if n > 0 {
      CounterIs(n - 1);
    }
  }

  function WantedSum(d: int, n: nat): int
    requires d != 0
  {
    if n == 0 then 0 else WantedSum(d, n - 1) + Wanted(d, n - 1)
  }

  // How many of the numbers below n are multiples of q.
  function Multiples(n: nat, q: nat): nat
    requires q > 0
  {
    if n == 0 then 0 else Multiples(n - 1, q) + if (n - 1) % q == 0 then 1 else 0
  }

  lemma {:induction false} MultiplesAre(n: nat, q: nat)
    requires q > 0
    ensures n <= Multiples(n, q) * q && (n > 0 ==> (Multiples(n, q) - 1) * q < n)
  {
    if n > 0 {
      MultiplesAre(n - 1, q);
      var m := Multiples(n - 1, q);
      if n - 1 == m * q {
        IsMultiple(m, q);
      } else {
        NoMultiple(m - 1, n - 1 - (m - 1) * q, q);
      }
    }
  }

  lemma IsMultiple(m: nat, q: nat)
    requires q > 0
    ensures (m * q) % q == 0
  {
    DivUnique(m * q, m, 0, q);
  }

  lemma NoMultiple(m: nat, r: nat, q: nat)
    requires 0 < r < q
    ensures (m * q + r) % q != 0
  {
    DivUnique(m * q + r, m, r, q);
  }

  lemma DivUnique(n: nat, m: nat, r: nat, q: nat)
    requires n == m * q + r && r < q
    ensures n / q == m && n % q == r
  {
    var d := n / q - m;
    assert n == (n / q) * q + n % q;
    assert d * q == r - n % q;
    Scaled(d, q);
  }

  lemma Scaled(d: int, q: nat)
    ensures d > 0 ==> d * q >= q
    ensures d < 0 ==> d * q <= -(q as int)
  {
  }

  function Sign(d: int): int {
    if d < 0 then -1 else 1
  }

  // A remainder does not depend on the divisor's sign.
  lemma ModSign(i: nat, q: nat)
    requires q > 0
    ensures CMod(i, q) == i % q && CMod(i, -(q as int)) == i % q
  {
  }

  lemma DivSigns(d: int)
    requires d != 0
    ensures Abs(d) > 0 && CDiv(PORT_UPDATE_FRACTION, d) == Sign(d) * (PORT_UPDATE_FRACTION / Abs(d))
    ensures CDiv(d, PORT_UPDATE_FRACTION) == Sign(d) * (Abs(d) / PORT_UPDATE_FRACTION)
  {
  }

  lemma SmallDiv(d: int)
    requires d != 0 && Abs(d) <= PORT_UPDATE_FRACTION
    ensures CMod(d, PORT_UPDATE_FRACTION) == 0 <==> Abs(d) == PORT_UPDATE_FRACTION
    ensures Abs(d) > 0 && PORT_UPDATE_FRACTION / Abs(d) > 0
    ensures Abs(d) < PORT_UPDATE_FRACTION ==> CDiv(d, PORT_UPDATE_FRACTION) == 0
  {
    if Abs(d) < PORT_UPDATE_FRACTION {
      DivUnique(Abs(d), 0, Abs(d), PORT_UPDATE_FRACTION);
    }
  }

  lemma LargeDiv(d: int)
    requires Abs(d) > PORT_UPDATE_FRACTION
    ensures CDiv(PORT_UPDATE_FRACTION, d) == 0
  {
    DivUnique(PORT_UPDATE_FRACTION, 0, PORT_UPDATE_FRACTION, Abs(d));
  }

  lemma WantedIs(d: int, i: nat)
    requires d != 0
    ensures Abs(d) < PORT_UPDATE_FRACTION ==>
      PORT_UPDATE_FRACTION / Abs(d) > 0
      && Wanted(d, i) == Sign(d) * if i % (PORT_UPDATE_FRACTION / Abs(d)) == 0 then 1 else 0
    ensures Abs(d) >= PORT_UPDATE_FRACTION ==> Wanted(d, i) == Sign(d) * (Abs(d) / PORT_UPDATE_FRACTION)
  {
    hide CDiv, CMod;
    DivSigns(d);
    if Abs(d) > PORT_UPDATE_FRACTION {
      LargeDiv(d);
    } else {
      SmallDiv(d);
      ModSign(i, PORT_UPDATE_FRACTION / Abs(d));
    }
  }

  lemma WantedSign(d: int, i: nat)
    requires d != 0
    ensures if d > 0 then Wanted(d, i) >= 0 else Wanted(d, i) <= 0
  {
    WantedIs(d, i);
    hide Wanted;
  }

  // At midnight every cargo wants to change.
  lemma FirstWanted(d: int)
    requires d != 0
    ensures if d > 0 then Wanted(d, 0) > 0 else Wanted(d, 0) < 0
  {
    WantedIs(d, 0);
    hide Wanted;
    assert Abs(d) >= PORT_UPDATE_FRACTION ==> Abs(d) / PORT_UPDATE_FRACTION >= 1;
  }

  lemma {:induction false} WantedSumIs(d: int, n: nat)
    requires d != 0
    ensures Abs(d) < PORT_UPDATE_FRACTION ==>
      PORT_UPDATE_FRACTION / Abs(d) > 0
      && WantedSum(d, n) == Sign(d) * Multiples(n, PORT_UPDATE_FRACTION / Abs(d))
    ensures Abs(d) >= PORT_UPDATE_FRACTION ==> WantedSum(d, n) == Sign(d) * (n * (Abs(d) / PORT_UPDATE_FRACTION))
  {
    if Abs(d) <= PORT_UPDATE_FRACTION {
      SmallDiv(d);
    }
    if n > 0 {
      WantedSumIs(d, n - 1);
      WantedIs(d, n - 1);
      hide Wanted;
      var b := Abs(d) / PORT_UPDATE_FRACTION;
      assert n * b == (n - 1) * b + b;
    }
  }

  // What a full day adds up to.
  lemma DayTotal(d: int)
    requires d != 0
    ensures Abs(d) <= PORT_UPDATE_FRACTION ==> (
      var sum := WantedSum(d, PORT_UPDATE_FRACTION);
      && Sign(sum) == Sign(d) && Abs(d) <= Abs(sum) < 2 * Abs(d)
      && (Abs(sum) == Abs(d) <==> PORT_UPDATE_FRACTION % Abs(d) == 0))
    ensures Abs(d) > PORT_UPDATE_FRACTION ==>
      WantedSum(d, PORT_UPDATE_FRACTION) == Sign(d) * (PORT_UPDATE_FRACTION * (Abs(d) / PORT_UPDATE_FRACTION))
  {
    hide *;
    if Abs(d) < PORT_UPDATE_FRACTION {
      SmallDay(d);
    } else if Abs(d) == PORT_UPDATE_FRACTION {
      EvenDay(d);
    } else {
      WantedSumIs(d, PORT_UPDATE_FRACTION);
    }
  }

  lemma EvenDay(d: int)
    requires Abs(d) == PORT_UPDATE_FRACTION
    ensures d != 0 && Abs(d) > 0 && WantedSum(d, PORT_UPDATE_FRACTION) == d && PORT_UPDATE_FRACTION % Abs(d) == 0
  {
    WantedSumIs(d, PORT_UPDATE_FRACTION);
    hide WantedSum;
  }

  lemma SmallDay(d: int)
    requires d != 0 && Abs(d) < PORT_UPDATE_FRACTION
    ensures (
      var sum := WantedSum(d, PORT_UPDATE_FRACTION);
      && Sign(sum) == Sign(d) && Abs(d) <= Abs(sum) < 2 * Abs(d)
      && (Abs(sum) == Abs(d) <==> PORT_UPDATE_FRACTION % Abs(d) == 0))
  {
    hide *;
    SomeSize(d);
    var f, a := PORT_UPDATE_FRACTION, Abs(d);
    WantedSumIs(d, f);
    var q, r := f / a, f % a;
    var m := Multiples(f, q);
    MultiplesAre(f, q);
    assert f == q * a + r;
    Rounds(f, a, q, r, m);
    Signed(d, m);
  }

  lemma SomeSize(d: int)
    requires d != 0
    ensures Abs(d) > 0
  {
  }

  lemma Signed(d: int, m: nat)
    requires m > 0 && d != 0
    ensures Sign(Sign(d) * m) == Sign(d) && Abs(Sign(d) * m) == m
  {
  }

  // m is n / q rounded up, for n == q * a + r.
  lemma Rounds(n: nat, a: nat, q: nat, r: nat, m: nat)
    requires n == q * a + r && r < a && q > 0 && n <= m * q && (m - 1) * q < n
    ensures a <= m < 2 * a && (m == a <==> r == 0)
  {
    assert q * a == a * q;
    Expand(a, q);
    if m < a {
      Product(m, a - 1, q);
    } else if m >= 2 * a {
      Product(2 * a - 1, m - 1, q);
    } else if m > a {
      Product(a, m - 1, q);
    }
  }

  lemma Expand(a: nat, q: nat)
    requires a > 0 && q > 0
    ensures (a - 1) * q == a * q - q && (2 * a - 1) * q == a * q + (a - 1) * q && (a - 1) * q >= a - 1
  {
    assert (2 * a - 1) * q == 2 * (a * q) - q;
    Product(1, q, a - 1);
  }

  lemma Product(x: int, y: int, q: nat)
    requires x <= y
    ensures x * q <= y * q
  {
  }

  // The port after n ticks from midnight on.
  function Ran(shelf: Shelf, order: seq<Item>, n: nat): Shelf
    requires AllListed(shelf) && forall it :: it in order ==> it in shelf
    ensures AllListed(Ran(shelf, order, n)) && SameTerms(shelf, Ran(shelf, order, n))
  {
    if n == 0 then shelf else Updated(Ran(shelf, order, n - 1), order, Counter(n - 1))
  }

  ghost predicate Different(order: seq<Item>) {
    forall i, j :: 0 <= i < j < |order| ==> order[i] != order[j]
  }

  // The cargo changes, and no cargo needs it.
  ghost predicate Unneeded(shelf: Shelf, it: Item) {
    it in shelf && shelf[it].dailyChange != 0 && forall o :: o in shelf ==> it !in shelf[o].needs
  }

  // At its turn there is as much of each need as the cargo wants.
  ghost predicate Supplied(shelf: Shelf, order: seq<Item>, it: Item, iteration: nat)
    requires AllListed(shelf) && (forall o :: o in order ==> o in shelf) && it in shelf && shelf[it].dailyChange != 0
  {
    forall i, n :: 0 <= i < |order| && order[i] == it && n in shelf[it].needs ==>
      Abs(Wanted(shelf[it].dailyChange, iteration)) <= StockAt(shelf, order, i, iteration, n)
  }

  // The stock of n before the turn of order[i].
  ghost function StockAt(shelf: Shelf, order: seq<Item>, i: nat, iteration: nat, n: Item): int
    requires AllListed(shelf) && (forall o :: o in order ==> o in shelf) && i <= |order| && n in shelf
  {
    Updated(shelf, order[..i], iteration)[n].amount
  }

  lemma UnneededStays(s: Shelf, t: Shelf, it: Item)
    requires Unneeded(s, it) && SameTerms(s, t)
    ensures Unneeded(t, it) && t[it].dailyChange == s[it].dailyChange && t[it].max == s[it].max && t[it].needs == s[it].needs
  {
    forall o | o in t
      ensures it !in t[o].needs
    {
      assert s[o].(amount := 0) == t[o].(amount := 0);
      assert s[o].needs == s[o].(amount := 0).needs;
    }
    assert s[it].(amount := 0) == t[it].(amount := 0);
    assert s[it].(amount := 0).max == t[it].(amount := 0).max;
  }

  // A turn of another cargo leaves it alone.
  lemma OtherTurn(s: Shelf, o: Item, it: Item, iteration: nat)
    requires Listed(s, o) && Unneeded(s, it) && o != it
    ensures Ticked(s, o, iteration)[it].amount == s[it].amount
  {
    if s[o].dailyChange != 0 {
      TickedIs(s, o, iteration);
      CountIn(s[o].needs, it);
      Few(Count(s[o].needs, it), Abs(ChangeOf(s, o, iteration)));
    }
  }

  // Its own turn changes it by what it wants, if stock, room and needs suffice.
  lemma OwnTurn(s: Shelf, it: Item, iteration: nat)
    requires Listed(s, it) && Unneeded(s, it)
    requires var w := Wanted(s[it].dailyChange, iteration);
      0 <= s[it].amount + w <= s[it].max && forall n :: n in s[it].needs ==> Abs(w) <= s[n].amount
    ensures Ticked(s, it, iteration)[it].amount == s[it].amount + Wanted(s[it].dailyChange, iteration)
  {
    hide Wanted, Ticked, Count;
    var w := Wanted(s[it].dailyChange, iteration);
    TickedIs(s, it, iteration);
    CountIn(s[it].needs, it);
    Few(Count(s[it].needs, it), Abs(ChangeOf(s, it, iteration)));
    MetIs(w, s, s[it].needs);
  }

  lemma SuppliedFirst(shelf: Shelf, order: seq<Item>, it: Item, iteration: nat)
    requires AllListed(shelf) && (forall o :: o in order ==> o in shelf) && Unneeded(shelf, it) && order != []
    requires Supplied(shelf, order, it, iteration)
    ensures Supplied(shelf, order[..|order| - 1], it, iteration)
  {
    hide Wanted, Updated;
    var u := order[..|order| - 1];
    forall i, n | 0 <= i < |u| && u[i] == it && n in shelf[it].needs
      ensures Abs(Wanted(shelf[it].dailyChange, iteration)) <= StockAt(shelf, u, i, iteration, n)
    {
      assert u[..i] == order[..i];
      assert Abs(Wanted(shelf[it].dailyChange, iteration)) <= StockAt(shelf, order, i, iteration, n);
    }
  }

  // One visit of each cargo moves such an item by what it wants.
  lemma {:induction false} VisitMoves(shelf: Shelf, order: seq<Item>, it: Item, iteration: nat)
    requires AllListed(shelf) && (forall o :: o in order ==> o in shelf) && Different(order) && Unneeded(shelf, it)
    requires Supplied(shelf, order, it, iteration)
    requires it in order ==> 0 <= shelf[it].amount + Wanted(shelf[it].dailyChange, iteration) <= shelf[it].max
    ensures Updated(shelf, order, iteration)[it].amount ==
      shelf[it].amount + if it in order then Wanted(shelf[it].dailyChange, iteration) else 0
  {
    if order != [] {
      var u, o := order[..|order| - 1], order[|order| - 1];
      assert forall x :: x in order <==> x in u || x == o;
      assert o !in u;
      SuppliedFirst(shelf, order, it, iteration);
      VisitMoves(shelf, u, it, iteration);
      var s := Updated(shelf, u, iteration);
      UnneededStays(shelf, s, it);
      assert Listed(s, o) && Updated(shelf, order, iteration) == Ticked(s, o, iteration);
      hide Wanted, Updated, Ticked, Listed, Unneeded, SameTerms;
      if o == it {
        forall n | n in s[it].needs
          ensures Abs(Wanted(shelf[it].dailyChange, iteration)) <= s[n].amount
        {
          assert StockAt(shelf, order, |order| - 1, iteration, n) == s[n].amount;
        }
        OwnTurn(s, it, iteration);
      } else {
        OtherTurn(s, o, it, iteration);
      }
    }
  }

  // At its turn in tick k of the day there is as much of each need as the cargo wants.
  ghost predicate SuppliedAt(shelf: Shelf, order: seq<Item>, it: Item, k: nat)
    requires AllListed(shelf) && (forall o :: o in order ==> o in shelf) && Unneeded(shelf, it)
  {
    UnneededStays(shelf, Ran(shelf, order, k), it);
    Supplied(Ran(shelf, order, k), order, it, k)
  }

  lemma OneTick(shelf: Shelf, order: seq<Item>, it: Item, k: nat)
    requires AllListed(shelf) && (forall o :: o in order ==> o in shelf) && Different(order)
    requires it in order && Unneeded(shelf, it) && k < PORT_UPDATE_FRACTION && SuppliedAt(shelf, order, it, k)
    requires 0 <= Ran(shelf, order, k)[it].amount + Wanted(shelf[it].dailyChange, k) <= shelf[it].max
    ensures Ran(shelf, order, k + 1)[it].amount == Ran(shelf, order, k)[it].amount + Wanted(shelf[it].dailyChange, k)
  {
    hide Wanted, Updated;
    CounterIs(k);
    var s := Ran(shelf, order, k);
    UnneededStays(shelf, s, it);
    assert Ran(shelf, order, k + 1) == Updated(s, order, k);
    hide *;
    VisitMoves(s, order, it, k);
  }

  lemma RunStart(shelf: Shelf, order: seq<Item>, d: int)
    requires AllListed(shelf) && (forall o :: o in order ==> o in shelf) && d != 0
    ensures Ran(shelf, order, 0) == shelf && WantedSum(d, 0) == 0
  {
  }

  lemma NextWanted(d: int, n: nat)
    requires d != 0
    ensures WantedSum(d, n + 1) == WantedSum(d, n) + Wanted(d, n)
  {
  }

  // With no limit in the way, n ticks change the item by the sum of what it wants.
  lemma {:induction false} FreeRun(shelf: Shelf, order: seq<Item>, it: Item, n: nat)
    requires AllListed(shelf) && (forall o :: o in order ==> o in shelf) && Different(order)
    requires it in order && Unneeded(shelf, it) && n <= PORT_UPDATE_FRACTION
    requires forall k: nat :: k < n ==> SuppliedAt(shelf, order, it, k)
    requires forall k: nat :: k <= n ==> 0 <= shelf[it].amount + WantedSum(shelf[it].dailyChange, k) <= shelf[it].max
    ensures Ran(shelf, order, n)[it].amount == shelf[it].amount + WantedSum(shelf[it].dailyChange, n)
  {
    hide *;
    UnneededChanges(shelf, it);
    RunStart(shelf, order, shelf[it].dailyChange);
    if n > 0 {
      FreeRun(shelf, order, it, n - 1);
      NextWanted(shelf[it].dailyChange, n - 1);
      OneTick(shelf, order, it, n - 1);
    }
  }

  // A whole day of an item whose stock, room and needs never bind.
  lemma FullDay(shelf: Shelf, order: seq<Item>, it: Item)
    requires AllListed(shelf) && (forall o :: o in order ==> o in shelf) && Different(order)
    requires it in order && Unneeded(shelf, it)
    requires forall k: nat :: k < PORT_UPDATE_FRACTION ==> SuppliedAt(shelf, order, it, k)
    requires forall k: nat :: k <= PORT_UPDATE_FRACTION ==>
      0 <= shelf[it].amount + WantedSum(shelf[it].dailyChange, k) <= shelf[it].max
    ensures (
      var d, made := shelf[it].dailyChange, Ran(shelf, order, PORT_UPDATE_FRACTION)[it].amount - shelf[it].amount;
      && (Abs(d) <= PORT_UPDATE_FRACTION ==>
            && Sign(made) == Sign(d) && Abs(d) <= Abs(made) < 2 * Abs(d)
            && (Abs(made) == Abs(d) <==> PORT_UPDATE_FRACTION % Abs(d) == 0))
      && (Abs(d) > PORT_UPDATE_FRACTION ==> made == Sign(d) * (PORT_UPDATE_FRACTION * (Abs(d) / PORT_UPDATE_FRACTION))))
  {
    hide *;
    FreeRun(shelf, order, it, PORT_UPDATE_FRACTION);
    UnneededChanges(shelf, it);
    DayTotal(shelf[it].dailyChange);
  }

  lemma UnneededChanges(shelf: Shelf, it: Item)
    requires Unneeded(shelf, it)
    ensures it in shelf && shelf[it].dailyChange != 0 && Abs(shelf[it].dailyChange) > 0
  {
  }
}

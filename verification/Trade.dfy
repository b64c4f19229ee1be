// ship.c and player.c: cargo moved between a port and a ship, and what is paid for it, on values.
module Trade {
  import opened CArith
  import opened Economy

  type Hold = map<Item, int>

  datatype Trader = Trader(credits: int, hold: Hold)

  // ----- move_cargo_to_ship and move_cargo_from_ship -----

  // The ship gets an entry for the item even if nothing is moved.
  function Opened(hold: Hold, it: Item): Hold {
    if it in hold then hold else hold[it := 0]
  }

  function Loaded(shelf: Shelf, hold: Hold, it: Item, amount: int): int
    requires it in shelf
  {
    Min(Min(amount, shelf[it].amount), LONG_MAX - Opened(hold, it)[it])
  }

  function Unloaded(shelf: Shelf, hold: Hold, it: Item, amount: int): int
    requires it in shelf && it in hold
  {
    Min(Min(amount, hold[it]), shelf[it].max - shelf[it].amount)
  }

  function WithAmount(shelf: Shelf, it: Item, amount: int): Shelf
    requires it in shelf
  {
    shelf[it := shelf[it].(amount := amount)]
  }

  // An emptied entry leaves the ship.
  function WithHold(hold: Hold, it: Item, amount: int): Hold {
    if amount == 0 then hold - {it} else hold[it := amount]
  }

  // ----- cmd_buy and cmd_sell, after parsing -----

  // How much the trader can pay for; the source divides only if there is a price.
  function Affordable(credits: int, price: int, amount: int): int {
    if price != 0 then Min(amount, CDiv(credits, price)) else amount
  }

  predicate Buys(shelf: Shelf, tr: Trader, it: Item, amount: int) {
    it in shelf && (shelf[it].price != 0 ==> Affordable(tr.credits, shelf[it].price, amount) != 0)
  }

  // What is loaded when trader tr buys.
  function Bought(shelf: Shelf, tr: Trader, it: Item, amount: int): int
    requires it in shelf
  {
    Loaded(shelf, tr.hold, it, Affordable(tr.credits, shelf[it].price, amount))
  }

  function AfterBuying(shelf: Shelf, tr: Trader, it: Item, amount: int): (Shelf, Trader) {
    if !Buys(shelf, tr, it, amount) then (shelf, tr)
    else
      var m := Bought(shelf, tr, it, amount);
      var h := Opened(tr.hold, it);
      (WithAmount(shelf, it, shelf[it].amount - m),
       Trader(tr.credits - ToInt(m) * shelf[it].price, h[it := h[it] + m]))
  }

  predicate Sells(shelf: Shelf, tr: Trader, it: Item) {
    it in tr.hold && it in shelf
  }

  function AfterSelling(shelf: Shelf, tr: Trader, it: Item, amount: int): (Shelf, Trader) {
    if !Sells(shelf, tr, it) then (shelf, tr)
    else
      var m := Unloaded(shelf, tr.hold, it, amount);
      (WithAmount(shelf, it, shelf[it].amount + m),
       Trader(tr.credits + ToInt(m) * shelf[it].price, WithHold(tr.hold, it, tr.hold[it] - m)))
  }

  // ----- sums -----

  ghost function SumOf<K>(m: map<K, int>): int
    decreases |m|
  {
    if m == map[] then 0 else var k :| k in m; m[k] + SumOf(m - {k})
  }

  lemma {:induction false} SumSplit<K>(m: map<K, int>, k: K)
    requires k in m
    ensures SumOf(m) == m[k] + SumOf(m - {k})
    decreases |m|
  {
    var j :| j in m && SumOf(m) == m[j] + SumOf(m - {j});
    if j != k {
      SumSplit(m - {j}, k);
      SumSplit(m - {k}, j);
      assert m - {j} - {k} == m - {k} - {j};
    }
  }

  lemma SumUpdate<K>(m: map<K, int>, k: K, v: int)
    ensures SumOf(m[k := v]) == SumOf(m) + v - if k in m then m[k] else 0
  {
    var n := m[k := v];
    SumSplit(n, k);
    if k in m {
      SumSplit(m, k);
      assert n - {k} == m - {k};
    } else {
      assert n - {k} == m;
    }
  }

  // What the hold is worth at base prices.
  ghost function Value(hold: Hold): int {
    SumOf(Values(hold))
  }

  ghost function Worth(tr: Trader): int {
    tr.credits + Value(tr.hold)
  }

  ghost function Values(hold: Hold): map<Item, int> {
    map it | it in hold :: hold[it] * it.basePrice
  }

  lemma ValueUpdate(hold: Hold, it: Item, amount: int)
    ensures Value(hold[it := amount]) == Value(hold) + (amount - if it in hold then hold[it] else 0) * it.basePrice
    ensures Value(WithHold(hold, it, amount)) == Value(hold[it := amount])
  {
    var h := hold[it := amount];
    assert Values(h) == Values(hold)[it := amount * it.basePrice];
    SumUpdate(Values(hold), it, amount * it.basePrice);
    Difference(amount, if it in hold then hold[it] else 0, it.basePrice);
    if amount == 0 {
      ValueWithoutNothing(h, it);
      assert h - {it} == hold - {it};
    }
  }

  lemma ValueWithoutNothing(h: Hold, it: Item)
    requires it in h && h[it] == 0
    ensures Value(h - {it}) == Value(h)
  {
    assert Values(h - {it}) == Values(h) - {it};
    SumSplit(Values(h), it);
  }

  // ----- what the trades keep -----

  ghost predicate Priced(shelf: Shelf) {
    forall it :: it in shelf ==> shelf[it].price == it.basePrice
  }

  ghost predicate Solvent(tr: Trader) {
    tr.credits >= 0 && forall it :: it in tr.hold ==> 0 <= tr.hold[it] <= LONG_MAX
  }

  lemma {:induction false} DivPays(credits: nat, price: nat, m: nat)
    requires price > 0 && m <= CDiv(credits, price)
    ensures m * price <= credits
  {
    assert (credits / price) * price <= credits;
    assert m * price <= (credits / price) * price;
  }

  // What is moved is never negative, never more than asked for, than is there or than fits,
  lemma BoughtIs(shelf: Shelf, tr: Trader, it: Item, amount: nat)
    requires InBounds(shelf) && Priced(shelf) && Solvent(tr) && it in shelf
    ensures 0 <= Bought(shelf, tr, it, amount) <= amount
    ensures Bought(shelf, tr, it, amount) <= shelf[it].amount
    ensures Bought(shelf, tr, it, amount) * shelf[it].price <= tr.credits
    ensures Opened(tr.hold, it)[it] + Bought(shelf, tr, it, amount) <= LONG_MAX
  {
    var m := Bought(shelf, tr, it, amount);
    if shelf[it].price > 0 {
      DivPays(tr.credits, shelf[it].price, m);
    }
  }

  // ... and as much as that allows.
  lemma BoughtMost(shelf: Shelf, tr: Trader, it: Item, amount: nat)
    requires InBounds(shelf) && Priced(shelf) && Solvent(tr) && it in shelf
    ensures var m, had := Bought(shelf, tr, it, amount), if it in tr.hold then tr.hold[it] else 0;
      || m == amount || m == shelf[it].amount || had + m == LONG_MAX
      || (shelf[it].price > 0 && (m + 1) * shelf[it].price > tr.credits)
  {
    if shelf[it].price > 0 {
      NoMore(tr.credits, shelf[it].price);
      hide CDiv;
    }
  }

  lemma NoMore(credits: nat, price: nat)
    requires price > 0
    ensures (CDiv(credits, price) + 1) * price > credits
  {
    CDivIs(credits, price);
    hide CDiv, CMod;
    var q := CDiv(credits, price);
    assert (q + 1) * price == q * price + price;
  }

  // The same for what is sold.
  lemma UnloadedIs(shelf: Shelf, hold: Hold, it: Item, amount: nat)
    requires InBounds(shelf) && it in shelf && it in hold && hold[it] >= 0
    ensures var m := Unloaded(shelf, hold, it, amount);
      && 0 <= m <= amount && m <= hold[it] && shelf[it].amount + m <= shelf[it].max
      && (m == amount || m == hold[it] || shelf[it].amount + m == shelf[it].max)
  {
  }

  // A purchase, in full: there is one if the port has the item and a priced one can be paid for. Then
  // as much as possible goes from the stock to the hold, which gets an entry for the item even if
  // nothing goes, and is paid for as far as it fits an int. Nothing else changes.
  lemma BuyIs(shelf: Shelf, tr: Trader, it: Item, amount: nat)
    requires InBounds(shelf) && Priced(shelf) && Solvent(tr)
    ensures var r := AfterBuying(shelf, tr, it, amount);
      if it !in shelf || (shelf[it].price > 0 && (amount == 0 || tr.credits < shelf[it].price)) then r == (shelf, tr)
      else
        var s, t, had := r.0, r.1, if it in tr.hold then tr.hold[it] else 0;
        && s.Keys == shelf.Keys && t.hold.Keys == tr.hold.Keys + {it}
        && (var m := t.hold[it] - had;
            && 0 <= m <= amount && m * shelf[it].price <= tr.credits && t.hold[it] <= LONG_MAX
            && s[it].amount == shelf[it].amount - m >= 0
            && (m == amount || s[it].amount == 0 || t.hold[it] == LONG_MAX
                || (shelf[it].price > 0 && (m + 1) * shelf[it].price > tr.credits))
            && t.credits == tr.credits - ToInt(m) * shelf[it].price)
        && s[it].(amount := 0) == shelf[it].(amount := 0)
        && (forall i :: i in shelf && i != it ==> s[i] == shelf[i])
        && (forall i :: i in tr.hold && i != it ==> t.hold[i] == tr.hold[i])
  {
    hide ToInt;
    if it in shelf {
      BuysIff(shelf, tr, it, amount);
      BoughtIs(shelf, tr, it, amount);
      BoughtMost(shelf, tr, it, amount);
      hide Bought, Buys, Affordable;
    }
  }

  lemma BuysIff(shelf: Shelf, tr: Trader, it: Item, amount: nat)
    requires Priced(shelf) && Solvent(tr)
    ensures Buys(shelf, tr, it, amount) <==>
      it in shelf && !(shelf[it].price > 0 && (amount == 0 || tr.credits < shelf[it].price))
  {
    if it in shelf && shelf[it].price > 0 {
      var q, price := CDiv(tr.credits, shelf[it].price), shelf[it].price;
      CDivIs(tr.credits, price);
      QuotientZero(tr.credits, price, q, CMod(tr.credits, price));
    }
  }

  lemma QuotientZero(credits: nat, price: nat, q: int, r: nat)
    requires price > 0 && credits == q * price + r && r < price
    ensures q >= 0 && (q == 0 <==> credits < price)
  {
    Scaled(q, price);
  }

  // A sale, in full: there is one if ship and port have the item.
  lemma SellIs(shelf: Shelf, tr: Trader, it: Item, amount: nat)
    requires InBounds(shelf) && Priced(shelf) && Solvent(tr)
    ensures var r := AfterSelling(shelf, tr, it, amount);
      if it !in shelf || it !in tr.hold then r == (shelf, tr)
      else
        var s, t := r.0, r.1;
        && s.Keys == shelf.Keys
        && (var m := s[it].amount - shelf[it].amount;
            && 0 <= m <= amount && m <= tr.hold[it] && s[it].amount <= shelf[it].max
            && (m == amount || m == tr.hold[it] || s[it].amount == shelf[it].max)
            && t.hold == (if m == tr.hold[it] then tr.hold - {it} else tr.hold[it := tr.hold[it] - m])
            && t.credits == tr.credits + ToInt(m) * shelf[it].price)
        && s[it].(amount := 0) == shelf[it].(amount := 0)
        && (forall i :: i in shelf && i != it ==> s[i] == shelf[i])
  {
    hide ToInt;
    if it in shelf && it in tr.hold {
      UnloadedIs(shelf, tr.hold, it, amount);
      hide Unloaded;
    }
  }

  // Buying keeps everything in bounds, whatever the int returned makes of the amount: a long that is
  // not negative never comes back larger.
  lemma BuyKeeps(shelf: Shelf, tr: Trader, it: Item, amount: nat)
    requires Orderly(shelf) && InBounds(shelf) && Priced(shelf) && Solvent(tr)
    ensures (
      var s, t := AfterBuying(shelf, tr, it, amount).0, AfterBuying(shelf, tr, it, amount).1;
      Orderly(s) && InBounds(s) && Priced(s) && Solvent(t) && SameTerms(shelf, s))
  {
    hide Bought, ToInt, Affordable, Orderly, InBounds, Priced, SameTerms, Buys;
    if Buys(shelf, tr, it, amount) {
      BuysOnShelf(shelf, tr, it, amount);
      BoughtIs(shelf, tr, it, amount);
      var m := Bought(shelf, tr, it, amount);
      ReturnedAtMost(m, it.basePrice);
      PriceOf(shelf, it);
      AmountKeeps(shelf, it, shelf[it].amount - m);
    } else {
      SameTermsSelf(shelf);
    }
  }

  lemma ReturnedAtMost(m: nat, price: nat)
    ensures ToInt(m) * price <= m * price
  {
    var r := ToInt(m);
    assert r <= m;
    hide ToInt;
    assert (m - r) * price >= 0;
    assert (m - r) * price == m * price - r * price;
  }

  lemma PriceOf(shelf: Shelf, it: Item)
    requires Priced(shelf) && it in shelf
    ensures shelf[it].price == it.basePrice
  {
  }

  lemma BuysOnShelf(shelf: Shelf, tr: Trader, it: Item, amount: int)
    requires Buys(shelf, tr, it, amount) && InBounds(shelf)
    ensures it in shelf && 0 <= shelf[it].amount <= shelf[it].max
  {
  }

  lemma SameTermsSelf(shelf: Shelf)
    ensures SameTerms(shelf, shelf)
  {
  }

  lemma AmountKeeps(shelf: Shelf, it: Item, amount: int)
    requires Orderly(shelf) && InBounds(shelf) && it in shelf && 0 <= amount <= shelf[it].max
    ensures var s := WithAmount(shelf, it, amount); Orderly(s) && InBounds(s) && SameTerms(shelf, s)
    ensures Priced(shelf) ==> Priced(WithAmount(shelf, it, amount))
  {
    hide Orderly;
    var s := WithAmount(shelf, it, amount);
    assert SameTerms(shelf, s);
    TermsOrderly(shelf, s);
  }

  // Selling does so if what is paid for fits the int.
  lemma SellKeeps(shelf: Shelf, tr: Trader, it: Item, amount: nat)
    requires Orderly(shelf) && InBounds(shelf) && Priced(shelf) && Solvent(tr)
    requires Sells(shelf, tr, it) ==> it.basePrice == 0 || Unloaded(shelf, tr.hold, it, amount) < 0x8000_0000
    ensures (
      var s, t := AfterSelling(shelf, tr, it, amount).0, AfterSelling(shelf, tr, it, amount).1;
      Orderly(s) && InBounds(s) && Priced(s) && Solvent(t) && SameTerms(shelf, s))
  {
    hide ToInt, Orderly, SameTerms;
    if Sells(shelf, tr, it) {
      var m := Unloaded(shelf, tr.hold, it, amount);
      FitsInt(m);
      AmountKeeps(shelf, it, shelf[it].amount + m);
      hide InBounds, Priced;
      assert m * shelf[it].price >= 0;
      assert it.basePrice == 0 ==> ToInt(m) * shelf[it].price == 0;
    } else {
      SameTermsSelf(shelf);
    }
  }

  // ----- what keeps amounts small -----

  // What a player can have: conn_fulfixinit gives 100000 credits, and trading keeps the worth.
  ghost predicate Modest(tr: Trader) {
    Solvent(tr) && Worth(tr) < 0x8000_0000
  }

  lemma NewPlayerModest()
    ensures Modest(Trader(100000, map[])) && Worth(Trader(100000, map[])) == 100000
  {
    assert Values(map[]) == map[];
  }

  lemma {:induction false} SumAtLeast<K>(m: map<K, int>)
    requires forall k :: k in m ==> m[k] >= 0
    ensures SumOf(m) >= 0 && forall k :: k in m ==> m[k] <= SumOf(m)
    decreases |m|
  {
    forall k | k in m
      ensures 0 <= m[k] <= SumOf(m)
    {
      SumSplit(m, k);
      SumAtLeast(m - {k});
    }
  }

  lemma HoldWorth(tr: Trader, it: Item)
    requires Solvent(tr)
    ensures Value(tr.hold) >= 0 && (it in tr.hold ==> tr.hold[it] * it.basePrice <= Value(tr.hold))
  {
    hide SumOf;
    var v := Values(tr.hold);
    forall i | i in v
      ensures v[i] >= 0
    {
      NotNegative(tr.hold[i], i.basePrice);
    }
    SumAtLeast<Item>(v);
    if it in tr.hold {
      assert v[it] == tr.hold[it] * it.basePrice;
    }
  }

  lemma NotNegative(m: nat, price: nat)
    ensures m * price >= 0
  {
  }

  lemma Cheap(m: nat, price: nat, limit: nat)
    requires price > 0 && m * price < limit
    ensures m < limit
  {
    assert m * price >= m;
  }

  // So no such player ever moves more of a priced item than fits an int.
  lemma BuyFits(shelf: Shelf, tr: Trader, it: Item, amount: nat)
    requires InBounds(shelf) && Priced(shelf) && Modest(tr) && it in shelf && it.basePrice > 0
    ensures Bought(shelf, tr, it, amount) < 0x8000_0000
  {
    BoughtIs(shelf, tr, it, amount);
    HoldWorth(tr, it);
    PriceOf(shelf, it);
    Cheap(Bought(shelf, tr, it, amount), it.basePrice, 0x8000_0000);
  }

  lemma SellFits(shelf: Shelf, tr: Trader, it: Item, amount: nat)
    requires InBounds(shelf) && Modest(tr) && Sells(shelf, tr, it) && it.basePrice > 0
    ensures Unloaded(shelf, tr.hold, it, amount) < 0x8000_0000
  {
    HoldWorth(tr, it);
    Cheap(tr.hold[it], it.basePrice, 0x8000_0000);
  }

  // The bound is sharp: a player worth 2147483648 can lose all that, and more, in one sale.
  lemma LargeSale(it: Item)
    requires it.basePrice == 1
    ensures (
      var shelf := map[it := Good(0, 0x8000_0000, 0, 1, [])];
      var tr := Trader(0, map[it := 0x8000_0000]);
      && InBounds(shelf) && Priced(shelf) && Orderly(shelf) && Solvent(tr) && Worth(tr) == 0x8000_0000
      && AfterSelling(shelf, tr, it, 0x8000_0000).1 == Trader(-0x8000_0000, map[]))
  {
    var hold := map[it := 0x8000_0000];
    assert Values(hold) == map[it := 0x8000_0000];
    SumSplit(Values(hold), it);
    assert Values(hold) - {it} == map[];
    assert hold - {it} == map[];
  }

  // Credits and hold together keep their worth, exactly unless an amount is paid for that does not
  // fit an int.
  lemma BuyWorth(shelf: Shelf, tr: Trader, it: Item, amount: nat)
    requires InBounds(shelf) && Priced(shelf) && Solvent(tr) && Buys(shelf, tr, it, amount)
    ensures Worth(AfterBuying(shelf, tr, it, amount).1) == Worth(tr)
      <==> it.basePrice == 0 || Bought(shelf, tr, it, amount) < 0x8000_0000
  {
    BoughtIs(shelf, tr, it, amount);
    var m := Bought(shelf, tr, it, amount);
    var h := Opened(tr.hold, it);
    ValueUpdate(tr.hold, it, 0);
    ValueUpdate(tr.hold, it, h[it] + m);
    assert h[it := h[it] + m] == tr.hold[it := h[it] + m];
    FitsInt(m);
    hide ToInt, Value, Bought, Affordable;
    Difference(m, ToInt(m), it.basePrice);
  }

  lemma SellWorth(shelf: Shelf, tr: Trader, it: Item, amount: nat)
    requires InBounds(shelf) && Priced(shelf) && Solvent(tr) && Sells(shelf, tr, it)
    ensures Worth(AfterSelling(shelf, tr, it, amount).1) == Worth(tr)
      <==> it.basePrice == 0 || Unloaded(shelf, tr.hold, it, amount) < 0x8000_0000
  {
    var m := Unloaded(shelf, tr.hold, it, amount);
    ValueUpdate(tr.hold, it, tr.hold[it] - m);
    FitsInt(m);
    hide ToInt, Value, Unloaded, WithHold;
    Difference(m, ToInt(m), it.basePrice);
  }

  lemma Difference(m: int, r: int, price: int)
    ensures m * price - r * price == (m - r) * price
    ensures (m - r) * price == 0 <==> m == r || price == 0
    ensures (-m) * price == -(m * price)
  {
  }

  // ----- runs: ticks, purchases and sales at any ports, in any order -----

  // A port: the order update_port visits its cargos in, and the cargos.
  datatype Dock = Dock(order: seq<Item>, shelf: Shelf)

  datatype World = World(docks: map<nat, Dock>, traders: map<nat, Trader>)

  datatype Act =
    | Tick(p: nat, iteration: nat)
    | Buy(t: nat, p: nat, it: Item, amount: nat)
    | Sell(t: nat, p: nat, it: Item, amount: nat)

  ghost predicate DockOk(d: Dock) {
    Orderly(d.shelf) && InBounds(d.shelf) && Priced(d.shelf) && forall it :: it in d.order ==> it in d.shelf
  }

  ghost predicate Inv(w: World) {
    && (forall p :: p in w.docks ==> DockOk(w.docks[p]))
    && (forall t :: t in w.traders ==> Modest(w.traders[t]))
  }

  ghost predicate DockListed(d: Dock) {
    AllListed(d.shelf) && forall it :: it in d.order ==> it in d.shelf
  }

  // The port and the trader exist; the port has what its list and its cargos refer to.
  ghost predicate Possible(w: World, a: Act) {
    && a.p in w.docks && DockListed(w.docks[a.p])
    && match a
       case Tick(p, _) => true
       case Buy(t, p, it, amount) => t in w.traders
       case Sell(t, p, it, amount) => t in w.traders
  }

  ghost function Step(w: World, a: Act): World
    requires Possible(w, a)
  {
    var d := w.docks[a.p];
    match a
    case Tick(p, iteration) => w.(docks := w.docks[p := d.(shelf := Updated(d.shelf, d.order, iteration))])
    case Buy(t, p, it, amount) => Traded(w, t, p, AfterBuying(d.shelf, w.traders[t], it, amount))
    case Sell(t, p, it, amount) => Traded(w, t, p, AfterSelling(d.shelf, w.traders[t], it, amount))
  }

  function Traded(w: World, t: nat, p: nat, r: (Shelf, Trader)): World
    requires p in w.docks
  {
    World(w.docks[p := w.docks[p].(shelf := r.0)], w.traders[t := r.1])
  }

  lemma StepKeepsInv(w: World, a: Act)
    requires Inv(w) && Possible(w, a)
    ensures Inv(Step(w, a))
  {
    hide AfterBuying, AfterSelling, Updated, Buys, Sells, Bought, Unloaded, Solvent, Worth, InBounds, Orderly;
    var d := w.docks[a.p];
    match a
    case Tick(p, iteration) =>
      UpdatedKeeps(d.shelf, d.order, iteration);
      PricesStay(d.shelf, Updated(d.shelf, d.order, iteration));
    case Buy(t, p, it, amount) =>
      StepKeepsWorth(w, a, t);
      BuyKeeps(d.shelf, w.traders[t], it, amount);
      PricesStay(d.shelf, AfterBuying(d.shelf, w.traders[t], it, amount).0);
    case Sell(t, p, it, amount) =>
      StepKeepsWorth(w, a, t);
      if Sells(d.shelf, w.traders[t], it) && it.basePrice > 0 {
        SellFits(d.shelf, w.traders[t], it, amount);
      }
      SellKeeps(d.shelf, w.traders[t], it, amount);
      PricesStay(d.shelf, AfterSelling(d.shelf, w.traders[t], it, amount).0);
  }

  lemma PricesStay(s: Shelf, s': Shelf)
    requires Priced(s) && SameTerms(s, s')
    ensures Priced(s') && s'.Keys == s.Keys
  {
    forall it | it in s'
      ensures s'[it].price == it.basePrice
    {
      assert s[it].(amount := 0).price == s'[it].(amount := 0).price;
    }
  }

  // A question of the world the run starts in: which ports and traders there are never changes.
  ghost predicate Legal(w: World, run: seq<Act>) {
    forall i :: 0 <= i < |run| ==> Possible(w, run[i])
  }

  lemma TradedListed(shelf: Shelf, tr: Trader, it: Item, amount: int)
    requires AllListed(shelf)
    ensures SameTerms(shelf, AfterBuying(shelf, tr, it, amount).0) && AllListed(AfterBuying(shelf, tr, it, amount).0)
    ensures SameTerms(shelf, AfterSelling(shelf, tr, it, amount).0) && AllListed(AfterSelling(shelf, tr, it, amount).0)
  {
    hide Bought, Unloaded, ToInt, WithHold, Opened, Affordable;
    AllTermsListed(shelf, AfterBuying(shelf, tr, it, amount).0);
    AllTermsListed(shelf, AfterSelling(shelf, tr, it, amount).0);
  }

  lemma StepPossible(w: World, a: Act, b: Act)
    requires Possible(w, a) && Possible(w, b)
    ensures Possible(Step(w, a), b)
  {
    hide AfterBuying, AfterSelling, Updated, AllListed;
    if !a.Tick? {
      TradedListed(w.docks[a.p].shelf, w.traders[a.t], a.it, a.amount);
    }
  }

  lemma StepLegal(w: World, run: seq<Act>)
    requires Legal(w, run) && run != []
    ensures Legal(Step(w, run[0]), run[1..])
  {
    forall i | 0 <= i < |run| - 1
      ensures Possible(Step(w, run[0]), run[1..][i])
    {
      assert run[1..][i] == run[i + 1];
      hide Possible, Step;
      StepPossible(w, run[0], run[i + 1]);
    }
  }

  ghost function After(w: World, run: seq<Act>): World
    requires Legal(w, run)
    decreases |run|
  {
    if run == [] then w else StepLegal(w, run); After(Step(w, run[0]), run[1..])
  }

  // Stocks stay between 0 and their maximum, holds and credits do not go below 0, over every run, if
  // the needs of the ports are orderly and the players start out modest.
  lemma {:induction false} RunKeepsInv(w: World, run: seq<Act>)
    requires Inv(w) && Legal(w, run)
    ensures Inv(After(w, run))
    decreases |run|
  {
    if run != [] {
      StepLegal(w, run);
      StepKeepsInv(w, run[0]);
      hide Inv, Possible, Step;
      RunKeepsInv(Step(w, run[0]), run[1..]);
    }
  }

  lemma StepKeepsWorth(w: World, a: Act, t: nat)
    requires Inv(w) && Possible(w, a) && t in w.traders
    ensures t in Step(w, a).traders && Worth(Step(w, a).traders[t]) == Worth(w.traders[t])
  {
    hide Worth, AfterBuying, AfterSelling, Updated, Buys, Sells, Bought, Unloaded;
    var d := w.docks[a.p];
    if a.Buy? && a.t == t {
      if Buys(d.shelf, w.traders[t], a.it, a.amount) {
        BuysOnShelf(d.shelf, w.traders[t], a.it, a.amount);
        if a.it.basePrice > 0 {
          BuyFits(d.shelf, w.traders[t], a.it, a.amount);
        }
        BuyWorth(d.shelf, w.traders[t], a.it, a.amount);
      } else {
        NoDeal(d.shelf, w.traders[t], a.it, a.amount);
      }
    } else if a.Sell? && a.t == t {
      if Sells(d.shelf, w.traders[t], a.it) {
        if a.it.basePrice > 0 {
          SellFits(d.shelf, w.traders[t], a.it, a.amount);
        }
        SellWorth(d.shelf, w.traders[t], a.it, a.amount);
      } else {
        NoDeal(d.shelf, w.traders[t], a.it, a.amount);
      }
    }
  }

  lemma NoDeal(shelf: Shelf, tr: Trader, it: Item, amount: int)
    ensures !Buys(shelf, tr, it, amount) ==> AfterBuying(shelf, tr, it, amount) == (shelf, tr)
    ensures !Sells(shelf, tr, it) ==> AfterSelling(shelf, tr, it, amount) == (shelf, tr)
  {
  }

  // Whatever a trader and everybody else does, credits plus the hold at base prices stay the same.
  lemma {:induction false} RunKeepsWorth(w: World, run: seq<Act>, t: nat)
    requires Inv(w) && Legal(w, run) && t in w.traders
    ensures t in After(w, run).traders && Worth(After(w, run).traders[t]) == Worth(w.traders[t])
    decreases |run|
  {
    if run != [] {
      StepLegal(w, run);
      StepKeepsInv(w, run[0]);
      StepKeepsWorth(w, run[0], t);
      hide Inv, Possible, Step, Worth;
      RunKeepsWorth(Step(w, run[0]), run[1..], t);
    }
  }

  // ----- how much of an item there is -----

  function Stock(shelf: Shelf, it: Item): int {
    if it in shelf then shelf[it].amount else 0
  }

  function Held(hold: Hold, it: Item): int {
    if it in hold then hold[it] else 0
  }

  ghost function Total(w: World, it: Item): int {
    SumOf(map p | p in w.docks :: Stock(w.docks[p].shelf, it)) + SumOf(map t | t in w.traders :: Held(w.traders[t].hold, it))
  }

  lemma TradedTotal(w: World, t: nat, p: nat, r: (Shelf, Trader), it: Item)
    requires p in w.docks && t in w.traders
    ensures Total(Traded(w, t, p, r), it) - Total(w, it) ==
      Stock(r.0, it) - Stock(w.docks[p].shelf, it) + Held(r.1.hold, it) - Held(w.traders[t].hold, it)
  {
    var w' := Traded(w, t, p, r);
    var a, b := map q | q in w.docks :: Stock(w.docks[q].shelf, it), map q | q in w.traders :: Held(w.traders[q].hold, it);
    assert (map q | q in w'.docks :: Stock(w'.docks[q].shelf, it)) == a[p := Stock(r.0, it)];
    assert (map q | q in w'.traders :: Held(w'.traders[q].hold, it)) == b[t := Held(r.1.hold, it)];
    SumUpdate(a, p, Stock(r.0, it));
    SumUpdate(b, t, Held(r.1.hold, it));
  }

  // What leaves the port is on the ship, whatever the credits say.
  lemma BuyMoves(shelf: Shelf, tr: Trader, it: Item, amount: int, i: Item)
    ensures var r := AfterBuying(shelf, tr, it, amount);
      Stock(r.0, i) + Held(r.1.hold, i) == Stock(shelf, i) + Held(tr.hold, i)
  {
    hide Bought, Affordable, ToInt;
  }

  lemma SellMoves(shelf: Shelf, tr: Trader, it: Item, amount: int, i: Item)
    ensures var r := AfterSelling(shelf, tr, it, amount);
      Stock(r.0, i) + Held(r.1.hold, i) == Stock(shelf, i) + Held(tr.hold, i)
  {
    hide Unloaded, ToInt;
  }

  lemma TradeKeepsTotal(w: World, a: Act, it: Item)
    requires Possible(w, a) && !a.Tick?
    ensures Total(Step(w, a), it) == Total(w, it)
  {
    hide AfterBuying, AfterSelling, Total, Stock, Held, Traded, DockListed;
    var d := w.docks[a.p];
    if a.Buy? {
      BuyMoves(d.shelf, w.traders[a.t], a.it, a.amount, it);
      TradedTotal(w, a.t, a.p, AfterBuying(d.shelf, w.traders[a.t], a.it, a.amount), it);
    } else {
      SellMoves(d.shelf, w.traders[a.t], a.it, a.amount, it);
      TradedTotal(w, a.t, a.p, AfterSelling(d.shelf, w.traders[a.t], a.it, a.amount), it);
    }
  }

  // Only production changes how much of an item there is in all ports and ships.
  lemma {:induction false} RunKeepsTotal(w: World, run: seq<Act>, it: Item)
    requires Legal(w, run) && forall i :: 0 <= i < |run| ==> !run[i].Tick?
    ensures Total(After(w, run), it) == Total(w, it)
    decreases |run|
  {
    if run != [] {
      StepLegal(w, run);
      TradeKeepsTotal(w, run[0], it);
      hide Possible, Step, Total;
      RunKeepsTotal(Step(w, run[0]), run[1..], it);
    }
  }
}

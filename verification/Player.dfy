// player.c: what a player may do where, and how that follows the ship.
module Players {
  import opened CArith
  import opened CharCodes
  import opened TrieLinks
  import opened TrieKeys
  import opened StringTrie
  import opened Economy
  import opened Trade
  import opened Universes
  import opened Market

  // The handlers in the command table.
  datatype Command =
    | CmdHelp | CmdInventory | CmdQuit | CmdLook | CmdShips | CmdPorts
    | CmdHyper | CmdMap | CmdJump | CmdDock | CmdOrbit | CmdBuy | CmdLeavePort | CmdSell | CmdTrade | CmdLeavePlanet

  // struct cli_data
  class CliData {
    const func: Command

    constructor (f: Command)
      ensures func == f
    {
      func := f;
    }
  }

  predicate Plain(s: string) {
    s != "" && forall i :: 0 <= i < |s| ==> 'a' <= s[i] <= 'z'
  }

  function Name(s: string): (r: seq<Char>)
    requires Plain(s)
    ensures |r| == |s| && forall i :: 0 <= i < |s| ==> r[i] == s[i] as int
  {
    seq(|s|, i requires 0 <= i < |s| => s[i] as int)
  }

  function Key(s: string): Path
    requires Plain(s)
  {
    PathOf(Name(s))
  }

  lemma KeysDiffer(s: string, t: string)
    requires Plain(s) && Plain(t) && (|s| != |t| || s[0] != t[0])
    ensures Key(s) != Key(t)
  {
    SamePath(Name(s), Name(t));
    FoldsTogether(Name(s)[0], Name(t)[0]);
  }

  // The commands of player_init, and those of a place.
  function Base(): map<Path, Command> {
    map[Key("help") := CmdHelp, Key("inventory") := CmdInventory, Key("quit") := CmdQuit, Key("look") := CmdLook,
        Key("ships") := CmdShips, Key("ports") := CmdPorts]
  }

  function Here(pos: Position): map<Path, Command> {
    match pos
    case Nowhere => map[]
    case InSystem(_) =>
      map[Key("go") := CmdHyper, Key("map") := CmdMap, Key("jump") := CmdJump, Key("dock") := CmdDock, Key("orbit") := CmdOrbit]
    case AtPort(_) =>
      map[Key("buy") := CmdBuy, Key("leave") := CmdLeavePort, Key("sell") := CmdSell, Key("trade") := CmdTrade]
    case AtPlanet(_) => map[Key("dock") := CmdDock, Key("leave") := CmdLeavePlanet]
  }

  lemma PlainNames()
    ensures Plain("help") && Plain("inventory") && Plain("quit") && Plain("look") && Plain("ships") && Plain("ports")
    ensures Plain("go") && Plain("map") && Plain("jump") && Plain("dock") && Plain("orbit")
    ensures Plain("buy") && Plain("leave") && Plain("sell") && Plain("trade")
  {
  }

  // The tables as the source builds them.
  lemma BaseIs()
    ensures Plain("help") && Plain("inventory") && Plain("quit") && Plain("look") && Plain("ships") && Plain("ports")
    ensures map[Key("help") := CmdHelp][Key("inventory") := CmdInventory][Key("quit") := CmdQuit][Key("look") := CmdLook]
      [Key("ships") := CmdShips][Key("ports") := CmdPorts] == Base() + Here(Nowhere)
  {
  }

  lemma SystemTable(pos: Position)
    requires pos.InSystem?
    ensures Plain("go") && Plain("map") && Plain("jump") && Plain("dock") && Plain("orbit")
    ensures (Base() + Here(Nowhere))[Key("go") := CmdHyper][Key("map") := CmdMap][Key("jump") := CmdJump][Key("dock") := CmdDock][Key("orbit") := CmdOrbit] == Base() + Here(pos)
    ensures Base() + Here(pos) - {Key("go")} - {Key("map")} - {Key("jump")} - {Key("dock")} - {Key("orbit")} == Base() + Here(Nowhere)
  {
    PlainNames();
    NotBase("go");
    NotBase("map");
    NotBase("jump");
    NotBase("dock");
    NotBase("orbit");
    hide Base, Key;
  }

  lemma PortTable(pos: Position)
    requires pos.AtPort?
    ensures Plain("buy") && Plain("leave") && Plain("sell") && Plain("trade")
    ensures (Base() + Here(Nowhere))[Key("buy") := CmdBuy][Key("leave") := CmdLeavePort][Key("sell") := CmdSell][Key("trade") := CmdTrade] == Base() + Here(pos)
    ensures Base() + Here(pos) - {Key("buy")} - {Key("leave")} - {Key("sell")} - {Key("trade")} == Base() + Here(Nowhere)
  {
    PlainNames();
    NotBase("buy");
    NotBase("leave");
    NotBase("sell");
    NotBase("trade");
    hide Base, Key;
  }

  lemma PlanetTable(pos: Position)
    requires pos.AtPlanet?
    ensures Plain("dock") && Plain("leave")
    ensures (Base() + Here(Nowhere))[Key("dock") := CmdDock][Key("leave") := CmdLeavePlanet] == Base() + Here(pos)
    ensures Base() + Here(pos) - {Key("dock")} - {Key("leave")} == Base() + Here(Nowhere)
  {
    PlainNames();
    NotBase("dock");
    NotBase("leave");
    hide Base, Key;
  }

  // The first characters of a table's names.
  function Firsts(table: map<Path, Command>): set<Path> {
    set q | q in table :: First(q)
  }

  lemma SystemFirsts(pos: Position)
    requires pos.InSystem?
    ensures Plain("go") && Plain("map") && Plain("jump") && Plain("dock") && Plain("orbit")
    ensures Firsts(Here(pos)) ==
      {First(Key("go")), First(Key("map")), First(Key("jump")), First(Key("dock")), First(Key("orbit"))}
  {
    PlainNames();
    hide Key, First;
  }

  lemma PortFirsts(pos: Position)
    requires pos.AtPort?
    ensures Plain("buy") && Plain("leave") && Plain("sell") && Plain("trade")
    ensures Firsts(Here(pos)) == {First(Key("buy")), First(Key("leave")), First(Key("sell")), First(Key("trade"))}
  {
    PlainNames();
    hide Key, First;
  }

  lemma PlanetFirsts(pos: Position)
    requires pos.AtPlanet?
    ensures Plain("dock") && Plain("leave")
    ensures Firsts(Here(pos)) == {First(Key("dock")), First(Key("leave"))}
  {
    PlainNames();
    hide Key, First;
  }

  lemma BaseFirsts()
    ensures Plain("help") && Plain("inventory") && Plain("quit") && Plain("look") && Plain("ships") && Plain("ports")
    ensures Firsts(Base()) == {First(Key("help")), First(Key("inventory")), First(Key("quit")), First(Key("look")),
                               First(Key("ships")), First(Key("ports"))}
  {
    PlainNames();
    hide Key, First;
  }

  // The first characters of all commands of all places a player has been to.
  ghost function BegunIn(been: set<Position>): set<Path> {
    Firsts(Base()) + set pos, q | pos in been && q in Here(pos) :: First(q)
  }

  lemma BegunMore(been: set<Position>, pos: Position)
    ensures BegunIn(been + {pos}) == BegunIn(been) + Firsts(Here(pos))
    ensures BegunIn({}) == Firsts(Base())
  {
    hide Base, Here, First;
  }

  // The server follows a null pointer: the name is a single character, some command the player had
  // before began with it, and none does here.
  ghost predicate Stuck(been: set<Position>, pos: Position, p: Path) {
    Depth(p) == 1 && p in BegunIn(been) && p !in Firsts(Base() + Here(pos))
  }

  lemma StuckIff(k: Links, been: set<Position>, pos: Position, p: Path)
    requires k.Good() && Starts(k, BegunIn(been)) && Offers(k.Contents(), Base() + Here(pos))
    ensures DeadEnd(k, p) <==> Stuck(been, pos, p)
  {
    hide Links.Good, Links.Contents, Base, Here, DeadEnd, BegunIn;
    var table := Base() + Here(pos);
    DeadEndIff(k, BegunIn(been), p);
    NoCompletion(k, p);
    forall w
      ensures Depth(p) == 1 ==> (Above(p, w) <==> w.Sub? && First(w) == p)
    {
      FirstAbove(p, w);
    }
    hide Completes, Above;
    assert Depth(p) == 1 ==> (p !in Firsts(table) <==> forall w :: w in table ==> First(w) != p);
    assert Depth(p) == 1 ==> forall w :: First(w) == p ==> w.Sub?;
  }

  // What a typed name stands for: the command of that name, or the only one it abbreviates.
  datatype Choice = NoCommand | One(f: Command)

  ghost predicate OnlyOne(table: map<Path, Command>, p: Path, w: Path) {
    w in table && Above(p, w) && forall v :: v in table && Above(p, v) ==> v == w
  }

  ghost function Chosen(table: map<Path, Command>, p: Path): Choice {
    if p in table then One(table[p])
    else if exists w :: OnlyOne(table, p, w) then
      var w :| OnlyOne(table, p, w);
      One(table[w])
    else NoCommand
  }

  ghost function Meant(name: CString, pos: Position): Choice {
    if name.NoString? || name.chars == [] then NoCommand else Chosen(Base() + Here(pos), PathOf(name.chars))
  }

  // current_player_system, for a player in a ship
  function CurrentSystem(pos: Position): System? {
    match pos
    case InSystem(s) => s
    case AtPort(p) => p.system
    case AtPlanet(p) => p.system
    case Nowhere => null
  }

  predicate Located(pos: Position) {
    pos.AtPort? ==> pos.port.Located()
  }

  // What cli_run_cmd comes to: a null pointer is followed, no command is found, or a handler runs.
  datatype Outcome = NullPointer | Unknown | Ran(func: Command, r: int)

  // Where each handler's assertions hold.
  predicate Allowed(f: Command, pos: Position) {
    match f
    case CmdHyper => pos.InSystem?
    case CmdMap => pos.InSystem?
    case CmdOrbit => pos.InSystem?
    case CmdJump => pos.InSystem?
    case CmdDock => pos.InSystem? || pos.AtPlanet?
    case CmdBuy => pos.AtPort?
    case CmdSell => pos.AtPort?
    case CmdTrade => pos.AtPort?
    case CmdLeavePort => pos.AtPort?
    case CmdLeavePlanet => pos.AtPlanet?
    case _ => true
  }

  lemma OnlyAllowed(pos: Position, p: Path)
    requires p in Base() + Here(pos)
    ensures Allowed((Base() + Here(pos))[p], pos)
  {
    hide Key;
  }

  // No command of a place has the name of a base command.
  lemma NotBase(n: string)
    requires Plain(n) && |n| != 9 && (|n| == 4 ==> n[0] !in "hql") && (|n| == 5 ==> n[0] !in "sp")
    ensures Key(n) !in Base()
  {
    KeysDiffer(n, "help");
    KeysDiffer(n, "inventory");
    KeysDiffer(n, "quit");
    KeysDiffer(n, "look");
    KeysDiffer(n, "ships");
    KeysDiffer(n, "ports");
    hide Key;
  }

  ghost predicate Runs(data: object?, f: Command) {
    data is CliData && (data as CliData).func == f
  }

  // The trie maps exactly the names of the table, each to its handler.
  ghost predicate Offers(contents: map<Path, object>, table: map<Path, Command>) {
    && contents.Keys == table.Keys
    && forall p :: p in table ==> Runs(contents[p], table[p])
  }

  // What a lookup returns is the handler of the chosen command.
  lemma LookupChooses(k: Links, p: Path, data: object?, table: map<Path, Command>)
    requires Offers(k.Contents(), table)
    requires if p in k.Contents() then data == k.Contents()[p] else IsCompletion(k, p, data)
    ensures data == null <==> Chosen(table, p) == NoCommand
    ensures data != null ==> Chosen(table, p).One? && Runs(data, Chosen(table, p).f)
  {
    hide Links.Contents;
    forall w
      ensures OnlyOne(table, p, w) <==> OnlyCompletion(k, p, w)
    {
      assert forall v :: Completes(k, p, v) <==> v in table && Above(p, v);
    }
    hide OnlyOne, OnlyCompletion;
  }

  lemma ChosenAllowed(pos: Position, p: Path)
    ensures var c := Chosen(Base() + Here(pos), p); c.One? ==> Allowed(c.f, pos)
  {
    hide Base, Here, Allowed;
    if p in Base() + Here(pos) {
      OnlyAllowed(pos, p);
    } else {
      forall w | OnlyOne(Base() + Here(pos), p, w)
        ensures Allowed((Base() + Here(pos))[w], pos)
      {
        OnlyAllowed(pos, w);
      }
    }
  }

  lemma NothingOffered(contents: map<Path, object>)
    requires contents == map[]
    ensures Offers(contents, map[])
  {
  }

  lemma NothingStarted(k: Links)
    requires k.n.Keys == {Top}
    ensures Starts(k, {})
  {
  }

  lemma OneMore(contents: map<Path, object>, table: map<Path, Command>, p: Path, data: CliData)
    requires Offers(contents, table)
    ensures Offers(contents[p := data], table[p := data.func])
  {
  }

  lemma OneLess(contents: map<Path, object>, table: map<Path, Command>, p: Path)
    requires Offers(contents, table)
    ensures Offers(contents - {p}, table - {p})
  {
  }

  class Player {
    var credits: int
    const ship: Ship
    const cli: Trie
    // Where player_go has put the ship
    ghost var been: set<Position>

    // The ship and credits conn_fulfixinit gives; st_init in player_init
    constructor (s: Ship)
      ensures ship == s && credits == 100000 && fresh(cli) && fresh(cli.roots) && fresh(cli.tables)
      ensures cli.Valid() && Offers(cli.k.Contents(), map[]) && Starts(cli.k, {}) && been == {}
    {
      hide *;
      ship, credits := s, 100000;
      cli := new Trie();
      been := {};
      new;
      NothingOffered(cli.k.Contents());
      NothingStarted(cli.k);
    }

    // The commands of player_init
    method AddBaseCommands()
      requires cli.Valid() && Offers(cli.k.Contents(), map[]) && Starts(cli.k, {}) && been == {} && ship.pos == Nowhere
      modifies cli`k, cli`roots, cli`tables, cli.roots, cli.tables`lsb
      ensures Ready() && fresh(cli.roots - old(cli.roots)) && fresh(cli.tables - old(cli.tables))
    {
      hide *;
      PlainNames();
      ghost var t1 := map[Key("help") := CmdHelp];
      ghost var t2 := t1[Key("inventory") := CmdInventory];
      ghost var t3 := t2[Key("quit") := CmdQuit];
      ghost var t4 := t3[Key("look") := CmdLook];
      ghost var t5 := t4[Key("ships") := CmdShips];
      ghost var b1 := {First(Key("help"))};
      ghost var b2 := b1 + {First(Key("inventory"))};
      ghost var b3 := b2 + {First(Key("quit"))};
      ghost var b4 := b3 + {First(Key("look"))};
      ghost var b5 := b4 + {First(Key("ships"))};
      AddCmd("help", CmdHelp, map[], {});
      assert {} + b1 == b1;
      AddCmd("inventory", CmdInventory, t1, b1);
      AddCmd("quit", CmdQuit, t2, b2);
      AddCmd("look", CmdLook, t3, b3);
      AddCmd("ships", CmdShips, t4, b4);
      AddCmd("ports", CmdPorts, t5, b5);
      BaseIs();
      BaseFirsts();
      assert b5 + {First(Key("ports"))} == Firsts(Base());
      BegunMore({}, Nowhere);
      IntoReady();
    }

    lemma IntoReady()
      requires cli.Valid() && Offers(cli.k.Contents(), Base() + Here(ship.pos)) && Starts(cli.k, BegunIn(been))
      ensures Ready()
    {
    }

    ghost function TraderNow(): Trader
      requires ship.Valid()
      reads this`credits, ship`cargo, ship`cargoNames, ship.cargo`max, ship.cargo`amount
    {
      Trader(credits, ship.HoldNow())
    }

    // Port and ship have no cargo in common.
    ghost predicate Apart(port: Port)
      reads port`items, ship`cargo
    {
      forall c :: c in port.items ==> c !in ship.cargo
    }

    // move_cargo_to_ship on a cargo of the port
    method Load(port: Port, c: Cargo, amount: int) returns (r: int)
      requires port.Valid() && ship.Valid() && Apart(port) && c in port.items && c.amount >= 0
      modifies ship`cargo, ship`cargoNames, ship.cargo`amount, c`amount
      ensures port.Valid() && ship.Valid() && Apart(port) && c.item in old(port.ShelfNow())
      ensures (
        var h := Opened(old(ship.HoldNow()), c.item);
        var m := Loaded(old(port.ShelfNow()), old(ship.HoldNow()), c.item, amount);
        && ship.HoldNow() == h[c.item := h[c.item] + m] && r == ToInt(m)
        && port.ShelfNow() == WithAmount(old(port.ShelfNow()), c.item, old(port.ShelfNow())[c.item].amount - m))
    {
      hide Ship.Valid, Ship.HoldNow, ToInt;
      port.OnShelf(c);
      r := ship.MoveTo(c, amount);
    }

    // move_cargo_from_ship on a cargo of the port
    method Unload(port: Port, c: Cargo, amount: int) returns (r: int)
      requires port.Valid() && ship.Valid() && Apart(port) && c in port.items && 0 <= c.amount <= c.max
      requires c.item in ship.cargoNames
      modifies ship`cargo, ship`cargoNames, ship.cargo`amount, c`amount
      ensures port.Valid() && ship.Valid() && Apart(port) && c.item in old(port.ShelfNow()) && c.item in old(ship.HoldNow())
      ensures (
        var h := old(ship.HoldNow());
        var m := Unloaded(old(port.ShelfNow()), h, c.item, amount);
        && ship.HoldNow() == WithHold(h, c.item, h[c.item] - m) && r == ToInt(m)
        && port.ShelfNow() == WithAmount(old(port.ShelfNow()), c.item, old(port.ShelfNow())[c.item].amount + m))
    {
      hide Ship.Valid, Ship.HoldNow, ToInt;
      ship.HoldIs(c.item);
      port.OnShelf(c);
      r := ship.MoveFrom(c, amount);
    }

    // cmd_buy, after parsing, at the port the ship is docked at
    method Buy(port: Port, it: Item, asked: nat)
      requires ship.pos == AtPort(port)
      requires port.Valid() && ship.Valid() && Apart(port) && InBounds(port.ShelfNow())
      modifies this`credits, ship`cargo, ship`cargoNames, ship.cargo`amount, port.items`amount
      ensures port.Valid() && ship.Valid() && Apart(port)
      ensures (port.ShelfNow(), TraderNow()) == AfterBuying(old(port.ShelfNow()), old(TraderNow()), it, asked)
    {
      hide Port.Valid, Port.ShelfNow, Ship.Valid, Ship.HoldNow, ToInt, Apart, CDiv, Loaded;
      port.NamesOnShelf();
      if it !in port.itemNames {
        return;
      }
      var c := port.itemNames[it];
      port.OnShelf(c);
      var amount: int := asked;
      if c.price != 0 {
        amount := Min(amount, CDiv(credits, c.price));
        if amount == 0 {
          return;
        }
      }
      var moved := Load(port, c, amount);
      var price := moved * c.price;
      credits := credits - price;
    }

    // cmd_sell, after parsing
    method Sell(port: Port, it: Item, asked: nat)
      requires ship.pos == AtPort(port)
      requires port.Valid() && ship.Valid() && Apart(port) && InBounds(port.ShelfNow())
      modifies this`credits, ship`cargo, ship`cargoNames, ship.cargo`amount, port.items`amount
      ensures port.Valid() && ship.Valid() && Apart(port)
      ensures (port.ShelfNow(), TraderNow()) == AfterSelling(old(port.ShelfNow()), old(TraderNow()), it, asked)
    {
      hide Port.Valid, Port.ShelfNow, Ship.Valid, Ship.HoldNow, ToInt, Apart, Unloaded;
      port.NamesOnShelf();
      ship.HoldIs(it);
      if it !in ship.cargoNames {
        return;
      }
      if it !in port.itemNames {
        return;
      }
      var c := port.itemNames[it];
      port.OnShelf(c);
      var moved := Unload(port, c, asked);
      var price := moved * c.price;
      credits := credits + price;
    }

    ghost predicate Ready()
      reads this`been, ship`pos, cli, cli.roots, cli.tables
    {
      cli.Valid() && Offers(cli.k.Contents(), Base() + Here(ship.pos)) && Starts(cli.k, BegunIn(been))
    }

    // cli_add_cmd
    method AddCmd(name: string, f: Command, ghost table: map<Path, Command>, ghost b: set<Path>)
      requires Plain(name) && cli.Valid() && Offers(cli.k.Contents(), table) && Starts(cli.k, b)
      modifies cli`k, cli`roots, cli`tables, cli.roots, cli.tables`lsb
      ensures cli.Valid() && Offers(cli.k.Contents(), table[Key(name) := f]) && Starts(cli.k, b + {First(Key(name))})
      ensures fresh(cli.roots - old(cli.roots)) && fresh(cli.tables - old(cli.tables))
    {
      hide Trie.Valid, Links.Contents, Offers, PathOf, Starts, First, Grown;
      var node := new CliData(f);
      OneMore(cli.k.Contents(), table, Key(name), node);
      ghost var k0 := cli.k;
      var r := cli.AddString(Str(Name(name)), node);
      NonEmptyPath(Name(name));
      StartsGrown(k0, cli.k, Key(name), b);
    }

    // cli_rm_cmd
    method RmCmd(name: string, ghost table: map<Path, Command>, ghost b: set<Path>)
      requires Plain(name) && cli.Valid() && Offers(cli.k.Contents(), table) && Starts(cli.k, b)
      modifies cli`k, cli.roots, cli.tables`lsb
      ensures cli.Valid() && Offers(cli.k.Contents(), table - {Key(name)}) && Starts(cli.k, b)
    {
      hide Trie.Valid, Links.Contents, Offers, PathOf, Starts;
      OneLess(cli.k.Contents(), table, Key(name));
      ghost var k0 := cli.k;
      var node := cli.RmString(Str(Name(name)));
      StartsKept(k0, cli.k, b);
    }

    // ----- the arms of player_go -----

    method RmSystemCommands(ghost pos: Position, ghost b: set<Path>)
      requires cli.Valid() && pos.InSystem? && Offers(cli.k.Contents(), Base() + Here(pos)) && Starts(cli.k, b)
      modifies cli`k, cli.roots, cli.tables`lsb
      ensures cli.Valid() && Offers(cli.k.Contents(), Base() + Here(Nowhere)) && Starts(cli.k, b)
    {
      hide *;
      SystemTable(pos);
      ghost var t0 := Base() + Here(pos);
      ghost var t1 := t0 - {Key("go")};
      ghost var t2 := t1 - {Key("map")};
      ghost var t3 := t2 - {Key("jump")};
      ghost var t4 := t3 - {Key("dock")};
      RmCmd("go", t0, b);
      RmCmd("map", t1, b);
      RmCmd("jump", t2, b);
      RmCmd("dock", t3, b);
      RmCmd("orbit", t4, b);
    }

    method AddSystemCommands(ghost pos: Position, ghost b: set<Path>)
      requires cli.Valid() && pos.InSystem? && Offers(cli.k.Contents(), Base() + Here(Nowhere)) && Starts(cli.k, b)
      modifies cli`k, cli`roots, cli`tables, cli.roots, cli.tables`lsb
      ensures cli.Valid() && Offers(cli.k.Contents(), Base() + Here(pos)) && Starts(cli.k, b + Firsts(Here(pos)))
      ensures fresh(cli.roots - old(cli.roots)) && fresh(cli.tables - old(cli.tables))
    {
      hide *;
      SystemTable(pos);
      ghost var t0 := Base() + Here(Nowhere);
      ghost var t1 := t0[Key("go") := CmdHyper];
      ghost var t2 := t1[Key("map") := CmdMap];
      ghost var t3 := t2[Key("jump") := CmdJump];
      ghost var t4 := t3[Key("dock") := CmdDock];
      SystemFirsts(pos);
      ghost var b0 := b;
      ghost var b1 := b0 + {First(Key("go"))};
      ghost var b2 := b1 + {First(Key("map"))};
      ghost var b3 := b2 + {First(Key("jump"))};
      ghost var b4 := b3 + {First(Key("dock"))};
      ghost var b5 := b4 + {First(Key("orbit"))};
      AddCmd("go", CmdHyper, t0, b0);
      AddCmd("map", CmdMap, t1, b1);
      AddCmd("jump", CmdJump, t2, b2);
      AddCmd("dock", CmdDock, t3, b3);
      AddCmd("orbit", CmdOrbit, t4, b4);
      assert b5 == b + Firsts(Here(pos));
    }

    method RmPortCommands(ghost pos: Position, ghost b: set<Path>)
      requires cli.Valid() && pos.AtPort? && Offers(cli.k.Contents(), Base() + Here(pos)) && Starts(cli.k, b)
      modifies cli`k, cli.roots, cli.tables`lsb
      ensures cli.Valid() && Offers(cli.k.Contents(), Base() + Here(Nowhere)) && Starts(cli.k, b)
    {
      hide *;
      PortTable(pos);
      ghost var t0 := Base() + Here(pos);
      ghost var t1 := t0 - {Key("buy")};
      ghost var t2 := t1 - {Key("leave")};
      ghost var t3 := t2 - {Key("sell")};
      RmCmd("buy", t0, b);
      RmCmd("leave", t1, b);
      RmCmd("sell", t2, b);
      RmCmd("trade", t3, b);
    }

    method AddPortCommands(ghost pos: Position, ghost b: set<Path>)
      requires cli.Valid() && pos.AtPort? && Offers(cli.k.Contents(), Base() + Here(Nowhere)) && Starts(cli.k, b)
      modifies cli`k, cli`roots, cli`tables, cli.roots, cli.tables`lsb
      ensures cli.Valid() && Offers(cli.k.Contents(), Base() + Here(pos)) && Starts(cli.k, b + Firsts(Here(pos)))
      ensures fresh(cli.roots - old(cli.roots)) && fresh(cli.tables - old(cli.tables))
    {
      hide *;
      PortTable(pos);
      ghost var t0 := Base() + Here(Nowhere);
      ghost var t1 := t0[Key("buy") := CmdBuy];
      ghost var t2 := t1[Key("leave") := CmdLeavePort];
      ghost var t3 := t2[Key("sell") := CmdSell];
      PortFirsts(pos);
      ghost var b0 := b;
      ghost var b1 := b0 + {First(Key("buy"))};
      ghost var b2 := b1 + {First(Key("leave"))};
      ghost var b3 := b2 + {First(Key("sell"))};
      ghost var b4 := b3 + {First(Key("trade"))};
      AddCmd("buy", CmdBuy, t0, b0);
      AddCmd("leave", CmdLeavePort, t1, b1);
      AddCmd("sell", CmdSell, t2, b2);
      AddCmd("trade", CmdTrade, t3, b3);
      assert b4 == b + Firsts(Here(pos));
    }

    method RmPlanetCommands(ghost pos: Position, ghost b: set<Path>)
      requires cli.Valid() && pos.AtPlanet? && Offers(cli.k.Contents(), Base() + Here(pos)) && Starts(cli.k, b)
      modifies cli`k, cli.roots, cli.tables`lsb
      ensures cli.Valid() && Offers(cli.k.Contents(), Base() + Here(Nowhere)) && Starts(cli.k, b)
    {
      hide *;
      PlanetTable(pos);
      ghost var t0 := Base() + Here(pos);
      ghost var t1 := t0 - {Key("dock")};
      RmCmd("dock", t0, b);
      RmCmd("leave", t1, b);
    }

    method AddPlanetCommands(ghost pos: Position, ghost b: set<Path>)
      requires cli.Valid() && pos.AtPlanet? && Offers(cli.k.Contents(), Base() + Here(Nowhere)) && Starts(cli.k, b)
      modifies cli`k, cli`roots, cli`tables, cli.roots, cli.tables`lsb
      ensures cli.Valid() && Offers(cli.k.Contents(), Base() + Here(pos)) && Starts(cli.k, b + Firsts(Here(pos)))
      ensures fresh(cli.roots - old(cli.roots)) && fresh(cli.tables - old(cli.tables))
    {
      hide *;
      PlanetTable(pos);
      ghost var t0 := Base() + Here(Nowhere);
      ghost var t1 := t0[Key("dock") := CmdDock];
      PlanetFirsts(pos);
      ghost var b0 := b;
      ghost var b1 := b0 + {First(Key("dock"))};
      ghost var b2 := b1 + {First(Key("leave"))};
      AddCmd("dock", CmdDock, t0, b0);
      AddCmd("leave", CmdLeavePlanet, t1, b1);
      assert b2 == b + Firsts(Here(pos));
    }

    lemma ReadyView()
      requires Ready()
      ensures cli.Valid() && Offers(cli.k.Contents(), Base() + Here(ship.pos)) && Starts(cli.k, BegunIn(been))
    {
    }

    // player_go: the commands of the old place go, the ship moves, the commands of the new place come.
    method Go(pos: Position)
      requires Ready() && pos != Nowhere
      modifies this`been, ship`pos, cli`k, cli`roots, cli`tables, cli.roots, cli.tables`lsb
      ensures Ready() && ship.pos == pos && been == old(been) + {pos}
      ensures fresh(cli.roots - old(cli.roots)) && fresh(cli.tables - old(cli.tables))
    {
      hide *;
      ReadyView();
      ghost var b := BegunIn(been);
      match ship.pos {
        case InSystem(_) => RmSystemCommands(ship.pos, b);
        case AtPort(_) => RmPortCommands(ship.pos, b);
        case AtPlanet(_) => RmPlanetCommands(ship.pos, b);
        case Nowhere =>
      }
      ship.pos := pos;
      been := been + {pos};
      BegunMore(old(been), pos);
      match pos {
        case InSystem(_) => AddSystemCommands(pos, b);
        case AtPort(_) => AddPortCommands(pos, b);
        case AtPlanet(_) => AddPlanetCommands(pos, b);
      }
      IntoReady();
    }

    // current_player_system
    method CurrentPlayerSystem() returns (s: System?)
      requires ship.pos != Nowhere
      ensures s == CurrentSystem(ship.pos)
      ensures ship.pos.InSystem? ==> s == ship.pos.system
      ensures ship.pos.AtPort? ==> s == ship.pos.port.system
      ensures ship.pos.AtPlanet? ==> s == ship.pos.planet.system
    {
      match ship.pos {
        case InSystem(system) => s := system;
        case AtPort(port) => s := port.system;
        case AtPlanet(planet) => s := planet.system;
      }
    }

    // ----- the handlers that move the ship, after their name lookups -----

    // cmd_hyper
    method Hyper(system: System?) returns (r: int)
      requires Ready() && ship.pos.InSystem?
      modifies this`been, ship`pos, cli`k, cli`roots, cli`tables, cli.roots, cli.tables`lsb
      ensures Ready() && fresh(cli.roots - old(cli.roots)) && fresh(cli.tables - old(cli.tables))
      ensures r == if system != null && system in old(ship.pos.system.links) then 0 else 1
      ensures ship.pos == if r == 0 then InSystem(system) else old(ship.pos)
    {
      hide *;
      if system == null {
        return 1;
      }
      var ok := IsLinked(ship.pos.system, system);
      if !ok {
        return 1;
      }
      Go(InSystem(system));
      r := 0;
    }

    // cmd_jump
    method Jump(system: System?) returns (r: int)
      requires Ready()
      modifies this`been, ship`pos, cli`k, cli`roots, cli`tables, cli.roots, cli.tables`lsb
      ensures Ready() && fresh(cli.roots - old(cli.roots)) && fresh(cli.tables - old(cli.tables))
      ensures r == if system != null then 0 else 1
      ensures ship.pos == if system != null then InSystem(system) else old(ship.pos)
    {
      hide *;
      if system == null {
        return 1;
      }
      Go(InSystem(system));
      r := 0;
    }

    // cmd_dock
    method Dock(port: Port?) returns (r: int)
      requires Ready()
      modifies this`been, ship`pos, cli`k, cli`roots, cli`tables, cli.roots, cli.tables`lsb
      ensures Ready() && fresh(cli.roots - old(cli.roots)) && fresh(cli.tables - old(cli.tables))
      ensures r == 0 || r == 1
      ensures old(ship.pos).AtPlanet? ==> (r == 0 <==> port != null && port.planet == old(ship.pos).planet)
      ensures old(ship.pos).InSystem? ==> (r == 0 <==> port != null && port.system == old(ship.pos).system)
      ensures old(ship.pos).AtPort? || old(ship.pos).Nowhere? ==> r == 1
      ensures ship.pos == if r == 0 then AtPort(port) else old(ship.pos)
      ensures port != null && port.Located() ==> CurrentSystem(ship.pos) == old(CurrentSystem(ship.pos))
    {
      hide Ready;
      if port != null && ((ship.pos.AtPlanet? && port.planet == ship.pos.planet)
                          || (ship.pos.InSystem? && port.system == ship.pos.system)) {
        Go(AtPort(port));
        return 0;
      }
      r := 1;
    }

    // cmd_orbit
    method Orbit(planet: Planet?) returns (r: int)
      requires Ready() && ship.pos.InSystem?
      modifies this`been, ship`pos, cli`k, cli`roots, cli`tables, cli.roots, cli.tables`lsb
      ensures Ready() && fresh(cli.roots - old(cli.roots)) && fresh(cli.tables - old(cli.tables))
      ensures r == if planet != null && planet.system == old(ship.pos).system then 0 else 1
      ensures ship.pos == if r == 0 then AtPlanet(planet) else old(ship.pos)
      ensures CurrentSystem(ship.pos) == old(CurrentSystem(ship.pos))
    {
      hide Ready;
      if planet == null || planet.system != ship.pos.system {
        return 1;
      }
      Go(AtPlanet(planet));
      r := 0;
    }

    // cmd_leave_port; with neither a planet nor a system the source stops in bug().
    method LeavePort() returns (r: int)
      requires Ready() && ship.pos.AtPort? && ship.pos.port.Located()
      modifies this`been, ship`pos, cli`k, cli`roots, cli`tables, cli.roots, cli.tables`lsb
      ensures Ready() && fresh(cli.roots - old(cli.roots)) && fresh(cli.tables - old(cli.tables))
      ensures r == 0 && ship.pos ==
        if old(ship.pos).port.planet != null then AtPlanet(old(ship.pos).port.planet) else InSystem(old(ship.pos).port.system)
      ensures CurrentSystem(ship.pos) == old(CurrentSystem(ship.pos))
    {
      hide Ready;
      var port := ship.pos.port;
      if port.planet != null {
        Go(AtPlanet(port.planet));
      } else {
        Go(InSystem(port.system));
      }
      r := 0;
    }

    // cmd_leave_planet
    method LeavePlanet() returns (r: int)
      requires Ready() && ship.pos.AtPlanet?
      modifies this`been, ship`pos, cli`k, cli`roots, cli`tables, cli.roots, cli.tables`lsb
      ensures Ready() && fresh(cli.roots - old(cli.roots)) && fresh(cli.tables - old(cli.tables))
      ensures r == 0 && ship.pos == InSystem(old(ship.pos).planet.system)
      ensures CurrentSystem(ship.pos) == old(CurrentSystem(ship.pos))
    {
      hide Ready;
      Go(InSystem(ship.pos.planet.system));
      r := 0;
    }

    // The lookup of cli_run_cmd: the chosen command, and it may run here.
    method FindCommand(name: CString) returns (found: Lookup<CliData?>)
      requires Ready()
      ensures Ready()
      ensures found.NullDereference? <==> name.Str? && Stuck(been, ship.pos, PathOf(name.chars))
      ensures found.Found? ==> (found.data == null <==> Meant(name, ship.pos) == NoCommand)
      ensures found.Found? && found.data != null ==>
        Meant(name, ship.pos) == One(found.data.func) && Allowed(found.data.func, ship.pos)
    {
      hide Trie.Valid, Links.Contents, Offers, Starts, Allowed, Base, Here, IsCompletion, PathOf, DeadEnd, Stuck, Chosen;
      var r := cli.LookupString(name);
      cli.ValidView();
      if name.NoString? || name.chars == [] {
        EmptyNotStuck(name);
        return Found(null);
      }
      ghost var q := PathOf(name.chars);
      StuckIff(cli.k, been, ship.pos, q);
      if r.NullDereference? {
        return NullDereference;
      }
      LookupChooses(cli.k, q, r.data, Base() + Here(ship.pos));
      ChosenAllowed(ship.pos, q);
      if r.data == null {
        return Found(null);
      }
      found := Found(r.data as CliData);
    }

    lemma EmptyNotStuck(name: CString)
      requires name.NoString? || name.chars == []
      ensures !(name.Str? && Stuck(been, ship.pos, PathOf(name.chars)))
    {
    }

    // cli_run_cmd, with what the handlers would look up for its parameter. Whatever is typed, the
    // assertions of the handler hold, and only a link or a jump leads to another system.
    method RunCommand(name: CString, system: System?, port: Port?, planet: Planet?) returns (o: Outcome)
      requires Ready() && Located(ship.pos) && (port != null ==> port.Located())
      modifies this`been, ship`pos, cli`k, cli`roots, cli`tables, cli.roots, cli.tables`lsb
      ensures Ready() && Located(ship.pos)
      ensures o == NullPointer <==> name.Str? && Stuck(old(been), old(ship.pos), PathOf(name.chars))
      ensures o == Unknown ==> Meant(name, old(ship.pos)) == NoCommand
      ensures o.Ran? ==> Meant(name, old(ship.pos)) == One(o.func) && Allowed(o.func, old(ship.pos))
      ensures o.Ran? && old(Goes(o.func, ship.pos, system, port, planet)) ==>
        ship.pos == Target(o.func, old(ship.pos), system, port, planet)
      ensures !(o.Ran? && old(Goes(o.func, ship.pos, system, port, planet))) ==> ship.pos == old(ship.pos)
      ensures o.Ran? && Moving(o.func) ==> o.r == if old(Goes(o.func, ship.pos, system, port, planet)) then 0 else 1
      ensures o.Ran? && o.func in {CmdHyper, CmdMap, CmdJump, CmdOrbit} ==> old(ship.pos).InSystem?
      ensures o.Ran? && o.func in {CmdBuy, CmdSell, CmdTrade, CmdLeavePort} ==> old(ship.pos).AtPort?
      ensures o.Ran? && o.func == CmdLeavePlanet ==> old(ship.pos).AtPlanet?
      ensures o.Ran? && o.func == CmdDock ==> old(ship.pos).InSystem? || old(ship.pos).AtPlanet?
      ensures o.Ran? && o.func == CmdDock && old(ship.pos).AtPlanet? ==>
        (o.r == 0 <==> port != null && port.planet == old(ship.pos).planet)
      ensures o.Ran? && o.func == CmdDock && old(ship.pos).InSystem? ==>
        (o.r == 0 <==> port != null && port.system == old(ship.pos).system)
      ensures CurrentSystem(ship.pos) == old(CurrentSystem(ship.pos))
        || (o == Ran(CmdJump, 0) && system != null && ship.pos == InSystem(system))
        || (o == Ran(CmdHyper, 0) && old(ship.pos).InSystem? && system != null
            && system in old(ship.pos.system.links) && ship.pos == InSystem(system))
    {
      hide Ready, Stuck, Meant;
      var found := FindCommand(name);
      if found.NullDereference? {
        return NullPointer;
      }
      if found.data == null {
        return Unknown;
      }
      var r := 0;
      match found.data.func {
        case CmdHyper => r := Hyper(system);
        case CmdJump => r := Jump(system);
        case CmdDock => r := Dock(port);
        case CmdOrbit => r := Orbit(planet);
        case CmdLeavePort => r := LeavePort();
        case CmdLeavePlanet => r := LeavePlanet();
        case _ =>
      }
      o := Ran(found.data.func, r);
    }
  }

  predicate Moving(f: Command) {
    f in {CmdHyper, CmdJump, CmdDock, CmdOrbit, CmdLeavePort, CmdLeavePlanet}
  }

  // Whether a handler moves the ship, given what it looked up,
  predicate Goes(f: Command, pos: Position, system: System?, port: Port?, planet: Planet?)
    reads if pos.InSystem? then {pos.system} else {}
  {
    match f
    case CmdHyper => pos.InSystem? && system != null && system in pos.system.links
    case CmdJump => system != null
    case CmdDock =>
      port != null && ((pos.AtPlanet? && port.planet == pos.planet) || (pos.InSystem? && port.system == pos.system))
    case CmdOrbit => pos.InSystem? && planet != null && planet.system == pos.system
    case CmdLeavePort => pos.AtPort?
    case CmdLeavePlanet => pos.AtPlanet?
    case _ => false
  }

  // ... and where to.
  function Target(f: Command, pos: Position, system: System?, port: Port?, planet: Planet?): Position {
    match f
    case CmdDock => if port != null then AtPort(port) else pos
    case CmdOrbit => if planet != null then AtPlanet(planet) else pos
    case CmdLeavePort =>
      if pos.AtPort? && pos.port.planet != null then AtPlanet(pos.port.planet)
      else if pos.AtPort? && pos.port.system != null then InSystem(pos.port.system)
      else pos
    case CmdLeavePlanet => if pos.AtPlanet? then InSystem(pos.planet.system) else pos
    case _ => if system != null then InSystem(system) else pos
  }

  // ----- a single letter at a port -----

  lemma {:induction false} FirstOfString(s: seq<Char>)
    requires s != []
    ensures First(PathOf(s)) == PathOf(s[..1])
  {
    if |s| == 1 {
      assert s[..1] == s;
    } else {
      var u := s[..|s| - 1];
      assert u[..1] == s[..1];
      FirstOfString(u);
      NonEmptyPath(u);
    }
  }

  lemma FirstLetter(c: char, s: string)
    requires 'a' <= c <= 'z' && Plain(s)
    ensures Plain([c]) && (First(Key(s)) == Key([c]) <==> c == s[0])
  {
    FirstOfString(Name(s));
    SamePath(Name(s)[..1], Name([c]));
    FoldsTogether(Name(s)[0], c as int);
  }

  lemma FirstLetters(pos: Position, c: char)
    requires 'a' <= c <= 'z'
    ensures Plain([c])
    ensures Key([c]) in Firsts(Base()) <==> c in "hiqlsp"
    ensures Key([c]) in Firsts(Here(pos)) <==>
      match pos case InSystem(_) => c in "gmjdo" case AtPort(_) => c in "blst" case AtPlanet(_) => c in "dl" case Nowhere => false
  {
    hide Firsts, Here, Base, Key, First;
    PlainNames();
    BaseFirsts();
    LettersOf(c);
    match pos
    case InSystem(_) => SystemFirsts(pos);
    case AtPort(_) => PortFirsts(pos);
    case AtPlanet(_) => PlanetFirsts(pos);
    case Nowhere => NowhereFirsts();
  }

  lemma NowhereFirsts()
    ensures Firsts(Here(Nowhere)) == {}
  {
  }

  lemma LettersOf(c: char)
    requires 'a' <= c <= 'z'
    ensures Plain([c]) && Plain("help") && Plain("inventory") && Plain("quit") && Plain("look") && Plain("ships") && Plain("ports")
    ensures Plain("go") && Plain("map") && Plain("jump") && Plain("dock") && Plain("orbit")
    ensures Plain("buy") && Plain("leave") && Plain("sell") && Plain("trade")
    ensures First(Key("help")) == Key([c]) <==> c == 'h'
    ensures First(Key("inventory")) == Key([c]) <==> c == 'i'
    ensures First(Key("quit")) == Key([c]) <==> c == 'q'
    ensures First(Key("look")) == Key([c]) <==> c == 'l'
    ensures First(Key("ships")) == Key([c]) <==> c == 's'
    ensures First(Key("ports")) == Key([c]) <==> c == 'p'
    ensures First(Key("go")) == Key([c]) <==> c == 'g'
    ensures First(Key("map")) == Key([c]) <==> c == 'm'
    ensures First(Key("jump")) == Key([c]) <==> c == 'j'
    ensures First(Key("dock")) == Key([c]) <==> c == 'd'
    ensures First(Key("orbit")) == Key([c]) <==> c == 'o'
    ensures First(Key("buy")) == Key([c]) <==> c == 'b'
    ensures First(Key("leave")) == Key([c]) <==> c == 'l'
    ensures First(Key("sell")) == Key([c]) <==> c == 's'
    ensures First(Key("trade")) == Key([c]) <==> c == 't'
  {
    PlainNames();
    hide Key, First;
    FirstLetter(c, "help");
    FirstLetter(c, "inventory");
    FirstLetter(c, "quit");
    FirstLetter(c, "look");
    FirstLetter(c, "ships");
    FirstLetter(c, "ports");
    FirstLetter(c, "go");
    FirstLetter(c, "map");
    FirstLetter(c, "jump");
    FirstLetter(c, "dock");
    FirstLetter(c, "orbit");
    FirstLetter(c, "buy");
    FirstLetter(c, "leave");
    FirstLetter(c, "sell");
    FirstLetter(c, "trade");
  }

  // At a port, a player who came through a system ends the server with exactly these letters.
  lemma StuckAtPort(been: set<Position>, system: System, pos: Position, c: char)
    requires InSystem(system) in been && pos.AtPort? && 'a' <= c <= 'z'
    ensures Plain([c]) && (Stuck(been, pos, Key([c])) <==> c in "gmjdo")
  {
    FirstLetters(pos, c);
    FirstLetters(InSystem(system), c);
    PathOfDepth(Name([c]));
    FirstsJoin(Base(), Here(pos));
    hide Base, Here, First, Firsts, Key, BegunIn, Name;
    forall q
      ensures q in been && Key([c]) in Firsts(Here(q)) ==> c in "gmjdoblst"
    {
      FirstLetters(q, c);
    }
    BegunIs(been, Key([c]));
  }

  lemma BegunIs(been: set<Position>, p: Path)
    ensures p in BegunIn(been) <==> p in Firsts(Base()) || exists q :: q in been && p in Firsts(Here(q))
  {
    hide Base, Here, First;
  }

  lemma FirstsJoin(s: map<Path, Command>, t: map<Path, Command>)
    ensures Firsts(s + t) == Firsts(s) + Firsts(t)
  {
    hide First;
  }

  // The list loop of cmd_hyper
  method IsLinked(pos: System, system: System) returns (ok: bool)
    ensures ok == (system in pos.links)
  {
    for i := 0 to |pos.links|
      invariant system !in pos.links[..i]
    {
      if pos.links[i] == system {
        return true;
      }
    }
    ok := false;
  }
}

// What the lookups of a string trie find: the one completion of a prefix, and the stored keys in
// the order of their codes.
module TrieKeys {
  import opened CharCodes
  import opened TrieLinks

  ghost predicate Completes(k: Links, p: Path, w: Path) {
    w in k.Contents() && Above(p, w)
  }

  ghost predicate OnlyCompletion(k: Links, p: Path, w: Path) {
    Completes(k, p, w) && forall v :: Completes(k, p, v) ==> v == w
  }

  // d is the data of the only key at or below p, or null if there is none or more than one.
  ghost predicate IsCompletion(k: Links, p: Path, d: object?) {
    && (forall w :: OnlyCompletion(k, p, w) ==> d == k.Contents()[w])
    && ((forall w :: !OnlyCompletion(k, p, w)) ==> d == null)
  }

  // A node that lost its key and its tables.
  ghost predicate DeadEnd(k: Links, p: Path) {
    p in k.n && p.Sub? && p !in k.Contents() && NoTableAt(k, p)
  }

  lemma {:induction false} ChildOnWay(k: Links, p: Path, w: Path) returns (m: Octal, l: Octal)
    requires k.Ok() && w in k.n && Above(p, w) && p != w
    ensures Sub(p, m, l) in k.n && Slot(p, m) in k.t && Above(Sub(p, m, l), w)
  {
    m, l := WayDown(p, w);
    AboveIn(k, Sub(p, m, l), w);
    assert Sub(p, m, l).up == p;
  }

  // Dead ends are one code deep, and lead to no key.
  lemma DeadEndIsShallow(k: Links, p: Path)
    requires k.Good() && DeadEnd(k, p)
    ensures Depth(p) == 1 && forall w :: !Completes(k, p, w)
  {
    forall w
      ensures !Completes(k, p, w)
    {
      if Completes(k, p, w) {
        KeysOf(k, w);
        var m, l := ChildOnWay(k, p, w);
      }
    }
    if Depth(p) >= 2 {
      AboveTop(p);
      assert k.Live(p);
      var w :| w in k.Contents() && Above(p, w);
      assert Completes(k, p, w);
    }
  }

  // The nodes one code deep are those of b.
  ghost predicate Starts(k: Links, b: set<Path>) {
    forall p :: Depth(p) == 1 ==> (p in k.n <==> p in b)
  }

  lemma StartsGrown(k0: Links, k: Links, q: Path, b: set<Path>)
    requires Starts(k0, b) && Grown(k0, k, q) && q.Sub?
    ensures Starts(k, b + {First(q)})
  {
    forall p | Depth(p) == 1
      ensures p in k.n <==> p in b + {First(q)}
    {
      FirstAbove(p, q);
    }
  }

  lemma StartsKept(k0: Links, k: Links, b: set<Path>)
    requires Starts(k0, b) && k.n.Keys <= k0.n.Keys && forall p :: p in k0.n && Depth(p) <= 1 ==> p in k.n
    ensures Starts(k, b)
  {
  }

  lemma TableLeads(k: Links, p: Path, m: Octal) returns (w: Path)
    requires k.Good() && Slot(p, m) in k.t && p.Sub?
    ensures Completes(k, p, w)
  {
    assert k.Occupied(Slot(p, m));
    var l: Octal :| Sub(p, m, l) in k.n;
    hide Links.Good, Links.Contents;
    w := LiveCompletes(k, Sub(p, m, l));
    AboveTrans(p, Sub(p, m, l), w);
  }

  // Exactly the starts that no key has any more are dead ends.
  lemma DeadEndIff(k: Links, b: set<Path>, p: Path)
    requires k.Good() && Starts(k, b)
    ensures DeadEnd(k, p) <==> Depth(p) == 1 && p in b && forall w :: !Completes(k, p, w)
  {
    hide Links.Good, Links.Contents;
    if DeadEnd(k, p) {
      DeadEndIsShallow(k, p);
    }
    if Depth(p) == 1 && p in b && forall w :: !Completes(k, p, w) {
      assert p in k.Contents() ==> Completes(k, p, p);
      forall m: Octal
        ensures Slot(p, m) !in k.t
      {
        if Slot(p, m) in k.t {
          var w := TableLeads(k, p, m);
        }
      }
    }
  }

  lemma NoCompletion(k: Links, p: Path)
    ensures (forall w :: !Completes(k, p, w)) <==> forall w :: w in k.Contents() ==> !Above(p, w)
  {
    hide Links.Contents;
    assert forall w :: Completes(k, p, w) <==> w in k.Contents() && Above(p, w);
  }

  lemma IntoDeadEnd(k: Links, p: Path)
    requires p in k.n && p.Sub? && p !in k.Contents() && NoTableAt(k, p)
    ensures DeadEnd(k, p)
  {
  }

  lemma NotDeadEnd(k: Links, p: Path)
    requires k.Good() && (p in k.Contents() || Depth(p) >= 2)
    ensures !DeadEnd(k, p)
  {
    if DeadEnd(k, p) {
      DeadEndIsShallow(k, p);
    }
  }

  lemma LiveCompletes(k: Links, r: Path) returns (w: Path)
    requires k.Good() && r in k.n && Depth(r) >= 2
    ensures Completes(k, r, w)
  {
    AboveTop(r);
    assert k.Live(r);
    w :| w in k.Contents() && Above(r, w);
  }

  // Two children, or a key and a child, are two completions.
  lemma TwoChildren(k: Links, p: Path, r: Path, r': Path)
    requires k.Good() && r in k.n && r' in k.n && r != r' && r.Sub? && r'.Sub? && r.up == r'.up == p && p.Sub?
    ensures IsCompletion(k, p, null)
  {
    var w := LiveCompletes(k, r);
    var w' := LiveCompletes(k, r');
    AboveTrans(p, r, w);
    AboveTrans(p, r', w');
    if w == w' {
      AboveLine(r, r', w);
      AboveDepth(r, r');
    }
    assert Completes(k, p, w) && Completes(k, p, w');
  }

  lemma KeyAndChild(k: Links, p: Path, r: Path)
    requires k.Good() && p in k.Contents() && r in k.n && r.Sub? && r.up == p && p.Sub?
    ensures IsCompletion(k, p, null)
  {
    var w := LiveCompletes(k, r);
    AboveTrans(p, r, w);
    AboveDepth(r, w);
    assert Completes(k, p, w) && Completes(k, p, p);
  }

  lemma KeyAlone(k: Links, p: Path)
    requires k.Good() && p in k.Contents() && NoTableAt(k, p)
    ensures IsCompletion(k, p, k.Contents()[p])
  {
    forall w | Completes(k, p, w)
      ensures w == p
    {
      if w != p {
        KeysOf(k, w);
        var m, l := ChildOnWay(k, p, w);
      }
    }
    assert OnlyCompletion(k, p, p);
  }

  ghost predicate LoneChild(k: Links, p: Path, m: Octal, l: Octal) {
    && Sub(p, m, l) in k.n
    && (forall m': Octal :: Slot(p, m') in k.t ==> m' == m)
    && (forall l': Octal :: Sub(p, m, l') in k.n ==> l' == l)
  }

  lemma ChildForParent(k: Links, p: Path, m: Octal, l: Octal, d: object?)
    requires k.Good() && p !in k.Contents() && LoneChild(k, p, m, l) && IsCompletion(k, Sub(p, m, l), d)
    ensures IsCompletion(k, p, d)
  {
    var r := Sub(p, m, l);
    forall w
      ensures Completes(k, p, w) <==> Completes(k, r, w)
    {
      if Completes(k, p, w) {
        KeysOf(k, w);
        var m', l' := ChildOnWay(k, p, w);
      } else if Completes(k, r, w) {
        AboveTrans(p, r, w);
      }
    }
    hide *;
    SameCompletions(k, p, r, d);
  }

  lemma SameCompletions(k: Links, p: Path, r: Path, d: object?)
    requires IsCompletion(k, r, d) && forall w :: Completes(k, p, w) <==> Completes(k, r, w)
    ensures IsCompletion(k, p, d)
  {
    hide Completes, Links.Contents;
    assert forall w :: OnlyCompletion(k, p, w) <==> OnlyCompletion(k, r, w);
  }

  // The nodes at and below p.
  ghost function Below(k: Links, p: Path): set<Path> {
    set q | q in k.n && Above(p, q)
  }

  lemma ChildBelow(k: Links, p: Path, m: Octal, l: Octal)
    requires p in k.n
    ensures Below(k, Sub(p, m, l)) < Below(k, p)
  {
    var r := Sub(p, m, l);
    forall q | q in Below(k, r)
      ensures q in Below(k, p)
    {
      AboveTrans(p, r, q);
    }
    if p in Below(k, r) {
      AboveDepth(r, p);
    }
    assert p in Below(k, p);
  }

  // One call st_foreach_data makes.
  datatype Call = Call(data: object, string_: seq<Char>)

  // The calls are those for keys.
  ghost predicate Shows(k: Links, calls: seq<Call>, keys: seq<Path>) {
    |calls| == |keys| && forall i :: 0 <= i < |keys| ==>
      keys[i] in k.Contents() && calls[i] == Call(k.Contents()[keys[i]], Unfold(keys[i]))
  }

  ghost predicate InOrder(keys: seq<Path>) {
    forall i, j :: 0 <= i < j < |keys| ==> CodeLess(Codes(keys[i]), Codes(keys[j]))
  }

  // Nothing comes twice.
  lemma InOrderOnce(keys: seq<Path>, i: nat, j: nat)
    requires InOrder(keys) && i < j < |keys|
    ensures keys[i] != keys[j]
  {
    CodeLessStrict(Codes(keys[i]), Codes(keys[j]));
  }

  // w is p or below one of its first n children.
  ghost predicate Seen(p: Path, w: Path, n: int) {
    w == p || exists m: Octal, l: Octal {:trigger Sub(p, m, l)} :: m * 8 + l < n && Above(Sub(p, m, l), w)
  }

  // The keys below the first n children of p, and p's own.
  ghost predicate Visited(k: Links, p: Path, n: int, len: nat, calls: seq<Call>, keys: seq<Path>) {
    && Shows(k, calls, keys) && InOrder(keys)
    && forall w :: w in keys <==> w in k.Contents() && Seen(p, w, n) && Depth(w) < len
  }

  // The calls are for exactly the keys at and below p that are shorter than len, in order.
  ghost predicate Visits(k: Links, p: Path, len: nat, calls: seq<Call>, keys: seq<Path>) {
    && Shows(k, calls, keys) && InOrder(keys)
    && forall w :: w in keys <==> w in k.Contents() && Above(p, w) && Depth(w) < len
  }

  lemma SeenAll(p: Path, w: Path)
    ensures Seen(p, w, 64) <==> Above(p, w)
  {
    if Above(p, w) && w != p {
      var m, l := WayDown(p, w);
      assert m <= 7 && l <= 7 && Above(Sub(p, m, l), w);
    }
    if Seen(p, w, 64) && w != p {
      var m: Octal, l: Octal :| m * 8 + l < 64 && Above(Sub(p, m, l), w);
      AboveTrans(p, Sub(p, m, l), w);
    }
  }

  lemma VisitedAll(k: Links, p: Path, len: nat, calls: seq<Call>, keys: seq<Path>)
    requires Visited(k, p, 64, len, calls, keys)
    ensures Visits(k, p, len, calls, keys)
  {
    forall w
      ensures Seen(p, w, 64) <==> Above(p, w)
    {
      SeenAll(p, w);
    }
  }

  lemma VisitedNone(k: Links, p: Path, len: nat)
    requires p !in k.Contents() && Depth(p) < len
    ensures Visited(k, p, 0, len, [], [])
  {
  }

  lemma VisitedSelf(k: Links, p: Path, len: nat)
    requires p in k.Contents() && Depth(p) < len
    ensures Visited(k, p, 0, len, [Call(k.Contents()[p], Unfold(p))], [p])
  {
  }

  lemma VisitsDeep(k: Links, p: Path, len: nat)
    requires Depth(p) >= len
    ensures Visits(k, p, len, [], [])
  {
    forall w | Above(p, w)
      ensures Depth(w) >= len
    {
      AboveDepth(p, w);
    }
  }

  // No node, no keys.
  lemma VisitedSkip(k: Links, p: Path, m: Octal, l: Octal, len: nat, calls: seq<Call>, keys: seq<Path>)
    requires k.Ok() && Visited(k, p, m * 8 + l, len, calls, keys) && Sub(p, m, l) !in k.n
    ensures Visited(k, p, m * 8 + l + 1, len, calls, keys)
  {
    forall w | w in k.Contents() && Above(Sub(p, m, l), w)
      ensures false
    {
      KeysOf(k, w);
      KeysView(k);
      AboveIn(k, Sub(p, m, l), w);
    }
    hide Links.Ok, Links.Contents, Above, Shows, InOrder;
    forall w | w in k.Contents()
      ensures Seen(p, w, m * 8 + l + 1) <==> Seen(p, w, m * 8 + l)
    {
      SeenStep(p, w, m, l);
    }
  }

  lemma SeenStep(p: Path, w: Path, m: Octal, l: Octal)
    ensures Seen(p, w, m * 8 + l + 1) <==> Seen(p, w, m * 8 + l) || Above(Sub(p, m, l), w)
  {
  }

  lemma VisitedSkipTable(k: Links, p: Path, m: Octal, len: nat, calls: seq<Call>, keys: seq<Path>)
    requires k.Ok() && p in k.n && Visited(k, p, m * 8, len, calls, keys) && Slot(p, m) !in k.t
    ensures Visited(k, p, m * 8 + 8, len, calls, keys)
  {
    NoChildren(k, p, m);
    hide *;
    for l := 0 to 8
      invariant Visited(k, p, m * 8 + l, len, calls, keys)
    {
      VisitedSkip(k, p, m, l, len, calls, keys);
    }
  }

  lemma VisitedMore(k: Links, p: Path, m: Octal, l: Octal, len: nat, calls: seq<Call>, keys: seq<Path>,
                    calls': seq<Call>, keys': seq<Path>)
    requires Visited(k, p, m * 8 + l, len, calls, keys) && Visits(k, Sub(p, m, l), len, calls', keys')
    ensures Visited(k, p, m * 8 + l + 1, len, calls + calls', keys + keys')
  {
    hide Links.Contents, Above, CodeLess, Codes;
    forall w
      ensures Seen(p, w, m * 8 + l + 1) <==> Seen(p, w, m * 8 + l) || Above(Sub(p, m, l), w)
    {
      SeenStep(p, w, m, l);
    }
    forall v, w | v in keys && w in keys'
      ensures CodeLess(Codes(v), Codes(w))
    {
      SeenFirst(p, v, m, l, w);
    }
    hide Seen;
    OrderJoined(keys, keys');
  }

  lemma OrderJoined(s: seq<Path>, t: seq<Path>)
    requires InOrder(s) && InOrder(t) && forall v, w :: v in s && w in t ==> CodeLess(Codes(v), Codes(w))
    ensures InOrder(s + t)
  {
    hide CodeLess, Codes;
  }

  lemma SeenFirst(p: Path, v: Path, m: Octal, l: Octal, w: Path)
    requires Seen(p, v, m * 8 + l) && Above(Sub(p, m, l), w)
    ensures CodeLess(Codes(v), Codes(w))
  {
    hide CodeLess, Codes;
    if v == p {
      AboveDepth(Sub(p, m, l), w);
      AboveTrans(p, Sub(p, m, l), w);
      ShorterFirst(p, w);
    } else {
      var m': Octal, l': Octal :| m' * 8 + l' < m * 8 + l && Above(Sub(p, m', l'), v);
      SmallerFirst(p, m', l', m, l, v, w);
    }
  }

  type Byte = b: int | 0 <= b < 256

  // The C string in a buffer: what comes before the first zero.
  function UntilZero(s: seq<Byte>): seq<Char> {
    if s == [] || s[0] == 0 then [] else [s[0]] + UntilZero(s[1..])
  }

  lemma {:induction false} UntilZeroAt(s: seq<Byte>, i: nat)
    requires i < |s| && s[i] == 0 && forall j :: 0 <= j < i ==> s[j] != 0
    ensures |UntilZero(s)| == i && forall j :: 0 <= j < i ==> UntilZero(s)[j] == s[j]
  {
    if i > 0 {
      UntilZeroAt(s[1..], i - 1);
    }
  }

  // s starts with the string of p.
  ghost predicate Spells(s: seq<Byte>, p: Path) {
    Depth(p) <= |s| && forall j :: 0 <= j < Depth(p) ==> s[j] == Unfold(p)[j]
  }

  lemma SpelledString(s: seq<Byte>, p: Path)
    requires Spells(s, p) && Depth(p) < |s| && s[Depth(p)] == 0
    ensures UntilZero(s) == Unfold(p)
  {
    UntilZeroAt(s, Depth(p));
  }

  lemma SpellMore(s: seq<Byte>, p: Path, m: Octal, l: Octal)
    requires Spells(s, p) && Depth(p) < |s| && s[Depth(p)] == FromMsbLsb(m, l)
    ensures Spells(s, Sub(p, m, l))
  {
    hide FromMsbLsb;
  }

  lemma SpellLess(s: seq<Byte>, p: Path, m: Octal, l: Octal)
    requires Spells(s, Sub(p, m, l))
    ensures Spells(s, p)
  {
    hide FromMsbLsb;
  }

  lemma SpellNothing(s: seq<Byte>)
    ensures Spells(s, Top) && Depth(Top) == 0
  {
  }

  // One call for each key shorter than len, with its data and the string shown for whatever string
  // was stored, in the order of the codes.
  ghost predicate CallsFor(m: map<Path, object>, len: nat, calls: seq<Call>) {
    && (forall i :: 0 <= i < |calls| ==> PathOf(calls[i].string_) in m && m[PathOf(calls[i].string_)] == calls[i].data)
    && (forall i :: 0 <= i < |calls| ==> Depth(PathOf(calls[i].string_)) < len)
    && (forall i, s :: 0 <= i < |calls| && PathOf(s) == PathOf(calls[i].string_) ==> calls[i].string_ == ShownAs(s))
    && (forall w :: w in m && Depth(w) < len ==> exists i :: 0 <= i < |calls| && PathOf(calls[i].string_) == w)
    && forall i, j :: 0 <= i < j < |calls| ==>
                        CodeLess(Codes(PathOf(calls[i].string_)), Codes(PathOf(calls[j].string_)))
  }

  lemma VisitsAll(k: Links, len: nat, calls: seq<Call>, keys: seq<Path>)
    requires Visits(k, Top, len, calls, keys)
    ensures CallsFor(k.Contents(), len, calls)
  {
    forall i | 0 <= i < |calls|
      ensures PathOf(calls[i].string_) == keys[i]
    {
      FoldUnfold(keys[i]);
    }
    forall i, s | 0 <= i < |calls| && PathOf(s) == PathOf(calls[i].string_)
      ensures calls[i].string_ == ShownAs(s)
    {
      UnfoldIs(s);
    }
    forall w | w in k.Contents() && Depth(w) < len
      ensures exists i :: 0 <= i < |calls| && PathOf(calls[i].string_) == w
    {
      AboveTop(w);
      var i :| 0 <= i < |keys| && keys[i] == w;
      assert PathOf(calls[i].string_) == w;
    }
  }
}

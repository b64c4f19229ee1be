// The 6-bit character codes of stringtrie.c, and the order of coded keys.
module CharCodes {

  // A byte of a C string before its terminating zero.
  type Char = c: int | 1 <= c < 256 witness 1

  // A const char * argument: NULL or a string.
  datatype CString = NoString | Str(chars: seq<Char>)

  type Code = c: int | 0 <= c < 64

  // Half a code: the index into one table.
  type Octal = c: int | 0 <= c < 8

  // crunch_char: both cases of a letter share a code; characters without one become 63.
  function Crunch(c: Char): Code {
    if 32 <= c < 96 then c - 32
    else if 97 <= c < 128 then c - 64
    else 63
  }

  // decrunch_char: letters come back in lower case.
  function Decrunch(c: Code): Char {
    if 33 <= c < 59 then c + 64 else c + 32
  }

  // get_char_msb and get_char_lsb
  function Msb(c: Char): Octal {
    Crunch(c) / 8 % 8
  }

  function Lsb(c: Char): Octal {
    Crunch(c) % 8
  }

  // get_char_from_msb_lsb
  function FromMsbLsb(msb: Octal, lsb: Octal): Char {
    Decrunch(msb * 8 + lsb)
  }

  // The two table indices of a character determine its code, and crunching a shown
  // character gives back the indices it came from.
  lemma IndicesAreCode(c: Char, d: Char)
    ensures Msb(c) == Msb(d) && Lsb(c) == Lsb(d) <==> Crunch(c) == Crunch(d)
  {
  }

  lemma IndicesComeBack(msb: Octal, lsb: Octal)
    ensures Msb(FromMsbLsb(msb, lsb)) == msb && Lsb(FromMsbLsb(msb, lsb)) == lsb
  {
  }

  // A code is 32 less than the upper-case character, for characters that have one.
  function Upper(c: Char): Char {
    if 97 <= c <= 126 then c - 32 else if 32 <= c <= 95 then c else 95
  }

  lemma CodeIs(c: Char)
    ensures Crunch(c) + 32 == Upper(c) && Msb(c) * 8 + Lsb(c) == Crunch(c)
    ensures Upper(c) == if 97 <= c <= 126 then c - 32 else if 32 <= c <= 95 then c else 95
  {
  }

  // What is shown for a character that was stored: capitals in lower case.
  function Shown(c: Char): Char {
    if 65 <= c <= 90 then c + 32
    else if 32 <= c <= 94 || 97 <= c <= 122 then c
    else if 123 <= c <= 126 then c - 32
    else 95
  }

  lemma ShownIs(c: Char)
    ensures FromMsbLsb(Msb(c), Lsb(c)) == Shown(c)
    ensures 65 <= c <= 90 ==> Shown(c) == c + 32
    ensures 32 <= c <= 64 || 91 <= c <= 94 || 97 <= c <= 122 ==> Shown(c) == c
    ensures 123 <= c <= 126 ==> Shown(c) == c - 32
    ensures c < 32 || c == 95 || c == 96 || c >= 127 ==> Shown(c) == 95
  {
  }

  function ShownAs(s: seq<Char>): (r: seq<Char>)
    ensures |r| == |s| && forall i :: 0 <= i < |s| ==> r[i] == Shown(s[i])
  {
    seq(|s|, i requires 0 <= i < |s| => Shown(s[i]))
  }

  // A case-folded string, as the way to its node.
  datatype Path = Top | Sub(up: Path, msb: Octal, lsb: Octal)

  function Child(p: Path, c: Char): Path {
    Sub(p, Msb(c), Lsb(c))
  }

  function PathOf(s: seq<Char>): Path {
    if s == [] then Top else Child(PathOf(s[..|s| - 1]), s[|s| - 1])
  }

  function Depth(p: Path): nat {
    if p.Top? then 0 else 1 + Depth(p.up)
  }

  // k is p or extends it.
  predicate Above(p: Path, k: Path) {
    p == k || (k.Sub? && Above(p, k.up))
  }

  lemma PathOfNext(s: seq<Char>, i: nat)
    requires i < |s|
    ensures PathOf(s[..i + 1]) == Sub(PathOf(s[..i]), Msb(s[i]), Lsb(s[i]))
    ensures Above(PathOf(s[..i + 1]), PathOf(s))
  {
    assert s[..i + 1][..i] == s[..i];
    PrefixAbove(s, i + 1);
  }

  lemma {:induction false} PathOfDepth(s: seq<Char>)
    ensures Depth(PathOf(s)) == |s|
  {
    if s != [] {
      PathOfDepth(s[..|s| - 1]);
    }
  }

  lemma EmptyPrefix(s: seq<Char>)
    ensures PathOf(s[..0]) == Top
  {
  }

  lemma NonEmptyPath(s: seq<Char>)
    ensures s != [] <==> PathOf(s).Sub?
  {
  }

  lemma WholePrefix(s: seq<Char>)
    ensures PathOf(s[..|s|]) == PathOf(s)
  {
    assert s[..|s|] == s;
  }

  lemma {:induction false} PrefixAbove(s: seq<Char>, i: nat)
    requires i <= |s|
    ensures Above(PathOf(s[..i]), PathOf(s))
  {
    if i < |s| {
      var u := s[..|s| - 1];
      assert u[..i] == s[..i];
      PrefixAbove(u, i);
    } else {
      assert s[..i] == s;
    }
  }

  // The part of a path that is one code deep.
  function First(p: Path): Path {
    if p.Top? || p.up.Top? then p else First(p.up)
  }

  lemma {:induction false} FirstAbove(p: Path, q: Path)
    ensures q.Sub? ==> Depth(First(q)) == 1
    ensures Depth(p) == 1 ==> (Above(p, q) <==> q.Sub? && First(q) == p)
  {
    if q.Sub? {
      FirstAbove(p, q.up);
      assert Above(p, q) <==> p == q || Above(p, q.up);
      assert Above(p, Top) <==> p == Top;
      assert q.up.Sub? ==> Depth(q) == 1 + Depth(q.up) >= 2;
    }
  }

  // The string st_foreach_data shows for a path.
  function Unfold(p: Path): (s: seq<Char>)
    ensures |s| == Depth(p)
  {
    if p.Top? then [] else Unfold(p.up) + [FromMsbLsb(p.msb, p.lsb)]
  }

  lemma {:induction false} FoldUnfold(p: Path)
    ensures PathOf(Unfold(p)) == p
  {
    if p.Sub? {
      FoldUnfold(p.up);
      IndicesComeBack(p.msb, p.lsb);
      assert Unfold(p)[..|Unfold(p)| - 1] == Unfold(p.up);
    }
  }

  // The string shown for a stored one.
  lemma {:induction false} UnfoldIs(s: seq<Char>)
    ensures Unfold(PathOf(s)) == ShownAs(s)
  {
    if s != [] {
      var u, c := s[..|s| - 1], s[|s| - 1];
      UnfoldIs(u);
      ShownIs(c);
      assert Unfold(PathOf(s)) == Unfold(PathOf(u)) + [FromMsbLsb(Msb(c), Lsb(c))];
      assert ShownAs(s) == ShownAs(u) + [Shown(c)];
    }
  }

  // Two strings have the same path exactly when they agree character by character up to folding.
  lemma {:induction false} SamePath(s: seq<Char>, t: seq<Char>)
    ensures PathOf(s) == PathOf(t) <==> |s| == |t| && forall i :: 0 <= i < |s| ==> Crunch(s[i]) == Crunch(t[i])
  {
    if s != [] && t != [] {
      SamePath(s[..|s| - 1], t[..|t| - 1]);
      IndicesAreCode(s[|s| - 1], t[|t| - 1]);
    }
  }

  // '_', '`', DEL, control characters and bytes from 128 on all share code 63.
  predicate IsOther(c: Char) {
    c < 32 || c == 95 || c == 96 || c >= 127
  }

  // '@' to '^' have a partner 32 higher ('A' and 'a', '[' and '{'), except '@' itself.
  predicate IsUpperOf(c: Char, d: Char) {
    65 <= c < 95 && d == c + 32
  }

  // Exactly which characters the trie takes for the same.
  lemma FoldsTogether(c: Char, d: Char)
    ensures Crunch(c) == Crunch(d) <==> c == d || IsUpperOf(c, d) || IsUpperOf(d, c) || (IsOther(c) && IsOther(d))
  {
    assert Crunch(c) == 63 <==> IsOther(c);
    assert Crunch(d) == 63 <==> IsOther(d);
  }

  lemma {:induction false} AboveDepth(p: Path, k: Path)
    requires Above(p, k)
    ensures Depth(p) <= Depth(k) && (Depth(p) == Depth(k) ==> p == k)
  {
    if p != k {
      AboveDepth(p, k.up);
    }
  }

  lemma {:induction false} AboveTrans(p: Path, q: Path, k: Path)
    requires Above(p, q) && Above(q, k)
    ensures Above(p, k)
  {
    if q != k {
      AboveTrans(p, q, k.up);
    }
  }

  // What lies above one string lies on one line.
  lemma {:induction false} AboveLine(p: Path, q: Path, k: Path)
    requires Above(p, k) && Above(q, k) && Depth(p) <= Depth(q)
    ensures Above(p, q)
  {
    if q != k {
      if p == k {
        AboveDepth(q, k.up);
      } else {
        AboveLine(p, q, k.up);
      }
    }
  }

  // The child of p on the way to k.
  lemma {:induction false} WayDown(p: Path, k: Path) returns (m: Octal, l: Octal)
    requires Above(p, k) && p != k
    ensures Above(Sub(p, m, l), k)
  {
    if p == k.up {
      m, l := k.msb, k.lsb;
    } else {
      m, l := WayDown(p, k.up);
    }
  }

  // The codes of a string, in the order the trie compares them.
  function Codes(p: Path): (s: seq<Code>)
    ensures |s| == Depth(p)
  {
    if p.Top? then [] else Codes(p.up) + [p.msb * 8 + p.lsb]
  }

  lemma {:induction false} CodesAre(s: seq<Char>)
    ensures |Codes(PathOf(s))| == |s| && forall i :: 0 <= i < |s| ==> Codes(PathOf(s))[i] == Upper(s[i]) - 32
  {
    if s != [] {
      CodesAre(s[..|s| - 1]);
      CodeIs(s[|s| - 1]);
    }
  }

  // s and t agree before i, and there s ends or has the smaller code.
  predicate SplitAt(s: seq<Code>, t: seq<Code>, i: nat) {
    i <= |s| && i < |t| && s[..i] == t[..i] && (i < |s| ==> s[i] < t[i])
  }

  ghost predicate CodeLess(s: seq<Code>, t: seq<Code>) {
    exists i: nat :: SplitAt(s, t, i)
  }

  lemma {:induction false} AboveCodes(p: Path, k: Path)
    requires Above(p, k)
    ensures Codes(p) <= Codes(k)
  {
    if p != k {
      AboveCodes(p, k.up);
    }
  }

  lemma ShorterFirst(p: Path, k: Path)
    requires Above(p, k) && p != k
    ensures CodeLess(Codes(p), Codes(k))
  {
    AboveCodes(p, k);
    AboveDepth(p, k);
    assert SplitAt(Codes(p), Codes(k), Depth(p));
  }

  lemma SmallerFirst(p: Path, m: Octal, l: Octal, m': Octal, l': Octal, a: Path, b: Path)
    requires m * 8 + l < m' * 8 + l' && Above(Sub(p, m, l), a) && Above(Sub(p, m', l'), b)
    ensures CodeLess(Codes(a), Codes(b))
  {
    var s, t, u := Codes(Sub(p, m, l)), Codes(Sub(p, m', l')), Codes(p);
    AboveCodes(Sub(p, m, l), a);
    AboveCodes(Sub(p, m', l'), b);
    assert Codes(a)[..|u|] == s[..|u|] == u == t[..|u|] == Codes(b)[..|u|];
    assert Codes(a)[|u|] == s[|u|] && Codes(b)[|u|] == t[|u|];
    assert SplitAt(Codes(a), Codes(b), |u|);
  }

  lemma SplitOneWay(s: seq<Code>, t: seq<Code>, i: nat, j: nat)
    requires SplitAt(s, t, i)
    ensures !SplitAt(t, s, j)
  {
    if i < j <= |s| && j <= |t| {
      assert s[..j][i] == s[i] && t[..j][i] == t[i];
    }
    if j < i {
      assert s[..i][j] == s[j] && t[..i][j] == t[j];
    }
  }

  // The order is strict, so a list in increasing order holds nothing twice.
  lemma CodeLessStrict(s: seq<Code>, t: seq<Code>)
    requires CodeLess(s, t)
    ensures s != t && !CodeLess(t, s)
  {
    var i: nat :| SplitAt(s, t, i);
    forall j: nat
      ensures !SplitAt(t, s, j)
    {
      SplitOneWay(s, t, i, j);
    }
    SplitOneWay(s, t, i, i);
  }

  lemma OneCharacter(s: seq<Char>)
    requires |s| == 1
    ensures PathOf(s).Sub? && Depth(PathOf(s)) == 1
  {
  }

  lemma DepthOfSub(p: Path, m: Octal, l: Octal)
    ensures Depth(Sub(p, m, l)) == Depth(p) + 1
  {
  }
}

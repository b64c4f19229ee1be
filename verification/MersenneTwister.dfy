// mt19937ar-cok.c: the random generator that refills its 624 words in place, against the recurrence
// of mt19937 in section 26.5.3.2 of ISO/IEC 14882:2011.
module MersenneTwister {

  const N := 624
  const M := 397
  const DEFAULT_SEED: bv32 := 5489

  // The first 624 terms: the seed, then each from the one before it.
  function Initial(seed: bv32, j: nat): bv32
    requires j < N
  {
    if j == 0 then seed else InitStep(Initial(seed, j - 1), j)
  }

  function InitStep(x: bv32, j: nat): bv32
    requires j < N
  {
    1812433253 * (x ^ (x >> 30)) + (j as bv32)
  }

  // The infinite sequence: the high bit of one term and the low 31 of the next make y; it is shifted,
  // and a lowest bit that falls off brings in the matrix constant.
  function Term(seed: bv32, k: nat): bv32 {
    if k < N then Initial(seed, k)
    else NextTerm(Term(seed, k - N + M), Term(seed, k - N), Term(seed, k - N + 1))
  }

  function NextTerm(x: bv32, u: bv32, v: bv32): bv32 {
    Xor(x, Mixed(u, v))
  }

  function Mixed(u: bv32, v: bv32): bv32 {
    var y := MixBits(u, v);
    Xor(Right1(y), if Odd(y) then 0x9908b0df else 0)
  }

  function MixBits(u: bv32, v: bv32): bv32 {
    (u & 0x80000000) | (v & 0x7fffffff)
  }

  predicate Odd(x: bv32) {
    x & 1 == 1
  }

  function Temper(x: bv32): bv32 {
    ShiftLast(ShiftC(ShiftB(ShiftFirst(x))))
  }

  function Right1(x: bv32): bv32 {
    x >> 1
  }

  function Right5(x: bv32): bv32 {
    x >> 5
  }

  function Right6(x: bv32): bv32 {
    x >> 6
  }

  function Right11(x: bv32): bv32 {
    x >> 11
  }

  function Right18(x: bv32): bv32 {
    x >> 18
  }

  function Right22(x: bv32): bv32 {
    x >> 22
  }

  function Xor(x: bv32, y: bv32): bv32 {
    x ^ y
  }

  function ShiftFirst(x: bv32): bv32 {
    Xor(x, Right11(x))
  }

  function ShiftB(x: bv32): bv32 {
    x ^ ((x << 7) & 0x9d2c5680)
  }

  function ShiftC(x: bv32): bv32 {
    x ^ ((x << 15) & 0xefc60000)
  }

  function ShiftLast(x: bv32): bv32 {
    Xor(x, Right18(x))
  }

  // Draw number k after seeding, counted from zero.
  function Drawn(seed: bv32, k: nat): bv32 {
    Temper(Term(seed, N + k))
  }

  // MT_TWIST looks at the lowest bit of v, not of the mixed word.
  function Twist(u: bv32, v: bv32): bv32 {
    Xor(Right1(MixBits(u, v)), if Odd(v) then 0x9908b0df else 0)
  }

  // A word of the next block, from the word M further on and two neighbours.
  function NextWord(w: bv32, u: bv32, v: bv32): bv32 {
    Xor(w, Twist(u, v))
  }

  lemma LowBit(u: bv32, v: bv32)
    ensures Odd(MixBits(u, v)) == Odd(v)
  {
  }

  lemma TwistMixes(u: bv32, v: bv32)
    ensures Twist(u, v) == Mixed(u, v)
  {
    hide Xor, Right1, MixBits, Odd;
    LowBit(u, v);
  }

  lemma NextWordIsNextTerm(w: bv32, u: bv32, v: bv32)
    ensures NextWord(w, u, v) == NextTerm(w, u, v)
  {
    hide Twist, Mixed, Xor;
    TwistMixes(u, v);
  }

  lemma Recurrence(seed: bv32, k: nat)
    ensures Term(seed, k + N) == NextWord(Term(seed, k + M), Term(seed, k), Term(seed, k + 1))
  {
    hide NextWord, NextTerm;
    NextWordIsNextTerm(Term(seed, k + M), Term(seed, k), Term(seed, k + 1));
  }

  // Tempering can be undone, so no two words give the same draw.
  function Untemper(y: bv32): bv32 {
    UnshiftFirst(UnshiftB(ShiftC(ShiftLast(y))))
  }

  function UnshiftFirst(y: bv32): bv32 {
    Xor(Xor(y, Right11(y)), Right22(y))
  }

  function UnshiftB(y: bv32): bv32 {
    var t := y ^ ((y << 7) & 0x9d2c5680);
    var u := y ^ ((t << 7) & 0x9d2c5680);
    var v := y ^ ((u << 7) & 0x9d2c5680);
    y ^ ((v << 7) & 0x9d2c5680)
  }

  lemma Regroup(a: bv32, b: bv32, c: bv32)
    ensures Xor(Xor(a, b), c) == Xor(a, Xor(b, c))
  {
  }

  lemma CancelOnce(a: bv32, b: bv32)
    ensures Xor(Xor(a, b), b) == a
  {
  }

  lemma Cancel(a: bv32, b: bv32, c: bv32)
    ensures Xor(Xor(Xor(a, b), Xor(b, c)), c) == a
  {
    hide Xor;
    Regroup(Xor(a, b), Xor(b, c), c);
    CancelOnce(b, c);
    CancelOnce(a, b);
  }

  lemma Right11Xor(a: bv32, b: bv32)
    ensures Right11(Xor(a, b)) == Xor(Right11(a), Right11(b))
  {
  }

  lemma Right11Twice(x: bv32)
    ensures Right11(Right11(x)) == Right22(x)
  {
  }

  lemma ShiftedOnce(x: bv32)
    ensures Right11(Xor(x, Right11(x))) == Xor(Right11(x), Right22(x))
  {
    hide Right11, Right22, Xor;
    Right11Xor(x, Right11(x));
    Right11Twice(x);
  }

  lemma ShiftedTwice(x: bv32)
    ensures Right22(Xor(x, Right11(x))) == Right22(x)
  {
  }

  lemma ShiftedLast(x: bv32)
    ensures Right18(Xor(x, Right18(x))) == Right18(x)
  {
  }

  lemma FirstUndone(x: bv32)
    ensures UnshiftFirst(ShiftFirst(x)) == x
  {
    hide Right11, Right22, Xor;
    ShiftedOnce(x);
    ShiftedTwice(x);
    Cancel(x, Right11(x), Right22(x));
  }

  lemma BUndone(x: bv32)
    ensures UnshiftB(ShiftB(x)) == x
  {
  }

  lemma CUndone(x: bv32)
    ensures ShiftC(ShiftC(x)) == x
  {
  }

  lemma LastUndone(x: bv32)
    ensures ShiftLast(ShiftLast(x)) == x
  {
    hide Right18, Xor;
    ShiftedLast(x);
    CancelOnce(x, Right18(x));
  }

  lemma TemperUndone(x: bv32)
    ensures Untemper(Temper(x)) == x
  {
    hide ShiftFirst, ShiftB, ShiftC, ShiftLast, UnshiftFirst, UnshiftB;
    LastUndone(ShiftC(ShiftB(ShiftFirst(x))));
    CUndone(ShiftB(ShiftFirst(x)));
    BUndone(ShiftFirst(x));
    FirstUndone(x);
  }

  // The loop body of mt_init_genrand
  method Scramble(x: bv32, j: nat) returns (y: bv32)
    requires j < N
    ensures y == InitStep(x, j)
  {
    y := 1812433253 * (x ^ (x >> 30)) + (j as bv32);
  }

  // The four statements of the tempering
  method Tempered(x: bv32) returns (y: bv32)
    ensures y == Temper(x)
  {
    hide ShiftFirst, ShiftB, ShiftC, ShiftLast;
    y := TemperFirst(x);
    y := TemperB(y);
    y := TemperC(y);
    y := TemperLast(y);
  }

  method TemperFirst(x: bv32) returns (y: bv32)
    ensures y == ShiftFirst(x)
  {
    hide Right11, Xor;
    y := Xor(x, Right11(x));
  }

  method TemperB(x: bv32) returns (y: bv32)
    ensures y == ShiftB(x)
  {
    y := x ^ ((x << 7) & 0x9d2c5680);
  }

  method TemperC(x: bv32) returns (y: bv32)
    ensures y == ShiftC(x)
  {
    y := x ^ ((x << 15) & 0xefc60000);
  }

  method TemperLast(x: bv32) returns (y: bv32)
    ensures y == ShiftLast(x)
  {
    hide Right18, Xor;
    y := Xor(x, Right18(x));
  }

  // The seeding, the recurrence and the tempering on single values.
  lemma KnownValues()
    ensures N == 624 && M == 397 && DEFAULT_SEED == 5489
    ensures Initial(5489, 1) == 1301868182 && Initial(5489, 2) == 2938499221 && Initial(5489, 3) == 2950281878
    ensures NextTerm(0, 0xffff_ffff, 0x7fff_ffff) == 0xe6f7_4f20
    ensures NextTerm(0, 0x7fff_ffff, 2) == 1 && NextTerm(7, 0, 0x8000_0000) == 7
    ensures Temper(1) == 0x0040_0091 && Temper(0xffff_ffff) == 0x6fe0_1bf8
    ensures Right1(0xffff_ffff) as int == 0x7fff_ffff && Right1(2) as int == 1
    ensures Joined(0xffff_ffff, 0xffff_ffff) == 9007199254740991.0 / 9007199254740992.0
    ensures Joined(32, 0) == 67108864.0 / 9007199254740992.0 && Joined(0, 64) == 1.0 / 9007199254740992.0
  {
    assert Initial(5489, 0) == 5489;
    assert Initial(5489, 1) == InitStep(5489, 1) == 1301868182;
    assert Initial(5489, 2) == InitStep(1301868182, 2) == 2938499221;
  }

  // The static state of the generator, and the seed and number of draws it stands for.
  class Generator {
    const state: array<bv32>
    var left: int
    var initf: bool
    var next: int
    ghost var seed: bv32
    ghost var drawn: nat
    ghost var blocks: nat

    // l words count as left; between the decrement of left and the refill it is one more than left.
    ghost predicate ValidWith(l: int)
      reads this, state
    {
      && state.Length == N && 1 <= l <= N
      && drawn == N * blocks + 1 - l
      && (blocks > 0 ==> next == N + 1 - l)
      && (blocks == 0 ==> l == 1)
      && (if initf then Block(state[..], seed, N * blocks, N) else blocks == 0 && seed == DEFAULT_SEED)
    }

    ghost predicate Valid()
      reads this, state
    {
      ValidWith(left)
    }

    // Before the first call: the words are zero and next is null.
    constructor ()
      ensures Valid() && fresh(state) && seed == DEFAULT_SEED && drawn == 0
    {
      state := new bv32[N];
      left, initf, next := 1, false, 0;
      seed, drawn, blocks := DEFAULT_SEED, 0, 0;
    }

    // mt_init_genrand
    method Init(s: bv32)
      requires state.Length == N
      modifies this, state
      ensures Valid() && seed == s && drawn == 0 && initf && left == 1 && blocks == 0
    {
      hide InitStep, Term;
      state[0] := s;
      InitialTerm(s, 0);
      for j := 1 to N
        invariant Block(state[..], s, 0, j)
      {
        state[j] := Scramble(state[j - 1], j);
        InitialTerm(s, j);
        InitialTerm(s, j - 1);
      }
      left, initf := 1, true;
      seed, drawn, blocks := s, 0, 0;
    }

    // mt_next_state
    method NextState()
      requires ValidWith(1)
      modifies this, state
      ensures state.Length == N && initf && left == N && next == 0 && seed == old(seed)
      ensures blocks == old(blocks) + 1 && drawn == old(drawn) && Block(state[..], seed, N * blocks, N)
    {
      hide Refilled, Block, Term;
      if !initf {
        Init(DEFAULT_SEED);
      }
      left, next := N, 0;
      ghost var base := N * blocks;
      var p := 0;
      var j := N - M + 1 - 1;
      BlockToRefill(state[..], seed, base);
      while j != 0
        invariant 0 <= j && p == N - M - j
        invariant Refilled(state[..], seed, base, p)
        modifies state
      {
        RefillOne(p, p + M, p + 1, base);
        p, j := p + 1, j - 1;
      }
      j := M - 1;
      while j != 0
        invariant 0 <= j && p == N - 1 - j
        invariant Refilled(state[..], seed, base, p)
        modifies state
      {
        RefillOne(p, p + M - N, p + 1, base);
        p, j := p + 1, j - 1;
      }
      RefillOne(p, p + M - N, 0, base);
      RefilledBlock(state[..], seed, base);
      blocks := blocks + 1;
    }

    // *p = q ^ MT_TWIST(p[0], r)
    method RefillOne(p: nat, q: nat, r: nat, ghost base: nat)
      requires state.Length == N && p < N && Refilled(state[..], seed, base, p)
      requires q == (if p < N - M then p + M else p + M - N) && r == if p < N - 1 then p + 1 else 0
      modifies state
      ensures Refilled(state[..], seed, base, p + 1)
    {
      hide Refilled, Term, NextWord;
      RefilledView(state[..], seed, base, p);
      RefilledMore(state[..], seed, base, p, q, r);
      ghost var s := state[..];
      state[p] := NextWord(state[q], state[p], state[r]);
      assert state[..] == s[p := NextWord(s[q], s[p], s[r])];
    }

    // The part the drawing functions share: refill when nothing is left, take a word, temper it.
    method Draw() returns (y: bv32)
      requires Valid()
      modifies this, state
      ensures Valid() && seed == old(seed) && drawn == old(drawn) + 1
      ensures y == Drawn(seed, old(drawn))
    {
      hide Term, Initial, InitStep, NextTerm, Temper, Xor;
      left := left - 1;
      if left == 0 {
        NextState();
      }
      y := state[next];
      next, drawn := next + 1, drawn + 1;
      y := Tempered(y);
    }

    // mt_genrand_int32
    method Int32() returns (y: bv32)
      requires Valid()
      modifies this, state
      ensures Valid() && seed == old(seed) && drawn == old(drawn) + 1
      ensures y == Drawn(seed, old(drawn))
    {
      y := Draw();
    }

    // mt_genrand_int31
    method Int31() returns (r: int)
      requires Valid()
      modifies this, state
      ensures Valid() && seed == old(seed) && drawn == old(drawn) + 1
      ensures r == Right1(Drawn(seed, old(drawn))) as int && 0 <= r < 0x8000_0000
    {
      var y := Draw();
      Halved(y);
      r := Right1(y) as int;
    }

    // mt_genrand_real1
    method Real1() returns (r: real)
      requires Valid()
      modifies this, state
      ensures Valid() && seed == old(seed) && drawn == old(drawn) + 1
      ensures r * 4294967295.0 == Drawn(seed, old(drawn)) as int as real && 0.0 <= r <= 1.0
    {
      var y := Draw();
      r := (y as int as real) * (1.0 / 4294967295.0);
    }

    // mt_genrand_real2
    method Real2() returns (r: real)
      requires Valid()
      modifies this, state
      ensures Valid() && seed == old(seed) && drawn == old(drawn) + 1
      ensures r * 4294967296.0 == Drawn(seed, old(drawn)) as int as real && 0.0 <= r < 1.0
    {
      var y := Draw();
      r := (y as int as real) * (1.0 / 4294967296.0);
    }

    // mt_genrand_real3
    method Real3() returns (r: real)
      requires Valid()
      modifies this, state
      ensures Valid() && seed == old(seed) && drawn == old(drawn) + 1
      ensures r * 4294967296.0 == Drawn(seed, old(drawn)) as int as real + 0.5 && 0.0 < r < 1.0
    {
      var y := Draw();
      r := ((y as int as real) + 0.5) * (1.0 / 4294967296.0);
    }

    // mt_genrand_res53
    method Res53() returns (r: real)
      requires Valid()
      modifies this, state
      ensures Valid() && seed == old(seed) && drawn == old(drawn) + 2
      ensures r == Joined(Drawn(seed, old(drawn)), Drawn(seed, old(drawn) + 1))
      ensures 0.0 <= r < 1.0
    {
      hide Drawn, Joined;
      var a := Int32();
      var b := Int32();
      r := Combine(a, b);
    }
  }

  lemma Halved(y: bv32)
    ensures Right1(y) as int < 0x8000_0000
  {
    assert ((y >> 1) as bv31) as int == (y >> 1) as int;
  }

  // 27 bits of one draw and 26 of the next.
  function Joined(a: bv32, b: bv32): (r: real)
    ensures 0.0 <= r < 1.0
  {
    JoinedBits(a, b);
    Quotient53(Right5(a) as int, Right6(b) as int)
  }

  function Quotient53(u: int, v: int): (r: real)
    requires 0 <= u < 134217728 && 0 <= v < 67108864
    ensures 0.0 <= r < 1.0
  {
    (u as real * 67108864.0 + v as real) * (1.0 / 9007199254740992.0)
  }

  // The return expression of mt_genrand_res53
  method Combine(a: bv32, b: bv32) returns (r: real)
    ensures r == Joined(a, b)
  {
    hide Right5, Right6;
    r := (Right5(a) as int as real * 67108864.0 + Right6(b) as int as real) * (1.0 / 9007199254740992.0);
  }

  lemma JoinedBits(a: bv32, b: bv32)
    ensures Right5(a) as int < 134217728 && Right6(b) as int < 67108864
  {
    assert ((a >> 5) as bv27) as int == (a >> 5) as int;
    assert ((b >> 6) as bv26) as int == (b >> 6) as int;
  }

  // The six ways to draw.
  datatype Kind = Int32 | Int31 | Real1 | Real2 | Real3 | Res53

  datatype Value = Word(w: bv32) | Number(n: int) | Fraction(r: real)

  // How many words a draw takes.
  function Words(k: Kind): nat {
    if k == Res53 then 2 else 1
  }

  function WordsOf(kinds: seq<Kind>): nat {
    if kinds == [] then 0 else WordsOf(kinds[..|kinds| - 1]) + Words(kinds[|kinds| - 1])
  }

  lemma NoWords(kinds: seq<Kind>)
    ensures WordsOf(kinds[..0]) == 0
  {
  }

  lemma MoreWords(kinds: seq<Kind>, n: nat)
    requires n < |kinds|
    ensures WordsOf(kinds[..n + 1]) == WordsOf(kinds[..n]) + Words(kinds[n])
  {
    assert kinds[..n + 1][..n] == kinds[..n];
  }

  // What a draw of some kind makes of the words that are next.
  function Made(kind: Kind, seed: bv32, k: nat): Value {
    var y := Drawn(seed, k);
    match kind
    case Int32 => Word(y)
    case Int31 => Number(Right1(y) as int)
    case Real1 => Fraction(y as int as real / 4294967295.0)
    case Real2 => Fraction(y as int as real / 4294967296.0)
    case Real3 => Fraction((y as int as real + 0.5) / 4294967296.0)
    case Res53 => Fraction(Joined(y, Drawn(seed, k + 1)))
  }

  method DrawOne(g: Generator, kind: Kind) returns (v: Value)
    requires g.Valid()
    modifies g, g.state
    ensures g.Valid() && g.seed == old(g.seed) && g.drawn == old(g.drawn) + Words(kind)
    ensures v == Made(kind, g.seed, old(g.drawn))
  {
    hide Drawn, Joined, Right1, Temper, Term;
    match kind
    case Int32 => { var y := g.Int32(); v := Word(y); }
    case Int31 => { var n := g.Int31(); v := Number(n); }
    case Real1 => { var r := g.Real1(); v := Fraction(r); }
    case Real2 => { var r := g.Real2(); v := Fraction(r); }
    case Real3 => { var r := g.Real3(); v := Fraction(r); }
    case Res53 => { var r := g.Res53(); v := Fraction(r); }
  }

  // Any mix of draws reads the tempered terms one after the other, over any number of refills.
  method Run(g: Generator, kinds: seq<Kind>) returns (vs: seq<Value>)
    requires g.Valid()
    modifies g, g.state
    ensures g.Valid() && g.seed == old(g.seed) && |vs| == |kinds|
    ensures forall i :: 0 <= i < |kinds| ==> vs[i] == Made(kinds[i], g.seed, old(g.drawn) + WordsOf(kinds[..i]))
  {
    hide *;
    NoWords(kinds);
    vs := [];
    while |vs| < |kinds|
      invariant g.Valid() && g.seed == old(g.seed) && |vs| <= |kinds|
      invariant g.drawn == old(g.drawn) + WordsOf(kinds[..|vs|])
      invariant forall i :: 0 <= i < |vs| ==> vs[i] == Made(kinds[i], g.seed, old(g.drawn) + WordsOf(kinds[..i]))
    {
      MoreWords(kinds, |vs|);
      var v := DrawOne(g, kinds[|vs|]);
      vs := vs + [v];
    }
  }

  // Words before p belong to the block after base, the others still to the one at base.
  ghost predicate Refilled(s: seq<bv32>, seed: bv32, base: nat, p: nat) {
    |s| == N && p <= N
    && (forall i :: 0 <= i < p ==> s[i] == Term(seed, base + N + i))
    && (forall i :: p <= i < N ==> s[i] == Term(seed, base + i))
  }

  lemma BlockToRefill(s: seq<bv32>, seed: bv32, base: nat)
    requires |s| == N && Block(s, seed, base, N)
    ensures Refilled(s, seed, base, 0)
  {
  }

  lemma RefilledBlock(s: seq<bv32>, seed: bv32, base: nat)
    requires Refilled(s, seed, base, N)
    ensures Block(s, seed, base + N, N)
  {
  }

  lemma RefilledView(s: seq<bv32>, seed: bv32, base: nat, p: nat)
    requires Refilled(s, seed, base, p)
    ensures |s| == N
  {
  }

  lemma RefilledMore(s: seq<bv32>, seed: bv32, base: nat, p: nat, q: nat, r: nat)
    requires p < N && Refilled(s, seed, base, p)
    requires q == (if p < N - M then p + M else p + M - N) && r == if p < N - 1 then p + 1 else 0
    ensures Refilled(s[p := NextWord(s[q], s[p], s[r])], seed, base, p + 1)
  {
    hide Term, NextWord;
    var k := base + p;
    Recurrence(seed, k);
    assert s[q] == Term(seed, k + M) && s[p] == Term(seed, k) && s[r] == Term(seed, k + 1);
  }

  // The first n words are the terms from base on.
  ghost predicate Block(s: seq<bv32>, seed: bv32, base: nat, n: nat) {
    n <= |s| && forall i :: 0 <= i < n ==> s[i] == Term(seed, base + i)
  }

  lemma InitialTerm(seed: bv32, j: nat)
    requires j < N
    ensures Term(seed, j) == if j == 0 then seed else InitStep(Term(seed, j - 1), j)
  {
    hide InitStep;
  }
}

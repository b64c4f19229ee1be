// The bottom-up merge sort of ptrlist.c on sequences, and why it is a stable sort.
module MergeSort {

  // gt(x, y) stands for cmp(x, y) > 0; among the elements u, "not greater" is total and transitive.
  ghost predicate TotalPreorder<E>(u: set<E>, gt: (E, E) -> bool) {
    && (forall x, y :: x in u && y in u ==> !gt(x, y) || !gt(y, x))
    && (forall x, y, z :: x in u && y in u && z in u && !gt(x, y) && !gt(y, z) ==> !gt(x, z))
  }

  ghost predicate From<E>(s: seq<E>, u: set<E>) {
    forall i :: 0 <= i < |s| ==> s[i] in u
  }

  ghost predicate Sorted<E>(s: seq<E>, gt: (E, E) -> bool) {
    forall i, j :: 0 <= i < j < |s| ==> !gt(s[i], s[j])
  }

  // The elements that compare equal to x, in order.
  function Equals<E>(s: seq<E>, x: E, gt: (E, E) -> bool): seq<E> {
    if s == [] then []
    else (if !gt(s[0], x) && !gt(x, s[0]) then [s[0]] else []) + Equals(s[1..], x, gt)
  }

  // t has the elements of s, and elements that compare equal keep their order.
  ghost predicate StablePermutation<E>(s: seq<E>, t: seq<E>, u: set<E>, gt: (E, E) -> bool) {
    multiset(t) == multiset(s) && forall x :: x in u ==> Equals(t, x, gt) == Equals(s, x, gt)
  }

  function Merge<E>(l: seq<E>, r: seq<E>, gt: (E, E) -> bool): (m: seq<E>)
    ensures multiset(m) == multiset(l) + multiset(r) && |m| == |l| + |r|
  {
    if l == [] then r
    else if r == [] then l
    else if gt(l[0], r[0]) then
      assert r == [r[0]] + r[1..];
      [r[0]] + Merge(l, r[1..], gt)
    else
      assert l == [l[0]] + l[1..];
      [l[0]] + Merge(l[1..], r, gt)
  }

  function Min(a: nat, b: nat): nat {
    if a < b then a else b
  }

  // merge_chunk: neighbouring runs of `chunk` elements are merged in pairs.
  function MergeChunk<E>(s: seq<E>, chunk: nat, gt: (E, E) -> bool): (t: seq<E>)
    requires chunk > 0
    ensures |t| == |s|
  {
    if s == [] then []
    else
      var l := Min(chunk, |s|);
      var v := s[l..];
      var r := Min(chunk, |v|);
      Merge(s[..l], v[..r], gt) + MergeChunk(v[r..], chunk, gt)
  }

  lemma {:induction false} MergeChunkPermutes<E>(s: seq<E>, chunk: nat, gt: (E, E) -> bool)
    requires chunk > 0
    ensures multiset(MergeChunk(s, chunk, gt)) == multiset(s)
  {
    if s != [] {
      var l := Min(chunk, |s|);
      var v := s[l..];
      var r := Min(chunk, |v|);
      MergeChunkPermutes(v[r..], chunk, gt);
      MultisetSplit(s, l);
      MultisetSplit(v, r);
      var a, b := Merge(s[..l], v[..r], gt), MergeChunk(v[r..], chunk, gt);
      assert MergeChunk(s, chunk, gt) == a + b;
      hide MergeChunk;
      MultisetJoin(a, b);
    }
  }

  lemma MultisetSplit<E>(s: seq<E>, i: nat)
    requires i <= |s|
    ensures multiset(s) == multiset(s[..i]) + multiset(s[i..])
  {
    assert s == s[..i] + s[i..];
  }

  lemma MultisetJoin<E>(a: seq<E>, b: seq<E>)
    ensures multiset(a + b) == multiset(a) + multiset(b)
  {
  }

  // ptrlist_sort from the pass with runs of `chunk` elements on.
  function SortFrom<E>(s: seq<E>, chunk: nat, gt: (E, E) -> bool): (t: seq<E>)
    requires chunk > 0
    ensures |t| == |s|
    decreases |s| - chunk
  {
    if chunk >= |s| then s else SortFrom(MergeChunk(s, chunk, gt), 2 * chunk, gt)
  }

  // Every run of `chunk` elements, counted from the front, is sorted.
  ghost predicate RunsSorted<E>(s: seq<E>, chunk: nat, gt: (E, E) -> bool)
    requires chunk > 0
  {
    s == [] || (Sorted(s[..Min(chunk, |s|)], gt) && RunsSorted(s[Min(chunk, |s|)..], chunk, gt))
  }

  // [y] if y compares equal to x, else nothing.
  function Picked<E>(y: E, x: E, gt: (E, E) -> bool): seq<E> {
    if !gt(y, x) && !gt(x, y) then [y] else []
  }

  lemma EqualsCons<E>(y: E, s: seq<E>, x: E, gt: (E, E) -> bool)
    ensures Equals([y] + s, x, gt) == Picked(y, x, gt) + Equals(s, x, gt)
  {
    assert ([y] + s)[1..] == s;
  }

  lemma Regroup<E>(p: seq<E>, l: seq<E>, r: seq<E>)
    ensures p + (l + r) == (p + l) + r
    ensures p == [] || l == [] ==> p + (l + r) == l + (p + r)
  {
  }

  lemma {:induction false} EqualsJoin<E>(s: seq<E>, t: seq<E>, x: E, gt: (E, E) -> bool)
    ensures Equals(s + t, x, gt) == Equals(s, x, gt) + Equals(t, x, gt)
  {
    if s == [] {
      assert s + t == t;
    } else {
      var rest := s[1..];
      EqualsJoin(rest, t, x, gt);
      hide Equals, Picked;
      assert s == [s[0]] + rest;
      Regroup([s[0]], rest, t);
      EqualsCons(s[0], rest, x, gt);
      EqualsCons(s[0], rest + t, x, gt);
      Regroup(Picked(s[0], x, gt), Equals(rest, x, gt), Equals(t, x, gt));
    }
  }

  lemma {:induction false} NoEquals<E>(s: seq<E>, x: E, gt: (E, E) -> bool)
    requires forall i :: 0 <= i < |s| ==> gt(s[i], x)
    ensures Equals(s, x, gt) == []
  {
    if s != [] {
      NoEquals(s[1..], x, gt);
    }
  }

  // The head a merge takes is not greater than anything that is left.
  lemma LeastFirst<E>(l: seq<E>, r: seq<E>, u: set<E>, gt: (E, E) -> bool, first: E, rest: seq<E>)
    requires TotalPreorder(u, gt) && From(l, u) && From(r, u) && Sorted(l, gt) && Sorted(r, gt) && l != [] && r != []
    requires first == if gt(l[0], r[0]) then r[0] else l[0]
    requires multiset(rest) <= multiset(l) + multiset(r)
    ensures forall k :: 0 <= k < |rest| ==> !gt(first, rest[k])
  {
    forall x | x in l || x in r
      ensures !gt(first, x)
    {
      LeastOf(l, r, u, gt, first, x);
    }
    forall k | 0 <= k < |rest|
      ensures rest[k] in l || rest[k] in r
    {
      assert rest[k] in multiset(rest);
    }
  }

  lemma LeastOf<E>(l: seq<E>, r: seq<E>, u: set<E>, gt: (E, E) -> bool, first: E, x: E)
    requires TotalPreorder(u, gt) && From(l, u) && From(r, u) && Sorted(l, gt) && Sorted(r, gt) && l != [] && r != []
    requires first == (if gt(l[0], r[0]) then r[0] else l[0]) && (x in l || x in r)
    ensures !gt(first, x)
  {
    var s := if x in l then l else r;
    var i :| 0 <= i < |s| && s[i] == x;
    assert s[0] in u && x in u && l[0] in u && r[0] in u;
    assert i == 0 || !gt(s[0], s[i]);
  }

  lemma SortedCons<E>(first: E, rest: seq<E>, gt: (E, E) -> bool)
    requires Sorted(rest, gt) && forall k :: 0 <= k < |rest| ==> !gt(first, rest[k])
    ensures Sorted([first] + rest, gt)
  {
  }

  lemma SortedTail<E>(s: seq<E>, u: set<E>, gt: (E, E) -> bool)
    requires Sorted(s, gt) && From(s, u) && s != []
    ensures Sorted(s[1..], gt) && From(s[1..], u) && multiset(s[1..]) <= multiset(s)
  {
    assert s == [s[0]] + s[1..];
  }

  lemma {:induction false} MergeSorted<E>(l: seq<E>, r: seq<E>, u: set<E>, gt: (E, E) -> bool)
    requires TotalPreorder(u, gt) && From(l, u) && From(r, u) && Sorted(l, gt) && Sorted(r, gt)
    ensures Sorted(Merge(l, r, gt), gt)
  {
    hide TotalPreorder, From, Sorted;
    if l != [] && r != [] {
      var first, rest: seq<E>;
      if gt(l[0], r[0]) {
        first, rest := r[0], Merge(l, r[1..], gt);
        SortedTail(r, u, gt);
        MergeSorted(l, r[1..], u, gt);
      } else {
        first, rest := l[0], Merge(l[1..], r, gt);
        SortedTail(l, u, gt);
        MergeSorted(l[1..], r, u, gt);
      }
      LeastFirst(l, r, u, gt, first, rest);
      SortedCons(first, rest, gt);
    }
  }

  lemma PickedAlone<E>(l: seq<E>, y: E, x: E, u: set<E>, gt: (E, E) -> bool)
    requires TotalPreorder(u, gt) && From(l, u) && y in u && x in u && l != [] && Sorted(l, gt) && gt(l[0], y)
    ensures Picked(y, x, gt) == [] || Equals(l, x, gt) == []
  {
    if Picked(y, x, gt) != [] {
      forall i | 0 <= i < |l|
        ensures gt(l[i], x)
      {
        assert i == 0 || !gt(l[0], l[i]);
      }
      NoEquals(l, x, gt);
    }
  }

  lemma {:induction false} MergeStable<E>(l: seq<E>, r: seq<E>, x: E, u: set<E>, gt: (E, E) -> bool)
    requires TotalPreorder(u, gt) && From(l, u) && From(r, u) && Sorted(l, gt) && Sorted(r, gt)
    requires x in u
    ensures Equals(Merge(l, r, gt), x, gt) == Equals(l, x, gt) + Equals(r, x, gt)
  {
    if l == [] || r == [] {
      assert Equals(l, x, gt) + Equals(r, x, gt) == Equals(if l == [] then r else l, x, gt);
    } else if gt(l[0], r[0]) {
      MergeStable(l, r[1..], x, u, gt);
      PickedAlone(l, r[0], x, u, gt);
      assert r == [r[0]] + r[1..];
      assert Merge(l, r, gt) == [r[0]] + Merge(l, r[1..], gt);
      hide *;
      EqualsCons(r[0], Merge(l, r[1..], gt), x, gt);
      EqualsCons(r[0], r[1..], x, gt);
      Regroup(Picked(r[0], x, gt), Equals(l, x, gt), Equals(r[1..], x, gt));
    } else {
      MergeStable(l[1..], r, x, u, gt);
      assert l == [l[0]] + l[1..];
      assert Merge(l, r, gt) == [l[0]] + Merge(l[1..], r, gt);
      hide *;
      EqualsCons(l[0], Merge(l[1..], r, gt), x, gt);
      EqualsCons(l[0], l[1..], x, gt);
      Regroup(Picked(l[0], x, gt), Equals(l[1..], x, gt), Equals(r, x, gt));
    }
  }

  lemma MergePair<E>(a: seq<E>, b: seq<E>, rest: seq<E>, t: seq<E>, u: set<E>, gt: (E, E) -> bool)
    requires From(a, u) && From(b, u)
    requires TotalPreorder(u, gt) && Sorted(a, gt) && Sorted(b, gt) && StablePermutation(rest, t, u, gt)
    ensures StablePermutation(a + b + rest, Merge(a, b, gt) + t, u, gt)
  {
    var m := Merge(a, b, gt);
    forall x | x in u
      ensures Equals(m + t, x, gt) == Equals(a + b + rest, x, gt)
    {
      assert Equals(t, x, gt) == Equals(rest, x, gt);
      hide Merge, Equals, StablePermutation, Sorted;
      MergeStable(a, b, x, u, gt);
      EqualsJoin(m, t, x, gt);
      EqualsJoin(a, b, x, gt);
      EqualsJoin(a + b, rest, x, gt);
    }
  }

  lemma FromParts<E>(s: seq<E>, i: nat, u: set<E>)
    requires From(s, u) && i <= |s|
    ensures From(s[..i], u) && From(s[i..], u)
  {
  }

  // The two runs a pass merges first, and what it goes on with.
  lemma RunsSplit<E>(s: seq<E>, chunk: nat, u: set<E>, gt: (E, E) -> bool)
    requires chunk > 0 && s != [] && RunsSorted(s, chunk, gt) && From(s, u)
    ensures var l := Min(chunk, |s|); var v := s[l..]; var r := Min(chunk, |v|);
      && Sorted(s[..l], gt) && Sorted(v[..r], gt) && RunsSorted(v[r..], chunk, gt)
      && From(s[..l], u) && From(v[..r], u) && From(v[r..], u)
  {
    hide Sorted, From;
    var l := Min(chunk, |s|);
    var v := s[l..];
    var r := Min(chunk, |v|);
    assert RunsSorted(v, chunk, gt);
    FromParts(s, l, u);
    FromParts(v, r, u);
    if v == [] {
      SortedEmpty(gt);
      assert v[..r] == [] && v[r..] == [];
    }
  }

  lemma SortedEmpty<E>(gt: (E, E) -> bool)
    ensures Sorted([], gt)
  {
  }

  lemma {:induction false} MergeChunkRuns<E>(s: seq<E>, chunk: nat, u: set<E>, gt: (E, E) -> bool)
    requires From(s, u)
    requires chunk > 0 && TotalPreorder(u, gt) && RunsSorted(s, chunk, gt)
    ensures RunsSorted(MergeChunk(s, chunk, gt), 2 * chunk, gt)
  {
    if s != [] {
      var l := Min(chunk, |s|);
      var v := s[l..];
      var r := Min(chunk, |v|);
      RunsSplit(s, chunk, u, gt);
      MergeChunkRuns(v[r..], chunk, u, gt);
      MergeSorted(s[..l], v[..r], u, gt);
      var m, t := Merge(s[..l], v[..r], gt), MergeChunk(v[r..], chunk, gt);
      assert (m + t)[..|m|] == m && (m + t)[|m|..] == t;
    }
  }

  lemma {:induction false} MergeChunkStable<E>(s: seq<E>, chunk: nat, u: set<E>, gt: (E, E) -> bool)
    requires From(s, u)
    requires chunk > 0 && TotalPreorder(u, gt) && RunsSorted(s, chunk, gt)
    ensures StablePermutation(s, MergeChunk(s, chunk, gt), u, gt)
  {
    if s != [] {
      var l := Min(chunk, |s|);
      var v := s[l..];
      var r := Min(chunk, |v|);
      RunsSplit(s, chunk, u, gt);
      MergeChunkStable(v[r..], chunk, u, gt);
      assert s == s[..l] + v[..r] + v[r..];
      hide Sorted, Merge, StablePermutation, From, RunsSorted, TotalPreorder;
      MergePair(s[..l], v[..r], v[r..], MergeChunk(v[r..], chunk, gt), u, gt);
    }
  }

  lemma MultisetFrom<E>(s: seq<E>, t: seq<E>, u: set<E>)
    requires From(s, u) && multiset(s) == multiset(t)
    ensures From(t, u)
  {
    forall i | 0 <= i < |t|
      ensures t[i] in u
    {
      assert t[i] in multiset(s);
    }
  }

  lemma {:induction false} SortFromKeeps<E>(s: seq<E>, chunk: nat, u: set<E>, gt: (E, E) -> bool)
    requires From(s, u)
    requires chunk > 0 && TotalPreorder(u, gt) && RunsSorted(s, chunk, gt)
    ensures Sorted(SortFrom(s, chunk, gt), gt)
    ensures StablePermutation(s, SortFrom(s, chunk, gt), u, gt)
    decreases |s| - chunk
  {
    if chunk >= |s| {
      assert s[..Min(chunk, |s|)] == s;
    } else {
      MergeChunkRuns(s, chunk, u, gt);
      MergeChunkStable(s, chunk, u, gt);
      MultisetFrom(s, MergeChunk(s, chunk, gt), u);
      SortFromKeeps(MergeChunk(s, chunk, gt), 2 * chunk, u, gt);
    }
  }

  lemma {:induction false} SingleRuns<E>(s: seq<E>, gt: (E, E) -> bool)
    ensures RunsSorted(s, 1, gt)
  {
    if s != [] {
      SingleRuns(s[1..], gt);
    }
  }

  // What ptrlist_sort promises, for every length and every total preorder.
  lemma SortIsStableSort<E>(s: seq<E>, u: set<E>, gt: (E, E) -> bool)
    requires From(s, u) && TotalPreorder(u, gt)
    ensures Sorted(SortFrom(s, 1, gt), gt) && StablePermutation(s, SortFrom(s, 1, gt), u, gt)
  {
    SingleRuns(s, gt);
    SortFromKeeps(s, 1, u, gt);
  }

  lemma SameHead<E>(s: seq<E>, t: seq<E>, u: set<E>, gt: (E, E) -> bool)
    requires From(s, u) && From(t, u)
    requires TotalPreorder(u, gt) && Sorted(s, gt) && Sorted(t, gt) && StablePermutation(s, t, u, gt)
    requires s != [] && t != []
    ensures s[0] == t[0]
  {
    assert t[0] in multiset(s) && s[0] in multiset(t);
    var i :| 0 <= i < |s| && s[i] == t[0];
    var j :| 0 <= j < |t| && t[j] == s[0];
    assert !gt(s[0], s[0]) && !gt(t[0], t[0]);
    assert !gt(s[0], t[0]) && !gt(t[0], s[0]);
    assert Equals(t, s[0], gt) == Equals(s, s[0], gt);
    assert Equals(s, s[0], gt)[0] == s[0] && Equals(t, s[0], gt)[0] == t[0];
  }

  lemma SameTail<E>(s: seq<E>, t: seq<E>, u: set<E>, gt: (E, E) -> bool)
    requires StablePermutation(s, t, u, gt) && s != [] && t != [] && s[0] == t[0]
    ensures StablePermutation(s[1..], t[1..], u, gt)
  {
    assert s == [s[0]] + s[1..] && t == [t[0]] + t[1..];
    assert multiset(s[1..]) == multiset(s) - multiset{s[0]};
    assert multiset(t[1..]) == multiset(t) - multiset{s[0]};
    forall x | x in u
      ensures Equals(t[1..], x, gt) == Equals(s[1..], x, gt)
    {
      EqualsCons(s[0], s[1..], x, gt);
      EqualsCons(s[0], t[1..], x, gt);
      var e := Picked(s[0], x, gt);
      assert Equals(t, x, gt)[|e|..] == Equals(t[1..], x, gt);
      assert Equals(s, x, gt)[|e|..] == Equals(s[1..], x, gt);
    }
  }

  // A sorted stable permutation is unique, so the sort's result is determined.
  lemma {:induction false} StableSortUnique<E>(s: seq<E>, t: seq<E>, u: set<E>, gt: (E, E) -> bool)
    requires From(s, u) && From(t, u)
    requires TotalPreorder(u, gt) && Sorted(s, gt) && Sorted(t, gt) && StablePermutation(s, t, u, gt)
    ensures s == t
  {
    if s == [] {
      assert |multiset(t)| == |multiset(s)| == 0;
      assert t == [];
    } else {
      assert |multiset(t)| == |multiset(s)| == |s|;
      SameHead(s, t, u, gt);
      SameTail(s, t, u, gt);
      StableSortUnique(s[1..], t[1..], u, gt);
    }
  }
}

// list.h and ptrlist.c: a circular doubly linked list with a cached length, and its
// in-place merge sort.
module PtrLists {
  import opened MergeSort

  // struct ptrlist with its struct list_head. The same struct is the head of a list and
  // an entry of one; `len` and `nodes` are used in the head only, `data` in entries.
  class PtrList {
    var data: object?
    var next: PtrList
    var prev: PtrList
    var len: nat
    ghost var nodes: seq<PtrList>

    // ptrlist_init
    constructor ()
      ensures Valid() && nodes == [] && data == null
    {
      data, len := null, 0;
      next, prev := this, this;
      nodes := [];
    }

    // The head and its entries form one ring, and `len` counts the entries.
    ghost predicate Valid()
      reads this, nodes
    {
      Circular([this] + nodes) && len == |nodes|
    }

    // ptrlist_get
    method Get(n: nat) returns (e: PtrList?)
      requires Valid()
      ensures e == if n < |nodes| then nodes[n] else null
    {
      ghost var r := [this] + nodes;
      RingLinks(r, 0);
      var ptr := next;
      var i := 0;
      while ptr != this
        invariant i <= n && i <= |nodes| && ptr == Place(r, i + 1)
        decreases |nodes| - i
      {
        PlaceOfHead(r, i + 1);
        if i == n {
          return ptr;
        }
        RingLinks(r, i + 1);
        ptr := ptr.next;
        i := i + 1;
      }
      PlaceOfHead(r, i + 1);
      e := null;
    }

    // ptrlist_push
    method Push(e: object?)
      requires Valid()
      modifies this, SetOf([this] + nodes)`next, SetOf([this] + nodes)`prev
      ensures Valid() && |nodes| == old(|nodes|) + 1 && nodes[..|nodes| - 1] == old(nodes) && data == old(data)
      ensures fresh(nodes[|nodes| - 1]) && nodes[|nodes| - 1].data == e
      ensures forall n :: n in old(nodes) ==> n.data == old(n.data)
    {
      ghost var r := [this] + nodes;
      var nl := new PtrList();
      nl.data := e;
      RingLinks(r, 0);
      assert r[|r| - 1] == prev && prev.next == this;
      AppendEntry(this, nodes, nl);
      hide Circular, InsertAt;
      ListAdd(nl, prev, this, r, |r| - 1);
      len := len + 1;
      nodes := nodes + [nl];
    }

    // ptrlist_pull
    method Pull() returns (d: object?)
      requires Valid()
      modifies this, SetOf([this] + nodes)`next, SetOf([this] + nodes)`prev
      ensures Valid() && data == old(data) && (forall n :: n in old(nodes) ==> n.data == old(n.data))
      ensures if old(nodes) == [] then d == null && nodes == [] else d == old(nodes[0].data) && nodes == old(nodes)[1..]
    {
      ghost var r := [this] + nodes;
      RingLinks(r, 0);
      if next == this {
        assert nodes == [];
        return null;
      }
      assert nodes != [];
      var e := next;
      RingLinks(r, 1);
      ListDel(e.prev, e.next, r, 1);
      e.next, e.prev := e, e;
      len := len - 1;
      nodes := nodes[1..];
      assert RemoveAt(r, 1) == [this] + nodes;
      d := e.data;
    }

    // ptrlist_rm
    method Rm(n: nat)
      requires Valid() && n < |nodes|
      modifies this, SetOf([this] + nodes)`next, SetOf([this] + nodes)`prev
      ensures Valid() && nodes == old(nodes)[..n] + old(nodes)[n + 1..] && data == old(data)
      ensures forall k :: k in old(nodes) ==> k.data == old(k.data)
    {
      ghost var r := [this] + nodes;
      var e := Get(n);
      RingLinks(r, n + 1);
      ListDel(e.prev, e.next, r, n + 1);
      len := len - 1;
      nodes := nodes[..n] + nodes[n + 1..];
      assert RemoveAt(r, n + 1) == [this] + nodes;
    }

    // merge_chunk: one pass over the list.
    method MergePass(chunk: nat, cmp: (object?, object?) -> int, ghost gt: (PtrList, PtrList) -> bool)
      requires Valid() && nodes != [] && chunk > 0 && Compares(SetOf(nodes), cmp, gt)
      modifies this`next, this`prev, this`nodes, SetOf(nodes)`next, SetOf(nodes)`prev
      ensures Valid() && nodes == MergeChunk(old(nodes), chunk, gt)
    {
      ghost var u, z0 := SetOf(nodes), Pass([this], nodes);
      var left := Get(0);
      PassBegins(this, nodes);
      assert Circular([this] + nodes) && len == |nodes| && Compares(u, cmp, gt);
      hide Circular, SetOf, Compares, MergeChunk, Pass.Ring, Pass.All, Pass.Over, Pass.Same;
      ghost var z := PassLoop(left, this, chunk, cmp, z0, u, gt);
      PassEnds(z, this, nodes, chunk, gt);
      SetNodes(z.front[1..]);
    }

    ghost method SetNodes(t: seq<PtrList>)
      requires Circular([this] + t) && len == |t|
      modifies this`nodes
      ensures Valid() && nodes == t
    {
      nodes := t;
    }

    // ptrlist_sort
    method Sort(cmp: (object?, object?) -> int)
      requires Valid()
      modifies this`next, this`prev, this`nodes, SetOf(nodes)`next, SetOf(nodes)`prev
      ensures Valid() && len == old(len) && multiset(nodes) == multiset(old(nodes))
      ensures nodes == SortFrom(old(nodes), 1, DataGt(old(DataOf(nodes)), cmp))
      ensures CmpPreorder(old(DataOf(nodes)), cmp) ==>
        && (forall i, j :: 0 <= i < j < |nodes| ==> cmp(nodes[i].data, nodes[j].data) <= 0)
        && StablePermutation(old(nodes), nodes, SetOf(old(nodes)), DataGt(old(DataOf(nodes)), cmp))
    {
      ghost var s, d := nodes, DataOf(nodes);
      ghost var gt := DataGt(d, cmp);
      hide Circular, Compares, SetOf, DataGt, SortFrom, MergeChunk, StablePermutation, CmpPreorder;
      if len >= 2 {
        var chunk := 1;
        while chunk < len
          invariant Valid() && chunk > 0 && len == |s| && multiset(nodes) == multiset(s) && SetOf(nodes) == SetOf(s)
          invariant SortFrom(nodes, chunk, gt) == SortFrom(s, 1, gt)
          invariant DataOf(s) == d
          decreases len - chunk
        {
          DataCompares(nodes, s, d, cmp);
          PassKeeps(nodes, chunk, gt);
          MergePass(chunk, cmp, gt);
          chunk := chunk * 2;
        }
        SortEnds(nodes, chunk, gt);
      }
      SortEnds(s, 1, gt);
      SortedByData(s, nodes, d, cmp);
    }
  }

  // The data of some entries at one moment, and the comparison of entries by it.
  ghost function DataOf(s: seq<PtrList>): map<PtrList, object?>
    reads SetOf(s)`data
  {
    map n | n in SetOf(s) :: n.data
  }

  ghost function DataGt(d: map<PtrList, object?>, cmp: (object?, object?) -> int): (PtrList, PtrList) -> bool {
    (x, y) => x in d && y in d && cmp(d[x], d[y]) > 0
  }

  // "not greater" is a total preorder on the data in the list.
  ghost predicate CmpPreorder(d: map<PtrList, object?>, cmp: (object?, object?) -> int) {
    && (forall x, y :: x in d && y in d ==> cmp(d[x], d[y]) <= 0 || cmp(d[y], d[x]) <= 0)
    && (forall x, y, z :: x in d && y in d && z in d && cmp(d[x], d[y]) <= 0 && cmp(d[y], d[z]) <= 0 ==> cmp(d[x], d[z]) <= 0)
  }

  lemma DataCompares(nodes: seq<PtrList>, s: seq<PtrList>, d: map<PtrList, object?>, cmp: (object?, object?) -> int)
    requires DataOf(s) == d && SetOf(nodes) == SetOf(s)
    ensures Compares(SetOf(nodes), cmp, DataGt(d, cmp))
  {
  }

  lemma PassKeeps(s: seq<PtrList>, chunk: nat, gt: (PtrList, PtrList) -> bool)
    requires chunk > 0
    ensures multiset(MergeChunk(s, chunk, gt)) == multiset(s) && SetOf(MergeChunk(s, chunk, gt)) == SetOf(s)
    ensures chunk < |s| ==> SortFrom(s, chunk, gt) == SortFrom(MergeChunk(s, chunk, gt), 2 * chunk, gt)
  {
    MergeChunkPermutes(s, chunk, gt);
    hide MergeChunk;
    SameElements(s, MergeChunk(s, chunk, gt));
  }

  lemma SameElements(s: seq<PtrList>, t: seq<PtrList>)
    requires multiset(s) == multiset(t)
    ensures SetOf(s) == SetOf(t)
  {
    assert forall x :: x in t <==> x in multiset(t);
    assert forall x :: x in s <==> x in multiset(s);
  }

  lemma SortEnds(s: seq<PtrList>, chunk: nat, gt: (PtrList, PtrList) -> bool)
    requires chunk > 0
    ensures chunk >= |s| ==> SortFrom(s, chunk, gt) == s
  {
  }

  lemma SortedByData(s: seq<PtrList>, nodes: seq<PtrList>, d: map<PtrList, object?>, cmp: (object?, object?) -> int)
    requires DataOf(s) == d && nodes == SortFrom(s, 1, DataGt(d, cmp)) && SetOf(nodes) == SetOf(s)
    ensures CmpPreorder(d, cmp) ==>
      && (forall i, j :: 0 <= i < j < |nodes| ==> cmp(nodes[i].data, nodes[j].data) <= 0)
      && StablePermutation(s, nodes, SetOf(s), DataGt(d, cmp))
  {
    var gt := DataGt(d, cmp);
    if CmpPreorder(d, cmp) {
      assert TotalPreorder(SetOf(s), gt);
      SortIsStableSort(s, SetOf(s), gt);
      forall i, j | 0 <= i < j < |nodes|
        ensures cmp(nodes[i].data, nodes[j].data) <= 0
      {
        assert nodes[i] in SetOf(nodes) && nodes[j] in SetOf(nodes);
        assert !gt(nodes[i], nodes[j]);
      }
    }
  }

  // The loop of merge_chunk.
  method PassLoop(left0: PtrList, head: PtrList, chunk: nat, cmp: (object?, object?) -> int,
                  ghost z0: Pass, ghost u: set<PtrList>, ghost gt: (PtrList, PtrList) -> bool)
    returns (ghost z: Pass)
    requires Circular(z0.Ring()) && z0.front != [] && z0.front[0] == head && left0 == First(z0.rest, head)
    requires chunk > 0 && z0.Over(u) && Compares(u, cmp, gt)
    modifies SetOf(z0.Ring())`next, SetOf(z0.Ring())`prev
    ensures Circular(z.Ring()) && z.Same(z0) && z.front != [] && z.front[0] == head && z.rest == []
    ensures z.All(chunk, gt) == z0.All(chunk, gt)
  {
    hide *;
    z := z0;
    SameRefl(z);
    var left, next := left0, left0;
    PassView(z);
    while next != head
      invariant Circular(z.Ring()) && z.Same(z0) && z.front != [] && z.front[0] == head
      invariant left == next == First(z.rest, head) && (next == head <==> z.rest == [])
      invariant z.All(chunk, gt) == z0.All(chunk, gt) && z.Over(u) && Compares(u, cmp, gt)
      decreases |z.rest|
    {
      SameSets(z, z0);
      FirstOf(z.rest, head);
      ghost var y := z;
      next, z := MergeRuns(left, head, chunk, cmp, z, u, gt);
      SameTrans(z, y, z0);
      PassView(z);
      left := next;
    }
  }

  lemma SameRefl(z: Pass)
    ensures z.Same(z)
  {
  }

  lemma SameTrans(x: Pass, y: Pass, z: Pass)
    requires x.Same(y) && y.Same(z)
    ensures x.Same(z)
  {
  }

  lemma SameSets(x: Pass, z: Pass)
    requires x.Same(z)
    ensures SetOf(x.Ring()) == SetOf(z.Ring())
  {
  }

  lemma FirstOf(s: seq<PtrList>, head: PtrList)
    ensures s != [] ==> First(s, head) == s[0]
  {
  }

  // A pass under way: the ring up to the merged entries, and the entries still to come.
  datatype Pass = Pass(front: seq<PtrList>, rest: seq<PtrList>) {
    ghost function Ring(): seq<PtrList> {
      front + rest
    }

    // What the ring will be after the pass.
    function All(chunk: nat, gt: (PtrList, PtrList) -> bool): seq<PtrList>
      requires chunk > 0
    {
      front + MergeChunk(rest, chunk, gt)
    }

    function Next(chunk: nat, gt: (PtrList, PtrList) -> bool): Pass
      requires chunk > 0 && rest != []
    {
      var l := Min(chunk, |rest|);
      var v := rest[l..];
      var r := Min(chunk, |v|);
      Pass(front + Merge(rest[..l], v[..r], gt), v[r..])
    }

    ghost predicate Over(u: set<PtrList>) {
      From(rest, u)
    }

    // The next two runs, as a merge about to start.
    function Runs(chunk: nat): Merging
      requires chunk > 0
    {
      var l := Min(chunk, |rest|);
      var v := rest[l..];
      var r := Min(chunk, |v|);
      Merging(front, rest[..l], v[..r], v[r..])
    }

    function RunLength(chunk: nat): nat {
      Min(chunk, |rest|)
    }

    // The pass with its cursor moved over the first run.
    ghost function AfterFirst(chunk: nat): Pass
      requires chunk > 0
    {
      var l := RunLength(chunk);
      Pass(front + rest[..l], rest[l..])
    }

    ghost predicate Same(z: Pass) {
      SetOf(Ring()) == SetOf(z.Ring()) && |front| + |rest| == |z.front| + |z.rest|
    }
  }

  // The first entry of what is left of the ring, or the head.
  function First(rest: seq<PtrList>, head: PtrList): PtrList {
    if rest == [] then head else rest[0]
  }

  // Up to `chunk` steps along the ring, stopping at the head.
  method Skip(from: PtrList, head: PtrList, chunk: nat, ghost z: Pass) returns (p: PtrList, n: nat)
    requires Circular(z.Ring()) && z.front != [] && z.front[0] == head && from == First(z.rest, head)
    requires chunk > 0
    ensures n == z.RunLength(chunk) && p == First(z.AfterFirst(chunk).rest, head)
  {
    p, n := from, 0;
    assert z.rest[0..] == z.rest;
    while n < chunk && p != head
      invariant n <= chunk && n <= |z.rest| && p == First(z.rest[n..], head)
    {
      NextInRest(z.front, z.rest, n);
      p := p.next;
      n := n + 1;
    }
    NextInRest(z.front, z.rest, n);
  }

  lemma NextInRest(front: seq<PtrList>, rest: seq<PtrList>, n: nat)
    requires Circular(front + rest) && front != [] && n <= |rest|
    ensures First(rest[n..], front[0]) == front[0] <==> n == |rest|
    ensures n < |rest| ==> rest[n].next == First(rest[n + 1..], front[0])
  {
    var r := front + rest;
    assert r[0] == front[0];
    if n < |rest| {
      assert r[|front| + n] == rest[n];
      RingLinks(r, |front| + n);
      assert n + 1 < |rest| ==> r[|front| + n + 1] == rest[n + 1];
    }
  }

  lemma AppendEntry(head: PtrList, nodes: seq<PtrList>, x: PtrList)
    ensures InsertAt([head] + nodes, |[head] + nodes| - 1 + 1, x) == [head] + (nodes + [x])
  {
  }

  // Position i of a ring, where one past the end is the head again.
  function Place(r: seq<PtrList>, i: nat): PtrList
    requires r != [] && i <= |r|
  {
    if i == |r| then r[0] else r[i]
  }

  lemma PlaceOfHead(r: seq<PtrList>, i: nat)
    requires r != [] && Distinct(r) && 0 < i <= |r|
    ensures Place(r, i) == r[0] <==> i == |r|
  {
  }

  ghost predicate Distinct(r: seq<PtrList>) {
    forall i, j :: 0 <= i < j < |r| ==> r[i] != r[j]
  }

  function Nx(i: nat, n: nat): nat {
    if i + 1 == n then 0 else i + 1
  }

  ghost predicate Circular(r: seq<PtrList>)
    reads SetOf(r)`next, SetOf(r)`prev
  {
    && |r| > 0 && Distinct(r)
    && (forall i :: 0 <= i < |r| - 1 ==> r[i].next == r[i + 1])
    && (forall i :: 0 <= i < |r| - 1 ==> r[i + 1].prev == r[i])
    && r[|r| - 1].next == r[0] && r[0].prev == r[|r| - 1]
  }

  function InsertAt(r: seq<PtrList>, i: nat, x: PtrList): (s: seq<PtrList>)
    requires i <= |r|
  {
    r[..i] + [x] + r[i..]
  }

  function RemoveAt(r: seq<PtrList>, i: nat): (s: seq<PtrList>)
    requires i < |r|
  {
    r[..i] + r[i + 1..]
  }

  lemma InsertView(r: seq<PtrList>, i: nat, x: PtrList)
    requires Distinct(r) && i <= |r| && x !in r
    ensures var s := InsertAt(r, i, x);
      && |s| == |r| + 1 && Distinct(s)
      && forall k :: 0 <= k < |s| ==> s[k] == if k < i then r[k] else if k == i then x else r[k - 1]
  {
  }

  lemma RemoveView(r: seq<PtrList>, i: nat)
    requires Distinct(r) && i < |r|
    ensures var s := RemoveAt(r, i);
      && |s| == |r| - 1 && Distinct(s) && r[i] !in s
      && forall k :: 0 <= k < |s| ==> s[k] == if k < i then r[k] else r[k + 1]
  {
  }

  // __list_add: `new_` goes in after position i of the ring r.
  method ListAdd(new_: PtrList, prev: PtrList, next: PtrList, ghost r: seq<PtrList>, ghost i: nat)
    requires Circular(r) && new_ !in r && i < |r| && prev == r[i] && next == r[Nx(i, |r|)]
    modifies new_`next, new_`prev, prev`next, next`prev
    ensures Circular(InsertAt(r, i + 1, new_))
  {
    next.prev := new_;
    new_.next := next;
    new_.prev := prev;
    prev.next := new_;
    InsertView(r, i + 1, new_);
    hide InsertAt, Distinct;
    ghost var s := InsertAt(r, i + 1, new_);
    assert forall k :: 0 <= k < |s| - 1 ==> s[k].next == s[k + 1];
    assert forall k :: 0 <= k < |s| - 1 ==> s[k + 1].prev == s[k];
  }

  // __list_del: position i of the ring r is bypassed; the entry keeps its own links.
  method ListDel(prev: PtrList, next: PtrList, ghost r: seq<PtrList>, ghost i: nat)
    requires Circular(r) && 0 < i < |r| && prev == r[i - 1] && next == r[Nx(i, |r|)]
    modifies prev`next, next`prev
    ensures Circular(RemoveAt(r, i))
  {
    next.prev := prev;
    prev.next := next;
    RemoveView(r, i);
    hide RemoveAt, Distinct;
  }

  // list_move within a ring: the entry at i goes behind `head`, before it or after it, to position j
  // of the others.
  method ListMove(list: PtrList, head: PtrList, ghost r: seq<PtrList>, ghost i: nat, ghost j: nat)
    requires Circular(r) && 0 < i < |r| && 0 < j < |r| && list == r[i] && head == r[if j <= i then j - 1 else j]
    modifies SetOf(r)`next, SetOf(r)`prev
    ensures Circular(InsertAt(RemoveAt(r, i), j, list))
  {
    ghost var s := RemoveAt(r, i);
    RemoveView(r, i);
    assert s[j - 1] == head;
    RingLinks(r, i);
    hide InsertAt, RemoveAt;
    ListDel(list.prev, list.next, r, i);
    RingLinks(s, j - 1);
    ListAdd(list, head, head.next, s, j - 1);
  }

  lemma RingLinks(r: seq<PtrList>, i: nat)
    requires Circular(r) && i < |r|
    ensures r[i].next == r[Nx(i, |r|)] && r[i].next in SetOf(r) && r[i].prev in SetOf(r)
    ensures i > 0 ==> r[i].prev == r[i - 1] && r[i] !in RemoveAt(r, i) && SetOf(RemoveAt(r, i)) <= SetOf(r)
  {
    RemoveView(r, i);
    assert i > 0 ==> r[i - 1 + 1].prev == r[i - 1];
    assert forall x :: x in RemoveAt(r, i) ==> x in r && x != r[i];
  }

  ghost function SetOf(r: seq<PtrList>): set<PtrList> {
    set x | x in r
  }

  // gt is the comparison of the data of the entries u.
  ghost predicate Compares(u: set<PtrList>, cmp: (object?, object?) -> int, gt: (PtrList, PtrList) -> bool)
    reads u`data
  {
    forall x, y :: x in u && y in u ==> gt(x, y) == (cmp(x.data, y.data) > 0)
  }

  // A merge under way: the ring up to the merged entries, what is left of the two runs, and the rest of the ring.
  datatype Merging = Merging(front: seq<PtrList>, l: seq<PtrList>, h: seq<PtrList>, post: seq<PtrList>) {
    ghost function Ring(): seq<PtrList> {
      front + l + h + post
    }

    // What the front will be in the end.
    function Done(gt: (PtrList, PtrList) -> bool): seq<PtrList> {
      front + Merge(l, h, gt)
    }

    function TakeL(): Merging
      requires l != []
    {
      Merging(front + [l[0]], l[1..], h, post)
    }

    function TakeH(): Merging
      requires h != []
    {
      Merging(front + [h[0]], l, h[1..], post)
    }

    // Where the second run starts in the ring.
    function PosH(): nat {
      |front| + |l|
    }

    // The cursors of merge_lists.
    ghost predicate At(left: PtrList, right: PtrList, target: PtrList, lenl: nat, lenr: nat) {
      && |l| == lenl && |h| == lenr && front != [] && target == front[|front| - 1]
      && (lenl > 0 ==> left == l[0]) && (lenr > 0 ==> right == h[0])
    }

    ghost predicate Over(u: set<PtrList>) {
      From(l, u) && From(h, u)
    }

    // One more turn of the loop keeps what the merge will give.
    ghost predicate Follows(z: Merging, u: set<PtrList>, gt: (PtrList, PtrList) -> bool) {
      Over(u) && post == z.post && Done(gt) == z.Done(gt)
    }
  }

  // merge_lists, on the runs z.l and z.h that start at left0 and right0.
  method MergeLists(left0: PtrList, right0: PtrList, lenl0: nat, lenr0: nat, cmp: (object?, object?) -> int,
                    ghost z0: Merging, ghost u: set<PtrList>, ghost gt: (PtrList, PtrList) -> bool)
    requires Circular(z0.Ring()) && z0.Over(u) && Compares(u, cmp, gt)
    requires z0.front != [] && lenl0 > 0 && z0.At(left0, right0, z0.front[|z0.front| - 1], lenl0, lenr0)
    modifies SetOf(z0.Ring())`next, SetOf(z0.Ring())`prev
    ensures Circular(z0.Done(gt) + z0.post)
  {
    ghost var z := z0;
    var left, right, lenl, lenr := left0, right0, lenl0, lenr0;
    var target := left.prev;
    TargetAtFront(z, left);
    hide Circular, SetOf, Compares, Merging.Ring, Merging.Done;
    while lenl > 0 || lenr > 0
      invariant Circular(z.Ring()) && SetOf(z.Ring()) == SetOf(z0.Ring()) && z.post == z0.post
      invariant z.Over(u) && Compares(u, cmp, gt) && z.Done(gt) == z0.Done(gt)
      invariant z.At(left, right, target, lenl, lenr)
      decreases lenl + lenr
    {
      CompareHeads(z, cmp, u, gt);
      if lenl == 0 || (lenr > 0 && cmp(left.data, right.data) > 0) {
        target, right, lenr, z := TakeRight(left, right, target, lenl, lenr, z, u, gt);
      } else {
        target, left, lenl, z := TakeLeft(left, right, target, lenl, lenr, z, u, gt);
      }
    }
    MergeDone(z, gt);
  }

  // The body of merge_chunk's loop: the next two runs are found and merged.
  method MergeRuns(left: PtrList, head: PtrList, chunk: nat, cmp: (object?, object?) -> int,
                   ghost z: Pass, ghost u: set<PtrList>, ghost gt: (PtrList, PtrList) -> bool)
    returns (next: PtrList, ghost z': Pass)
    requires Circular(z.Ring()) && z.front != [] && z.front[0] == head && z.rest != [] && chunk > 0
    requires left == z.rest[0] && z.Over(u) && Compares(u, cmp, gt)
    modifies SetOf(z.Ring())`next, SetOf(z.Ring())`prev
    ensures Circular(z'.Ring()) && z'.Same(z) && z'.front != [] && z'.front[0] == head && |z'.rest| < |z.rest|
    ensures z'.All(chunk, gt) == z.All(chunk, gt) && z'.Over(u) && next == First(z'.rest, head)
  {
    hide *;
    RunsOfRing(z, chunk, u, gt);
    var right, lenl, p, lenr := FindRuns(left, head, chunk, z, u, cmp, gt);
    MergeLists(left, right, lenl, lenr, cmp, z.Runs(chunk), u, gt);
    next, z' := p, z.Next(chunk, gt);
  }

  // The two counting loops.
  method FindRuns(left: PtrList, head: PtrList, chunk: nat, ghost z: Pass, ghost u: set<PtrList>,
                  ghost cmp: (object?, object?) -> int, ghost gt: (PtrList, PtrList) -> bool)
    returns (right: PtrList, lenl: nat, next: PtrList, lenr: nat)
    requires Circular(z.Ring()) && z.front != [] && z.front[0] == head && left == First(z.rest, head) && chunk > 0
    requires Compares(u, cmp, gt)
    requires var y := z.AfterFirst(chunk); y.Ring() == z.Ring() && y.front != [] && y.front[0] == head
    ensures lenl == z.RunLength(chunk) && right == First(z.AfterFirst(chunk).rest, head)
    ensures lenr == z.AfterFirst(chunk).RunLength(chunk)
    ensures next == First(z.AfterFirst(chunk).AfterFirst(chunk).rest, head)
    ensures Circular(z.Ring()) && Compares(u, cmp, gt)
  {
    hide Pass.RunLength, Pass.AfterFirst, First;
    right, lenl := Skip(left, head, chunk, z);
    next, lenr := Skip(right, head, chunk, z.AfterFirst(chunk));
  }

  // The loop body's first branch: `right` is relinked behind `target`.
  method TakeRight(left: PtrList, right0: PtrList, target0: PtrList, ghost lenl: nat, lenr0: nat, ghost z0: Merging,
                   ghost u: set<PtrList>, ghost gt: (PtrList, PtrList) -> bool)
    returns (target: PtrList, right: PtrList, lenr: nat, ghost z: Merging)
    requires Circular(z0.Ring()) && z0.At(left, right0, target0, lenl, lenr0) && z0.Over(u)
    requires lenr0 > 0 && (lenl > 0 ==> gt(z0.l[0], z0.h[0]))
    modifies SetOf(z0.Ring())`next, SetOf(z0.Ring())`prev
    ensures Circular(z.Ring()) && SetOf(z.Ring()) == SetOf(z0.Ring()) && z.Follows(z0, u, gt)
    ensures lenr == lenr0 - 1 && z.At(left, right, target, lenl, lenr)
  {
    AtView(z0, left, right0, target0, lenl, lenr0);
    hide *;
    RightCursor(z0, left, right0, target0, lenl, lenr0);
    MoveRight(z0);
    TakesRight(z0, u, gt);
    ghost var q, i, j := z0.Ring(), z0.PosH(), |z0.front|;
    z := z0.TakeH();
    var next := right0.next;
    ListMove(right0, target0, q, i, j);
    target, right, lenr := right0, next, lenr0 - 1;
  }

  // The second branch: `left` is already behind `target`, and is relinked there.
  method TakeLeft(left0: PtrList, right: PtrList, target0: PtrList, lenl0: nat, ghost lenr: nat, ghost z0: Merging,
                  ghost u: set<PtrList>, ghost gt: (PtrList, PtrList) -> bool)
    returns (target: PtrList, left: PtrList, lenl: nat, ghost z: Merging)
    requires Circular(z0.Ring()) && z0.At(left0, right, target0, lenl0, lenr) && z0.Over(u)
    requires lenl0 > 0 && (lenr > 0 ==> !gt(z0.l[0], z0.h[0]))
    modifies SetOf(z0.Ring())`next, SetOf(z0.Ring())`prev
    ensures Circular(z.Ring()) && SetOf(z.Ring()) == SetOf(z0.Ring()) && z.Follows(z0, u, gt)
    ensures lenl == lenl0 - 1 && z.At(left, right, target, lenl, lenr)
  {
    LeftCursor(z0, left0, right, target0, lenl0, lenr);
    MoveLeft(z0);
    TakesLeft(z0, u, gt);
    hide *;
    var next := left0.next;
    ListMove(left0, target0, z0.Ring(), |z0.front|, |z0.front|);
    target, left, lenl, z := left0, next, lenl0 - 1, z0.TakeL();
  }

  lemma AtView(z: Merging, left: PtrList, right: PtrList, target: PtrList, lenl: nat, lenr: nat)
    requires z.At(left, right, target, lenl, lenr)
    ensures z.front != [] && |z.l| == lenl && |z.h| == lenr
  {
  }

  lemma RightCursor(z: Merging, left: PtrList, right: PtrList, target: PtrList, lenl: nat, lenr: nat)
    requires Circular(z.Ring()) && z.At(left, right, target, lenl, lenr) && lenr > 0
    ensures var k := z.PosH(); var q := z.Ring();
      && 0 < |z.front| <= k < |q| && q[k] == right == z.h[0] && q[|z.front| - 1] == target
      && z.TakeH().At(left, right.next, right, lenl, lenr - 1)
  {
    MergeView(z);
    RingLinks(z.Ring(), |z.front| + |z.l|);
  }

  lemma LeftCursor(z: Merging, left: PtrList, right: PtrList, target: PtrList, lenl: nat, lenr: nat)
    requires Circular(z.Ring()) && z.At(left, right, target, lenl, lenr) && lenl > 0
    ensures var k := |z.front|; var q := z.Ring();
      && 0 < k < |q| && q[k] == left == z.l[0] && q[k - 1] == target
      && z.TakeL().At(left.next, right, left, lenl - 1, lenr)
  {
    MergeView(z);
    RingLinks(z.Ring(), |z.front|);
  }

  lemma TargetAtFront(z: Merging, left: PtrList)
    requires Circular(z.Ring()) && z.front != [] && z.l != [] && left == z.l[0]
    ensures left.prev == z.front[|z.front| - 1]
  {
    MergeView(z);
    RingLinks(z.Ring(), |z.front|);
  }

  lemma CompareHeads(z: Merging, cmp: (object?, object?) -> int, u: set<PtrList>, gt: (PtrList, PtrList) -> bool)
    requires z.Over(u) && Compares(u, cmp, gt)
    ensures z.l != [] && z.h != [] ==> gt(z.l[0], z.h[0]) == (cmp(z.l[0].data, z.h[0].data) > 0)
  {
  }

  // One turn of the merge loop on the sequences.
  lemma TakesRight(z: Merging, u: set<PtrList>, gt: (PtrList, PtrList) -> bool)
    requires z.h != [] && (z.l == [] || gt(z.l[0], z.h[0])) && z.Over(u)
    ensures z.TakeH().Follows(z, u, gt)
  {
    if z.l == [] {
      assert z.h == [z.h[0]] + z.h[1..];
    }
    hide Merge;
    Assoc(z.front, z.h[0], Merge(z.l, z.h[1..], gt));
  }

  lemma TakesLeft(z: Merging, u: set<PtrList>, gt: (PtrList, PtrList) -> bool)
    requires z.l != [] && (z.h == [] || !gt(z.l[0], z.h[0])) && z.Over(u)
    ensures z.TakeL().Follows(z, u, gt)
  {
    if z.h == [] {
      assert z.l == [z.l[0]] + z.l[1..];
      assert Merge(z.l[1..], z.h, gt) == z.l[1..];
    }
    hide Merge;
    Assoc(z.front, z.l[0], Merge(z.l[1..], z.h, gt));
  }

  lemma Assoc(f: seq<PtrList>, x: PtrList, m: seq<PtrList>)
    ensures f + ([x] + m) == f + [x] + m
  {
  }

  lemma MergeDone(z: Merging, gt: (PtrList, PtrList) -> bool)
    requires z.l == [] && z.h == []
    ensures z.Done(gt) == z.front && z.Ring() == z.front + z.post
  {
  }

  // Where the parts of a half-merged ring start.
  lemma MergeView(z: Merging)
    requires z.front != []
    ensures var q := z.Ring();
      && |q| == |z.front| + |z.l| + |z.h| + |z.post|
      && q[|z.front| - 1] == z.front[|z.front| - 1]
      && (forall k :: 0 <= k < |z.l| ==> q[|z.front| + k] == z.l[k])
      && (forall k :: 0 <= k < |z.h| ==> q[|z.front| + |z.l| + k] == z.h[k])
  {
  }

  lemma RemoveMiddle(a: seq<PtrList>, x: PtrList, b: seq<PtrList>)
    ensures RemoveAt(a + [x] + b, |a|) == a + b
  {
    assert (a + [x] + b)[..|a|] == a && (a + [x] + b)[|a| + 1..] == b;
  }

  lemma InsertMiddle(a: seq<PtrList>, x: PtrList, b: seq<PtrList>)
    ensures InsertAt(a + b, |a|, x) == a + [x] + b
  {
    assert (a + b)[..|a|] == a && (a + b)[|a|..] == b;
  }

  lemma MoveKeepsSet(r: seq<PtrList>, i: nat, j: nat)
    requires i < |r| && j < |r|
    ensures SetOf(InsertAt(RemoveAt(r, i), j, r[i])) == SetOf(r)
  {
    var s := RemoveAt(r, i);
    forall x | x in r
      ensures x in s || x == r[i]
    {
      var k :| 0 <= k < |r| && r[k] == x;
      assert k < i ==> s[k] == x;
      assert k > i ==> s[k - 1] == x;
    }
    assert forall x :: x in s ==> x in r;
    assert forall x :: x in InsertAt(s, j, r[i]) <==> x in s || x == r[i] by {
      assert InsertAt(s, j, r[i]) == s[..j] + [r[i]] + s[j..];
      assert s == s[..j] + s[j..];
    }
  }

  lemma Regroup(f: seq<PtrList>, l: seq<PtrList>, x: PtrList, h: seq<PtrList>, p: seq<PtrList>)
    ensures f + l + ([x] + h) + p == (f + l) + [x] + (h + p)
    ensures (f + l) + (h + p) == f + (l + h + p)
    ensures f + [x] + (l + h + p) == f + [x] + l + h + p
    ensures f + ([x] + l) + h + p == f + [x] + (l + h + p)
  {
  }

  lemma MoveForward(f: seq<PtrList>, l: seq<PtrList>, x: PtrList, h: seq<PtrList>, p: seq<PtrList>)
    ensures var q := f + l + ([x] + h) + p;
      && |f| + |l| < |q| && q[|f| + |l|] == x
      && f + [x] + l + h + p == InsertAt(RemoveAt(q, |f| + |l|), |f|, x)
  {
    hide *;
    Regroup(f, l, x, h, p);
    RemoveMiddle(f + l, x, h + p);
    InsertMiddle(f, x, l + h + p);
  }

  lemma MoveRight(z: Merging)
    requires z.front != [] && z.h != []
    ensures var q, q', k := z.Ring(), z.TakeH().Ring(), z.PosH();
      k < |q| && q' == InsertAt(RemoveAt(q, k), |z.front|, z.h[0]) && SetOf(q') == SetOf(q)
  {
    assert z.h == [z.h[0]] + z.h[1..];
    hide InsertAt, RemoveAt, SetOf;
    MoveForward(z.front, z.l, z.h[0], z.h[1..], z.post);
    MoveKeepsSet(z.Ring(), |z.front| + |z.l|, |z.front|);
  }

  lemma MoveLeft(z: Merging)
    requires z.front != [] && z.l != []
    ensures var q, q' := z.Ring(), z.TakeL().Ring();
      |z.front| < |q| && q' == InsertAt(RemoveAt(q, |z.front|), |z.front|, z.l[0]) && q' == q
  {
    var f, x, l, h, p := z.front, z.l[0], z.l[1..], z.h, z.post;
    assert z.l == [x] + l;
    assert z.Ring() == f + ([x] + l) + h + p && z.TakeL().Ring() == f + [x] + l + h + p;
    hide *;
    Regroup(f, l, x, h, p);
    RemoveMiddle(f, x, l + h + p);
    InsertMiddle(f, x, l + h + p);
  }

  // Everything the body of the pass needs to know about its two runs.
  lemma RunsOfRing(z: Pass, chunk: nat, u: set<PtrList>, gt: (PtrList, PtrList) -> bool)
    requires z.front != [] && z.rest != [] && chunk > 0 && z.Over(u)
    ensures z.rest[0] == First(z.rest, z.front[0])
    ensures var y := z.AfterFirst(chunk); y.Ring() == z.Ring() && y.front != [] && y.front[0] == z.front[0]
    ensures var y, m := z.AfterFirst(chunk), z.Runs(chunk);
      && m.Ring() == z.Ring() && m.Over(u) && m.front != [] && z.RunLength(chunk) > 0
      && m.At(z.rest[0], First(y.rest, z.front[0]), m.front[|m.front| - 1], z.RunLength(chunk), y.RunLength(chunk))
    ensures var z' := z.Next(chunk, gt);
      && z.Runs(chunk).Done(gt) + z.Runs(chunk).post == z'.Ring()
      && z'.front != [] && z'.front[0] == z.front[0] && |z'.rest| < |z.rest|
      && z'.rest == z.AfterFirst(chunk).AfterFirst(chunk).rest
      && z'.Over(u) && z'.All(chunk, gt) == z.All(chunk, gt) && z'.Same(z)
  {
    RunsParts(z, chunk, u);
    NextAll(z, chunk, gt);
    NextSame(z, chunk, gt);
    SkipOn(z.front, z.rest, Min(chunk, |z.rest|));
  }

  lemma RunsParts(z: Pass, chunk: nat, u: set<PtrList>)
    requires z.front != [] && z.rest != [] && chunk > 0 && z.Over(u)
    ensures z.Runs(chunk).Ring() == z.Ring() && z.Runs(chunk).Over(u) && From(z.Runs(chunk).post, u)
  {
    var n := Min(chunk, |z.rest|);
    var v := z.rest[n..];
    var k := Min(chunk, |v|);
    FromParts(z.rest, n, u);
    FromParts(v, k, u);
    SkipOn(z.front, z.rest, n);
    SkipOn(z.front + z.rest[..n], v, k);
  }

  lemma NextAll(z: Pass, chunk: nat, gt: (PtrList, PtrList) -> bool)
    requires z.rest != [] && chunk > 0
    ensures z.Next(chunk, gt).All(chunk, gt) == z.All(chunk, gt)
  {
    var m := z.Runs(chunk);
    var a, b := Merge(m.l, m.h, gt), MergeChunk(m.post, chunk, gt);
    assert MergeChunk(z.rest, chunk, gt) == a + b;
    hide Merge, MergeChunk;
    Concat3(z.front, a, b);
  }

  lemma NextSame(z: Pass, chunk: nat, gt: (PtrList, PtrList) -> bool)
    requires z.front != [] && z.rest != [] && chunk > 0
    ensures z.Next(chunk, gt).Same(z)
  {
    var m := z.Runs(chunk);
    SameMultiset(z.front, Merge(m.l, m.h, gt), m.l, m.h, m.post);
    RestParts(z, chunk);
  }

  lemma RestParts(z: Pass, chunk: nat)
    requires chunk > 0
    ensures var m := z.Runs(chunk); z.rest == m.l + (m.h + m.post)
  {
  }

  lemma PassView(z: Pass)
    requires Circular(z.Ring()) && z.front != []
    ensures First(z.rest, z.front[0]) == z.front[0] <==> z.rest == []
  {
    NextInRest(z.front, z.rest, 0);
    assert z.rest[0..] == z.rest;
  }

  lemma PassBegins(head: PtrList, nodes: seq<PtrList>)
    ensures var z := Pass([head], nodes); 
      && z.Ring() == [head] + nodes && SetOf(z.Ring()) == {head} + SetOf(nodes)
      && z.Over(SetOf(nodes)) && (nodes != [] ==> First(z.rest, head) == nodes[0])
  {
  }

  lemma PassEnds(z: Pass, head: PtrList, nodes: seq<PtrList>, chunk: nat, gt: (PtrList, PtrList) -> bool)
    requires z.front != [] && z.front[0] == head && z.rest == [] && chunk > 0
    requires z.All(chunk, gt) == Pass([head], nodes).All(chunk, gt)
    ensures z.Ring() == [head] + z.front[1..] && z.front[1..] == MergeChunk(nodes, chunk, gt)
  {
    assert ([head] + MergeChunk(nodes, chunk, gt))[1..] == MergeChunk(nodes, chunk, gt);
  }

  lemma SkipOn(front: seq<PtrList>, rest: seq<PtrList>, n: nat)
    requires n <= |rest|
    ensures front + rest[..n] + rest[n..] == front + rest
  {
    assert rest == rest[..n] + rest[n..];
  }

  lemma Concat3(a: seq<PtrList>, b: seq<PtrList>, c: seq<PtrList>)
    ensures a + b + c == a + (b + c)
  {
  }

  lemma SameMultiset(front: seq<PtrList>, m: seq<PtrList>, l: seq<PtrList>, h: seq<PtrList>, post: seq<PtrList>)
    requires multiset(m) == multiset(l) + multiset(h) && |m| == |l| + |h|
    ensures SetOf(front + m + post) == SetOf(front + (l + (h + post)))
  {
    var a, b := front + m + post, front + (l + (h + post));
    assert multiset(a) == multiset(b);
    SameElements(a, b);
  }
}

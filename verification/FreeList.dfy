/** The address-ordered free list of umalloc.c, as the list of blocks it holds. Addresses count Header units. */
module FreeList {

  datatype Blk = Blk(at: nat, n: nat) {
    function End(): (e: nat) {
      at + n
    }
  }

  /** Address order without overlap. */
  ghost predicate Sorted(f: seq<Blk>) {
    forall i, j :: 0 <= i < j < |f| ==> f[i].End() <= f[j].at
  }

  /** Entry `i` and its successor leave a gap between them. */
  ghost predicate Apart(f: seq<Blk>, i: nat) {
    i + 1 < |f| ==> f[i].End() < f[i+1].at
  }

  /** Address order with a gap after every block: no two free blocks touch. */
  ghost predicate Ordered(f: seq<Blk>) {
    Sorted(f) && forall i: nat :: Apart(f, i)
  }

  predicate Holds(b: Blk, u: nat) {
    b.at <= u < b.End()
  }

  /** Unit `u` lies in a block of `f`. */
  ghost predicate InList(f: seq<Blk>, u: nat) {
    exists i :: 0 <= i < |f| && Holds(f[i], u)
  }

  /** The gap `g` where a block at `a` belongs. */
  ghost predicate Gap(f: seq<Blk>, g: nat, a: nat) {
    g < |f| && f[g].at < a && (g + 1 < |f| ==> a < f[g+1].at)
  }

  /** The block lies between its neighbours-to-be, possibly touching either. */
  ghost predicate Fits(f: seq<Blk>, g: nat, b: Blk) {
    && Gap(f, g, b.at)
    && f[g].End() <= b.at && (g + 1 < |f| ==> b.End() <= f[g+1].at)
  }

  function Splice(f: seq<Blk>, g: nat, b: Blk): (r: seq<Blk>)
    requires g < |f|
  {
    f[..g+1] + [b] + f[g+1..]
  }

  /** Entry `i` merged with its successor when the two touch. */
  function Join(f: seq<Blk>, i: nat): (r: seq<Blk>) {
    if i + 1 < |f| && f[i].End() == f[i+1].at then
      f[..i] + [Blk(f[i].at, f[i].n + f[i+1].n)] + f[i+2..]
    else f
  }

  /** The list after free: the block in its gap, merged upward, then downward. */
  function Insert(f: seq<Blk>, g: nat, b: Blk): (r: seq<Blk>)
    requires g < |f|
  {
    Join(Join(Splice(f, g, b), g + 1), g)
  }

  lemma {:induction false} GapExists(f: seq<Blk>, a: nat) returns (g: nat)
    requires |f| > 0 && Sorted(f) && f[0].at < a && (forall i :: 0 <= i < |f| ==> f[i].at != a)
    ensures Gap(f, g, a)
  {
    if |f| == 1 || f[|f|-1].at < a {
      g := |f| - 1;
    } else {
      g := GapExists(f[..|f|-1], a);
      assert f[..|f|-1][g] == f[g];
    }
  }

  /** Order, and every gap except the two the new block may have closed. */
  lemma SpliceSorted(f: seq<Blk>, g: nat, b: Blk)
    requires Ordered(f) && Fits(f, g, b)
    ensures Sorted(Splice(f, g, b))
    ensures forall i: nat :: i != g && i != g + 1 ==> Apart(Splice(f, g, b), i)
  {
    var r := Splice(f, g, b);
    forall i, j | 0 <= i < j < |r|
      ensures r[i].End() <= r[j].at
    {
      SpliceAt(f, g, b, i);
      SpliceAt(f, g, b, j);
    }
    forall i: nat | i != g && i != g + 1
      ensures Apart(r, i)
    {
      assert Apart(f, i);
      if i > g + 1 {
        assert Apart(f, i - 1);
      }
    }
  }

  lemma SpliceAt(f: seq<Blk>, g: nat, b: Blk, i: nat)
    requires g < |f| && i <= |f|
    ensures Splice(f, g, b)[i] == if i <= g then f[i] else if i == g + 1 then b else f[i-1]
  {
  }

  /** Joining closes the question at `i` and keeps every other gap. */
  lemma JoinSorted(f: seq<Blk>, i: nat, rest: set<nat>)
    requires Sorted(f) && forall k: nat :: k != i && k !in rest ==> Apart(f, k)
    requires forall k :: k in rest ==> k < i
    ensures Sorted(Join(f, i))
    ensures forall k: nat :: k !in rest ==> Apart(Join(f, i), k)
  {
    var r := Join(f, i);
    if r != f {
      forall k: nat | k !in rest
        ensures Apart(r, k)
      {
        assert Apart(f, if k < i then k else k + 1);
      }
    }
  }

  lemma InsertOrdered(f: seq<Blk>, g: nat, b: Blk)
    requires Ordered(f) && Fits(f, g, b)
    ensures Ordered(Insert(f, g, b))
  {
    SpliceSorted(f, g, b);
    JoinSorted(Splice(f, g, b), g + 1, {g});
    JoinSorted(Join(Splice(f, g, b), g + 1), g, {});
  }

  lemma JoinUnits(f: seq<Blk>, i: nat, u: nat)
    ensures InList(Join(f, i), u) <==> InList(f, u)
  {
    var r := Join(f, i);
    if r != f {
      if InList(f, u) {
        var k :| 0 <= k < |f| && Holds(f[k], u);
        var j := if k <= i then k else k - 1;
        assert Holds(r[j], u);
      }
      if InList(r, u) {
        var j :| 0 <= j < |r| && Holds(r[j], u);
        var k := if j < i || (j == i && u < f[i].End()) then j else j + 1;
        assert Holds(f[k], u);
      }
    }
  }

  lemma SpliceUnits(f: seq<Blk>, g: nat, b: Blk, u: nat)
    requires g < |f|
    ensures InList(Splice(f, g, b), u) <==> InList(f, u) || Holds(b, u)
  {
    var r := Splice(f, g, b);
    assert r[g+1] == b;
    if InList(f, u) {
      var k :| 0 <= k < |f| && Holds(f[k], u);
      assert r[if k <= g then k else k + 1] == f[k];
    }
    if InList(r, u) {
      var j :| 0 <= j < |r| && Holds(r[j], u);
      if j != g + 1 {
        assert r[j] == f[if j <= g then j else j - 1];
      }
    }
  }

  /** The free units after free are the free units before, plus the block's. */
  lemma InsertUnits(f: seq<Blk>, g: nat, b: Blk, u: nat)
    requires g < |f|
    ensures InList(Insert(f, g, b), u) <==> InList(f, u) || Holds(b, u)
  {
    SpliceUnits(f, g, b, u);
    JoinUnits(Splice(f, g, b), g + 1, u);
    JoinUnits(Join(Splice(f, g, b), g + 1), g, u);
  }

  /** The units malloc hands out of entry `i`: all of it, or its tail. */
  function Taken(f: seq<Blk>, i: nat, n: nat): (b: Blk)
    requires i < |f| && n <= f[i].n
  {
    Blk(f[i].End() - n, n)
  }

  /** The list malloc leaves: entry `i` gone on an exact fit, else shortened. */
  function Carve(f: seq<Blk>, i: nat, n: nat): (r: seq<Blk>)
    requires i < |f| && n <= f[i].n
  {
    if f[i].n == n then f[..i] + f[i+1..] else f[i := Blk(f[i].at, f[i].n - n)]
  }

  lemma CarveOrdered(f: seq<Blk>, i: nat, n: nat)
    requires Ordered(f) && i < |f| && n <= f[i].n
    ensures Ordered(Carve(f, i, n))
  {
    var r := Carve(f, i, n);
    forall k: nat
      ensures Apart(r, k)
    {
      assert Apart(f, k) && Apart(f, k + 1);
    }
  }

  lemma CarveKeeps(f: seq<Blk>, i: nat, n: nat, u: nat)
    requires i < |f| && n <= f[i].n && InList(Carve(f, i, n), u)
    ensures InList(f, u)
  {
  }

  lemma CarveLeaves(f: seq<Blk>, i: nat, n: nat, u: nat)
    requires i < |f| && n <= f[i].n && InList(f, u) && !Holds(Taken(f, i, n), u)
    ensures InList(Carve(f, i, n), u)
  {
    var r := Carve(f, i, n);
    var k :| 0 <= k < |f| && Holds(f[k], u);
    var j := if f[i].n == n && k > i then k - 1 else k;
    assert Holds(r[j], u);
  }

  lemma CarveMisses(f: seq<Blk>, i: nat, n: nat, u: nat)
    requires Sorted(f) && i < |f| && n <= f[i].n && Holds(Taken(f, i, n), u)
    ensures !InList(Carve(f, i, n), u)
  {
  }

  /** The free units before malloc are those after it and those it hands out, never both. */
  lemma CarveUnits(f: seq<Blk>, i: nat, n: nat, u: nat)
    requires Sorted(f) && i < |f| && n <= f[i].n
    ensures InList(f, u) <==> InList(Carve(f, i, n), u) || Holds(Taken(f, i, n), u)
    ensures !(InList(Carve(f, i, n), u) && Holds(Taken(f, i, n), u))
  {
    if Holds(Taken(f, i, n), u) {
      assert Holds(f[i], u);
      CarveMisses(f, i, n, u);
    } else if InList(f, u) {
      CarveLeaves(f, i, n, u);
    } else if InList(Carve(f, i, n), u) {
      CarveKeeps(f, i, n, u);
    }
  }

  /** Addresses strictly increase. */
  ghost predicate Ascending(f: seq<Blk>) {
    forall i, j :: 0 <= i < j < |f| ==> f[i].at < f[j].at
  }

  lemma OrderedAscends(f: seq<Blk>)
    requires Ordered(f)
    ensures Ascending(f)
  {
    forall i, j | 0 <= i < j < |f|
      ensures f[i].at < f[j].at
    {
      assert Apart(f, i);
    }
  }

  /** The stored header of a block: its link and its length. */
  datatype Header = Header(ptr: nat, size: nat)

  /** The successor of entry `i` on the ring. */
  function NextAt(f: seq<Blk>, i: nat): (a: nat)
    requires i < |f|
  {
    if i + 1 < |f| then f[i+1].at else f[0].at
  }

  ghost predicate LinkAt(mem: map<nat, Header>, f: seq<Blk>, i: nat)
    requires i < |f|
  {
    f[i].at in mem && mem[f[i].at] == Header(NextAt(f, i), f[i].n)
  }

  /** The headers in memory chain the list into one ring. */
  ghost predicate Linked(mem: map<nat, Header>, f: seq<Blk>) {
    forall i :: 0 <= i < |f| ==> LinkAt(mem, f, i)
  }

  lemma SpliceLinked(mem: map<nat, Header>, f: seq<Blk>, g: nat, b: Blk)
    requires Linked(mem, f) && Ascending(f) && Gap(f, g, b.at)
    ensures Linked(mem[b.at := Header(NextAt(f, g), b.n)][f[g].at := Header(b.at, f[g].n)], Splice(f, g, b))
    ensures Ascending(Splice(f, g, b))
  {
    var m := mem[b.at := Header(NextAt(f, g), b.n)][f[g].at := Header(b.at, f[g].n)];
    var r := Splice(f, g, b);
    forall i | 0 <= i < |r|
      ensures LinkAt(m, r, i)
    {
      if i != g + 1 {
        var k := if i <= g then i else i - 1;
        assert r[i] == f[k] && LinkAt(mem, f, k);
      }
    }
  }

  /** What joining entries `i` and `i + 1` leaves at `k`, and what follows it on the ring. */
  lemma JoinAt(f: seq<Blk>, i: nat, k: nat)
    requires i + 1 < |f| && f[i].End() == f[i+1].at && k + 1 < |f|
    ensures Join(f, i)[k] == if k < i then f[k] else if k == i then Blk(f[i].at, f[i].n + f[i+1].n) else f[k+1]
    ensures NextAt(Join(f, i), k) == NextAt(f, if k < i then k else k + 1)
  {
  }

  lemma JoinAscends(f: seq<Blk>, i: nat)
    requires Ascending(f) && i + 1 < |f| && f[i].End() == f[i+1].at
    ensures Ascending(Join(f, i))
  {
  }

  lemma JoinLinked(mem: map<nat, Header>, f: seq<Blk>, i: nat)
    requires Linked(mem, f) && Ascending(f) && i + 1 < |f| && f[i].End() == f[i+1].at
    ensures LinkAt(mem, f, i + 1)
    ensures Linked(mem[f[i].at := Header(mem[f[i+1].at].ptr, f[i].n + f[i+1].n)], Join(f, i))
    ensures Ascending(Join(f, i))
  {
    var r := Join(f, i);
    assert LinkAt(mem, f, i + 1);
    var m := mem[f[i].at := Header(mem[f[i+1].at].ptr, f[i].n + f[i+1].n)];
    forall k | 0 <= k < |r|
      ensures LinkAt(m, r, k)
    {
      JoinAt(f, i, k);
      assert LinkAt(mem, f, if k < i then k else k + 1);
    }
    JoinAscends(f, i);
  }

  lemma DropLinked(mem: map<nat, Header>, f: seq<Blk>, i: nat)
    requires Linked(mem, f) && Ascending(f) && 0 < i < |f|
    ensures LinkAt(mem, f, i)
    ensures Linked(mem[f[i-1].at := Header(mem[f[i].at].ptr, f[i-1].n)], f[..i] + f[i+1..])
  {
    var r := f[..i] + f[i+1..];
    assert LinkAt(mem, f, i);
    var m := mem[f[i-1].at := Header(mem[f[i].at].ptr, f[i-1].n)];
    forall k | 0 <= k < |r|
      ensures LinkAt(m, r, k)
    {
      var o := if k < i then k else k + 1;
      assert r[k] == f[o] && LinkAt(mem, f, o);
    }
  }

  lemma ShrinkLinked(mem: map<nat, Header>, f: seq<Blk>, i: nat, n: nat)
    requires Linked(mem, f) && Ascending(f) && i < |f|
    ensures LinkAt(mem, f, i)
    ensures Linked(mem[f[i].at := Header(mem[f[i].at].ptr, n)], f[i := Blk(f[i].at, n)])
  {
    var r := f[i := Blk(f[i].at, n)];
    assert LinkAt(mem, f, i);
    var m := mem[f[i].at := Header(mem[f[i].at].ptr, n)];
    forall k | 0 <= k < |r|
      ensures LinkAt(m, r, k)
    {
      assert r[k].at == f[k].at && LinkAt(mem, f, k);
    }
  }

  /** The block's own header after free's first test: merged with its successor or linked to it. */
  function LinkUp(mem: map<nat, Header>, p: nat, bp: nat): (m: map<nat, Header>)
    requires p in mem && bp in mem && mem[p].ptr in mem
  {
    var next := mem[p].ptr;
    mem[bp := if bp + mem[bp].size == next then Header(mem[next].ptr, mem[bp].size + mem[next].size)
              else Header(next, mem[bp].size)]
  }

  /** The predecessor's header after free's second test. */
  function LinkDown(mem: map<nat, Header>, p: nat, bp: nat): (m: map<nat, Header>)
    requires p in mem && bp in mem
  {
    mem[p := if p + mem[p].size == bp then Header(mem[bp].ptr, mem[p].size + mem[bp].size)
             else Header(bp, mem[p].size)]
  }

  /** The first test, on a list that already has the block in its gap. */
  lemma UpLinked(mem: map<nat, Header>, f: seq<Blk>, g: nat, b: Blk)
    requires Linked(mem, f) && Ascending(f) && Fits(f, g, b) && f[0].at < b.at
    requires b.at in mem && mem[b.at].size == b.n
    ensures LinkAt(mem, f, g) && NextAt(f, g) in mem
    ensures var s := Join(Splice(f, g, b), g + 1);
      && Ascending(s)
      && Linked(LinkUp(mem, f[g].at, b.at)[f[g].at := Header(b.at, f[g].n)], s)
  {
    assert LinkAt(mem, f, g) && LinkAt(mem, f, if g + 1 < |f| then g + 1 else 0);
    var f1 := Splice(f, g, b);
    SpliceLinked(mem, f, g, b);
    var m1 := mem[b.at := Header(NextAt(f, g), b.n)][f[g].at := Header(b.at, f[g].n)];
    var m := LinkUp(mem, f[g].at, b.at)[f[g].at := Header(b.at, f[g].n)];
    if g + 1 < |f| && b.End() == f[g+1].at {
      assert f1[g+1] == b && f1[g+2] == f[g+1];
      JoinLinked(m1, f1, g + 1);
      JoinedUp(mem, f, g, b, m1, m);
    } else {
      assert m == m1;
    }
  }

  lemma JoinedUp(mem: map<nat, Header>, f: seq<Blk>, g: nat, b: Blk, m1: map<nat, Header>, m: map<nat, Header>)
    requires g + 1 < |f| && b.End() == f[g+1].at && f[g].at < b.at < f[g+1].at && b.at in mem && mem[b.at].size == b.n
    requires LinkAt(mem, f, g) && LinkAt(mem, f, g + 1)
    requires m1 == mem[b.at := Header(NextAt(f, g), b.n)][f[g].at := Header(b.at, f[g].n)]
    requires m == LinkUp(mem, f[g].at, b.at)[f[g].at := Header(b.at, f[g].n)]
    ensures f[g+1].at in m1 && m == m1[b.at := Header(m1[f[g+1].at].ptr, b.n + f[g+1].n)]
  {
  }

  /** The two tests together leave the headers of the list with the block inserted. */
  lemma InsertLinked(mem: map<nat, Header>, f: seq<Blk>, g: nat, b: Blk)
    requires Linked(mem, f) && Ascending(f) && Fits(f, g, b) && f[0].at < b.at
    requires b.at in mem && mem[b.at].size == b.n
    ensures LinkAt(mem, f, g) && NextAt(f, g) in mem
    ensures Linked(LinkDown(LinkUp(mem, f[g].at, b.at), f[g].at, b.at), Insert(f, g, b))
  {
    UpLinked(mem, f, g, b);
    var up := LinkUp(mem, f[g].at, b.at);
    var m2 := up[f[g].at := Header(b.at, f[g].n)];
    var f2 := Join(Splice(f, g, b), g + 1);
    assert f2[g] == f[g] && f2[g+1].at == b.at;
    if f[g].End() == b.at {
      JoinLinked(m2, f2, g);
      assert LinkDown(up, f[g].at, b.at) == m2[f[g].at := Header(m2[b.at].ptr, f[g].n + f2[g+1].n)];
    } else {
      assert LinkDown(up, f[g].at, b.at) == m2;
    }
  }

  /** A block can only belong in one gap. */
  lemma GapUnique(f: seq<Blk>, g: nat, h: nat, a: nat)
    requires Ascending(f) && Gap(f, g, a) && Gap(f, h, a)
    ensures g == h
  {
    assert forall k :: g < k < |f| ==> f[g+1].at <= f[k].at;
  }

  lemma UntakeWhole(f: seq<Blk>, i: nat)
    requires Ordered(f) && 0 < i < |f|
    ensures Insert(f[..i] + f[i+1..], i - 1, f[i]) == f
  {
    var c := f[..i] + f[i+1..];
    assert Splice(c, i - 1, f[i]) == f;
    assert Apart(f, i) && Apart(f, i - 1);
  }

  lemma UntakeTail(f: seq<Blk>, i: nat, n: nat)
    requires Ordered(f) && 0 < i < |f| && n < f[i].n
    ensures Insert(f[i := Blk(f[i].at, f[i].n - n)], i, Taken(f, i, n)) == f
  {
    var c, b := f[i := Blk(f[i].at, f[i].n - n)], Taken(f, i, n);
    var x := Splice(c, i, b);
    assert Apart(f, i);
    assert x[i+1] == b && (i + 2 < |x| ==> x[i+2] == f[i+1]);
    assert Join(x, i + 1) == x;
    assert Join(x, i) == f;
  }

  /** Freeing the block malloc has just cut restores the free list exactly. */
  lemma FreeUndoesMalloc(f: seq<Blk>, i: nat, n: nat, g: nat)
    requires Ordered(f) && 0 < i < |f| && 0 < n <= f[i].n
    requires Fits(Carve(f, i, n), g, Taken(f, i, n))
    ensures Insert(Carve(f, i, n), g, Taken(f, i, n)) == f
  {
    OrderedAscends(f);
    CarveOrdered(f, i, n);
    OrderedAscends(Carve(f, i, n));
    var h := if n == f[i].n then i - 1 else i;
    assert Apart(f, i) && Apart(f, i - 1);
    GapUnique(Carve(f, i, n), g, h, Taken(f, i, n).at);
    if n == f[i].n {
      UntakeWhole(f, i);
    } else {
      UntakeTail(f, i, n);
    }
  }
}

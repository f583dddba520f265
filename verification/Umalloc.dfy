/** umalloc.c: malloc, morecore and free over headers in memory. Addresses and lengths count Header units. */
module Umalloc {
  import opened Common
  import opened FreeList

  /** sizeof(Header). */
  const HEADER := 8
  const MIN_UNITS := 4096

  /** The units malloc looks for, computed in 32-bit arithmetic. */
  function NUnits(nbytes: nat): (n: nat) {
    (nbytes + HEADER - 1) % UINT / HEADER + 1
  }

  function CoreUnits(n: nat): (u: nat) {
    if n < MIN_UNITS then MIN_UNITS else n
  }

  /** What sbrk receives: the unsigned 32-bit product read as a signed int. */
  function SbrkArgument(n: nat): (k: int) {
    var w := n * HEADER % UINT;
    if w < UINT / 2 then w else w - UINT
  }

  /** The block malloc hands out holds nbytes after its header exactly when the rounding does not wrap. */
  lemma RoundingIff(nbytes: nat)
    requires nbytes < UINT
    ensures (NUnits(nbytes) - 1) * HEADER >= nbytes <==> nbytes + HEADER - 1 < UINT
  {
  }

  /** morecore asks the kernel for the units it needs exactly when fewer than 2^31 bytes are needed. */
  lemma RequestIff(nbytes: nat)
    requires nbytes < UINT
    ensures SbrkArgument(CoreUnits(NUnits(nbytes))) == CoreUnits(NUnits(nbytes)) * HEADER <==>
      (nbytes <= UINT / 2 - 16 || nbytes + HEADER - 1 >= UINT)
  {
  }

  /** Unit `u` lies in a block some caller holds. */
  ghost predicate InLive(live: set<Blk>, u: nat) {
    exists b :: b in live && Holds(b, u)
  }

  /** The free list is one address-ordered ring through `base` in which no two blocks touch. */
  ghost predicate Ring(base: nat, brk: nat, mem: map<nat, Header>, f: seq<Blk>) {
    && 0 < |f| && f[0] == Blk(base, 0)
    && Ordered(f) && Linked(mem, f)
    && Sized(brk, f)
  }

  ghost predicate Sized(brk: nat, f: seq<Blk>) {
    forall i :: 0 <= i < |f| ==> (i > 0 ==> f[i].n > 0) && f[i].End() <= brk
  }

  ghost predicate Held(base: nat, brk: nat, mem: map<nat, Header>, f: seq<Blk>, live: set<Blk>, b: Blk) {
    && b.n > 0 && base < b.at && b.End() <= brk
    && b.at in mem && mem[b.at].size == b.n
    && (forall u :: Holds(b, u) ==> !InList(f, u))
    && (forall c, u :: c in live && Holds(b, u) && Holds(c, u) ==> b == c)
  }

  /** Every unit obtained is free or held by one caller, and not both. */
  ghost predicate Partition(base: nat, brk: nat, mem: map<nat, Header>, f: seq<Blk>, live: set<Blk>, got: set<nat>) {
    && (forall b :: b in live ==> Held(base, brk, mem, f, live, b))
    && (forall u :: u in got <==> InList(f, u) || InLive(live, u))
  }

  lemma JoinSized(brk: nat, f: seq<Blk>, i: nat)
    requires Sized(brk, f) && Sorted(f)
    ensures Sized(brk, Join(f, i))
  {
  }

  lemma InsertSized(brk: nat, f: seq<Blk>, g: nat, b: Blk)
    requires Sized(brk, f) && Ordered(f) && Fits(f, g, b) && b.n > 0 && b.End() <= brk
    ensures Sized(brk, Insert(f, g, b))
  {
    SpliceSorted(f, g, b);
    JoinSorted(Splice(f, g, b), g + 1, {g});
    JoinSized(brk, Splice(f, g, b), g + 1);
    JoinSized(brk, Join(Splice(f, g, b), g + 1), g);
  }

  /** A held block's header lies on no free block. */
  lemma HeldApart(base: nat, brk: nat, mem: map<nat, Header>, f: seq<Blk>, live: set<Blk>, b: Blk)
    requires Ring(base, brk, mem, f) && Held(base, brk, mem, f, live, b)
    ensures forall i :: 0 <= i < |f| ==> f[i].at != b.at
  {
    forall i | 0 <= i < |f|
      ensures f[i].at != b.at
    {
      if f[i].at == b.at {
        assert Holds(b, b.at) && Holds(f[i], b.at);
      }
    }
  }

  /** A held block fits strictly inside the gap its address falls in. */
  lemma HeldFits(base: nat, brk: nat, mem: map<nat, Header>, f: seq<Blk>, live: set<Blk>, b: Blk, g: nat)
    requires Ring(base, brk, mem, f) && Held(base, brk, mem, f, live, b) && Gap(f, g, b.at)
    ensures Fits(f, g, b)
  {
    if f[g].End() > b.at {
      assert Holds(b, b.at) && Holds(f[g], b.at);
    }
    if g + 1 < |f| && b.End() > f[g+1].at {
      assert Holds(b, f[g+1].at) && Holds(f[g+1], f[g+1].at);
    }
  }

  /** The headers free leaves behind. */
  ghost function Freed(mem: map<nat, Header>, f: seq<Blk>, g: nat, b: Blk): (m: map<nat, Header>)
    requires Linked(mem, f) && Fits(f, g, b) && b.at in mem && mem[b.at].size == b.n
    requires f[g].at in mem && mem[f[g].at].ptr in mem
  {
    LinkDown(LinkUp(mem, f[g].at, b.at), f[g].at, b.at)
  }

  lemma FreedRing(base: nat, brk: nat, mem: map<nat, Header>, f: seq<Blk>, live: set<Blk>, g: nat, b: Blk)
    requires Ring(base, brk, mem, f) && Held(base, brk, mem, f, live, b) && Fits(f, g, b)
    ensures f[g].at in mem && mem[f[g].at].ptr in mem
    ensures Ring(base, brk, Freed(mem, f, g, b), Insert(f, g, b))
    ensures g < |Insert(f, g, b)| && Insert(f, g, b)[g].at == f[g].at
  {
    OrderedAscends(f);
    InsertLinked(mem, f, g, b);
    InsertOrdered(f, g, b);
    InsertSized(brk, f, g, b);
  }

  lemma FreedPartition(base: nat, brk: nat, mem: map<nat, Header>, f: seq<Blk>, live: set<Blk>, got: set<nat>,
                       g: nat, b: Blk)
    requires Ring(base, brk, mem, f) && Partition(base, brk, mem, f, live, got) && b in live && Fits(f, g, b)
    requires f[g].at in mem && mem[f[g].at].ptr in mem
    ensures Partition(base, brk, Freed(mem, f, g, b), Insert(f, g, b), live - {b}, got)
  {
    var m, r := Freed(mem, f, g, b), Insert(f, g, b);
    forall c | c in live - {b}
      ensures Held(base, brk, m, r, live - {b}, c)
    {
      HeldApart(base, brk, mem, f, live, c);
      assert c.at != b.at by {
        assert Held(base, brk, mem, f, live, b) && Holds(b, b.at) && Holds(c, c.at);
      }
      assert m[c.at] == mem[c.at];
      forall u | Holds(c, u)
        ensures !InList(r, u)
      {
        InsertUnits(f, g, b, u);
      }
    }
    forall u: nat
      ensures u in got <==> InList(r, u) || InLive(live - {b}, u)
    {
      InsertUnits(f, g, b, u);
      if InLive(live, u) && !Holds(b, u) {
        var c :| c in live && Holds(c, u);
        assert c in live - {b};
      }
    }
  }

  function Span(at: nat, n: nat): (s: set<nat>) {
    set u: nat | at <= u < at + n && Holds(Blk(at, n), u)
  }

  predicate HasFit(f: seq<Blk>, n: nat) {
    exists i :: 0 <= i < |f| && f[i].n >= n
  }

  lemma JoinFits(f: seq<Blk>, i: nat, n: nat)
    requires HasFit(f, n)
    ensures HasFit(Join(f, i), n)
  {
    var k :| 0 <= k < |f| && f[k].n >= n;
    var r := Join(f, i);
    if r != f {
      var j := if k <= i then k else k - 1;
      assert r[j].n >= n;
    }
  }

  lemma InsertFits(f: seq<Blk>, g: nat, b: Blk, n: nat)
    requires g < |f| && b.n >= n
    ensures HasFit(Insert(f, g, b), n)
  {
    assert Splice(f, g, b)[g+1] == b;
    JoinFits(Splice(f, g, b), g + 1, n);
    JoinFits(Join(Splice(f, g, b), g + 1), g, n);
  }

  /** New memory above everything obtained so far leaves the ring alone. */
  lemma CoreRing(base: nat, brk: nat, mem: map<nat, Header>, f: seq<Blk>, b: Blk)
    requires Ring(base, brk, mem, f) && brk <= b.at && b.n > 0
    ensures base < brk ==> Ring(base, b.End(), mem[b.at := Header(0, b.n)], f)
  {
    if base < brk {
      var m := mem[b.at := Header(0, b.n)];
      forall i | 0 <= i < |f|
        ensures LinkAt(m, f, i)
      {
        assert LinkAt(mem, f, i);
      }
    }
  }

  /** New memory joins the partition as a block in use, which morecore then frees. */
  lemma CorePartition(base: nat, brk: nat, mem: map<nat, Header>, f: seq<Blk>, live: set<Blk>, got: set<nat>, b: Blk)
    requires Partition(base, brk, mem, f, live, got) && Sized(brk, f) && base < brk <= b.at && b.n > 0
    ensures Partition(base, b.End(), mem[b.at := Header(0, b.n)], f, live + {b}, got + Span(b.at, b.n))
  {
  }

  /** The headers malloc leaves behind. */
  ghost function Cut(mem: map<nat, Header>, f: seq<Blk>, i: nat, n: nat, ptr: nat): (m: map<nat, Header>)
    requires Linked(mem, f) && 0 < i < |f| && n <= f[i].n && f[i].at in mem
  {
    if f[i].n == n then mem[f[i-1].at := Header(mem[f[i].at].ptr, f[i-1].n)]
    else mem[f[i].at := Header(mem[f[i].at].ptr, f[i].n - n)][Taken(f, i, n).at := Header(ptr, n)]
  }

  lemma LinkedFrame(mem: map<nat, Header>, f: seq<Blk>, a: nat, h: Header)
    requires Linked(mem, f) && forall i :: 0 <= i < |f| ==> f[i].at != a
    ensures Linked(mem[a := h], f)
  {
    var m := mem[a := h];
    forall i | 0 <= i < |f|
      ensures LinkAt(m, f, i)
    {
      assert LinkAt(mem, f, i);
    }
  }

  lemma CutRing(base: nat, brk: nat, mem: map<nat, Header>, f: seq<Blk>, i: nat, n: nat, ptr: nat)
    requires Ring(base, brk, mem, f) && 0 < i < |f| && 0 < n <= f[i].n
    ensures f[i].at in mem && Ring(base, brk, Cut(mem, f, i, n, ptr), Carve(f, i, n))
  {
    OrderedAscends(f);
    CarveOrdered(f, i, n);
    var r := Carve(f, i, n);
    if f[i].n == n {
      DropLinked(mem, f, i);
    } else {
      ShrinkLinked(mem, f, i, f[i].n - n);
      LinkedFrame(mem[f[i].at := Header(mem[f[i].at].ptr, f[i].n - n)], r, Taken(f, i, n).at, Header(ptr, n));
    }
  }

  lemma CutPartition(base: nat, brk: nat, mem: map<nat, Header>, f: seq<Blk>, live: set<Blk>, got: set<nat>,
                     i: nat, n: nat, ptr: nat)
    requires Ring(base, brk, mem, f) && Partition(base, brk, mem, f, live, got)
    requires 0 < i < |f| && 0 < n <= f[i].n && f[i].at in mem
    ensures Partition(base, brk, Cut(mem, f, i, n, ptr), Carve(f, i, n), live + {Taken(f, i, n)}, got)
  {
    var m, r, b := Cut(mem, f, i, n, ptr), Carve(f, i, n), Taken(f, i, n);
    var l := live + {b};
    assert forall u :: Holds(b, u) ==> Holds(f[i], u);
    forall c | c in l
      ensures Held(base, brk, m, r, l, c)
    {
      forall u | Holds(c, u)
        ensures !InList(r, u)
      {
        CarveUnits(f, i, n, u);
      }
      if c in live {
        HeldApart(base, brk, mem, f, live, c);
        assert c.at != b.at by {
          assert Holds(c, c.at) && Holds(b, b.at);
        }
        assert m[c.at] == mem[c.at];
      } else {
        assert Apart(f, 0) && LinkAt(mem, f, i);
      }
    }
    forall u: nat
      ensures u in got <==> InList(r, u) || InLive(l, u)
    {
      CarveUnits(f, i, n, u);
      if InLive(live, u) {
        var c :| c in live && Holds(c, u);
        assert c in l;
      }
      assert b in l;
    }
  }

  /** The entry after `i` on a ring of `k`. */
  function Next(i: nat, k: nat): (j: nat)
    requires i < k
    ensures j < k
  {
    if i + 1 < k then i + 1 else 0
  }

  /** The entry `q` places after the one following `s` on a ring of `k`. */
  function Around(s: nat, q: nat, k: nat): (i: nat)
    requires s < k && q < k
    ensures i < k
  {
    if s + 1 + q < k then s + 1 + q else s + 1 + q - k
  }

  /** The first `t` entries after `s` are all too small. */
  ghost predicate SearchedBelow(f: seq<Blk>, s: nat, t: nat, n: nat)
    requires s < |f| && t <= |f|
  {
    forall q :: 0 <= q < t ==> f[Around(s, q, |f|)].n < n
  }

  /** malloc's loop, `t` entries past its start `s`, about to look at `p`, the successor of entry `i`. */
  ghost predicate Scanning(f: seq<Blk>, freep: nat, s: nat, t: nat, i: nat, prevp: nat, p: nat, n: nat) {
    && s < |f| && freep == f[s].at && t < |f|
    && i < |f| && prevp == f[i].at && p == f[Next(i, |f|)].at && Next(i, |f|) == Around(s, t, |f|)
    && SearchedBelow(f, s, t, n)
  }

  lemma ScanStep(f: seq<Blk>, freep: nat, s: nat, t: nat, i: nat, prevp: nat, p: nat, n: nat)
    requires Scanning(f, freep, s, t, i, prevp, p, n) && f[Next(i, |f|)].n < n && p != freep
    ensures t + 1 < |f|
    ensures Scanning(f, freep, s, t + 1, Next(i, |f|), p, f[Next(Next(i, |f|), |f|)].at, n)
  {
  }

  /** A search that has come back to its start has seen every entry. */
  lemma NoFit(f: seq<Blk>, freep: nat, s: nat, t: nat, i: nat, prevp: nat, p: nat, n: nat)
    requires Scanning(f, freep, s, t, i, prevp, p, n) && Ordered(f) && f[Next(i, |f|)].n < n && p == freep
    ensures !HasFit(f, n)
  {
    OrderedAscends(f);
    forall k | 0 <= k < |f|
      ensures f[k].n < n
    {
      var q := if k > s then k - s - 1 else |f| - s - 1 + k;
      assert Around(s, q, |f|) == k;
    }
  }

  /** malloc fails exactly when no free block is long enough and the kernel refuses; else one new block is held. */
  ghost predicate Answer(f: seq<Blk>, n: nat, granted: bool, live: set<Blk>, live': set<Blk>, r: nat, b: Blk) {
    if HasFit(f, n) || granted then
      b !in live && live' == live + {b} && b.n == n && r == b.at + 1
    else r == 0 && live' == live
  }

  /** The units malloc obtains from the kernel: none when a free block is long enough, else one request's worth. */
  ghost function Obtained(f: seq<Blk>, n: nat, granted: bool, at: nat): (u: set<nat>) {
    if HasFit(f, n) || !granted then {} else Span(at, CoreUnits(n))
  }

  /** What malloc takes from the free list is held by nobody yet. */
  lemma Fresh(base: nat, brk: nat, mem: map<nat, Header>, f: seq<Blk>, live: set<Blk>, got: set<nat>, i: nat, n: nat)
    requires Ring(base, brk, mem, f) && Partition(base, brk, mem, f, live, got)
    requires i < |f| && 0 < n <= f[i].n
    ensures i > 0 && Taken(f, i, n) !in live
  {
    var b := Taken(f, i, n);
    assert Holds(b, b.at) && Holds(f[i], b.at);
  }

  class Heap {
    const base: nat
    var mem: map<nat, Header>
    var freep: nat
    /** The end of the memory obtained so far. */
    var brk: nat
    ghost var list: seq<Blk>
    ghost var live: set<Blk>
    ghost var got: set<nat>

    constructor (base: nat, brk: nat)
      requires 0 < base < brk
      ensures Valid() && live == {} && got == {} && this.brk == brk && this.base == base
    {
      this.base, this.brk, freep, mem := base, brk, 0, map[];
      list, live, got := [], {}, {};
    }

    ghost predicate Valid()
      reads this
    {
      && 0 < base < brk
      && (freep == 0 ==> list == [] && live == {} && got == {})
      && (freep != 0 ==> Ring(base, brk, mem, list) && exists k :: 0 <= k < |list| && freep == list[k].at)
      && Partition(base, brk, mem, list, live, got)
    }

    /** free's search: from anywhere on the ring to the gap below `bp`. */
    method FindGap(bp: nat) returns (p: nat, ghost g: nat)
      requires Valid() && freep != 0 && base < bp && forall i :: 0 <= i < |list| ==> list[i].at != bp
      ensures Gap(list, g, bp) && p == list[g].at
    {
      g := GapExists(list, bp);
      OrderedAscends(list);
      p := freep;
      ghost var i: nat :| i < |list| && p == list[i].at;
      assert LinkAt(mem, list, i);
      while !(bp > p && bp < mem[p].ptr)
        invariant i < |list| && p == list[i].at && LinkAt(mem, list, i)
        decreases if i <= g then g - i else g - i + |list|
      {
        if p >= mem[p].ptr && (bp > p || bp < mem[p].ptr) {
          break;
        }
        p := mem[p].ptr;
        i := if i + 1 < |list| then i + 1 else 0;
        assert LinkAt(mem, list, i);
      }
      assert i == g;
    }

    method Free(ap: nat, ghost b: Blk) returns (ghost g: nat)
      requires Valid() && b in live && ap == b.at + 1
      modifies this`mem, this`freep, this`list, this`live
      ensures Valid() && freep != 0
      ensures live == old(live) - {b}
      ensures Fits(old(list), g, b) && list == Insert(old(list), g, b) && g < |list| && freep == list[g].at
    {
      var bp := ap - 1;
      HeldApart(base, brk, mem, list, live, b);
      ghost var f, m := list, mem;
      var p;
      p, g := FindGap(bp);
      HeldFits(base, brk, m, f, live, b, g);
      FreedRing(base, brk, m, f, live, g, b);
      FreedPartition(base, brk, m, f, live, got, g, b);
      if bp + mem[bp].size == mem[p].ptr {
        var next := mem[p].ptr;
        mem := mem[bp := Header(mem[next].ptr, mem[bp].size + mem[next].size)];
      } else {
        mem := mem[bp := Header(mem[p].ptr, mem[bp].size)];
      }
      assert mem == LinkUp(m, p, bp);
      if p + mem[p].size == bp {
        mem := mem[p := Header(mem[bp].ptr, mem[p].size + mem[bp].size)];
      } else {
        mem := mem[p := Header(bp, mem[p].size)];
      }
      assert mem == Freed(m, f, g, b);
      freep := p;
      list, live := Insert(f, g, b), live - {b};
    }

    /** morecore, with the kernel's answer as a parameter: the new memory starts at `at`, or the request is refused. */
    method Morecore(nu: nat, granted: bool, at: nat) returns (r: nat)
      requires Valid() && freep != 0 && (granted ==> brk <= at)
      modifies this
      ensures Valid() && freep != 0 && live == old(live)
      ensures r == if granted then freep else 0
      ensures !granted ==> list == old(list) && got == old(got) && freep == old(freep) && brk == old(brk)
      ensures granted ==> got == old(got) + Span(at, CoreUnits(nu)) && HasFit(list, nu)
    {
      var n := CoreUnits(nu);
      if !granted {
        return 0;
      }
      ghost var b := Blk(at, n);
      CoreRing(base, brk, mem, list, b);
      CorePartition(base, brk, mem, list, live, got, b);
      mem := mem[at := Header(0, n)];
      brk := at + n;
      live, got := live + {b}, got + Span(at, n);
      ghost var f := list;
      ghost var g := Free(at + 1, b);
      InsertFits(f, g, b, nu);
      r := freep;
    }

    /** The search has looked at `t` entries and is about to look at `p`, with `prevp` before it. */
    ghost predicate Scan(s: nat, t: nat, i: nat, prevp: nat, p: nat, n: nat)
      reads this
    {
      Valid() && freep != 0 && Scanning(list, freep, s, t, i, prevp, p, n)
    }

    /** One entry of the search: its header says what the list says. */
    method Look(p: nat, ghost i: nat) returns (h: Header)
      requires Valid() && freep != 0 && i < |list| && p == list[i].at
      ensures h == Header(list[Next(i, |list|)].at, list[i].n)
    {
      assert LinkAt(mem, list, i);
      h := mem[p];
    }

    /** Where the search begins; the first call builds the ring that holds only `base`. */
    method Begin(ghost n: nat) returns (prevp: nat, p: nat, ghost s: nat)
      requires Valid() && 0 < n
      modifies this`mem, this`freep, this`list
      ensures Scan(s, 0, s, prevp, p, n)
      ensures HasFit(list, n) == HasFit(old(list), n)
    {
      if freep == 0 {
        freep := base;
        mem := mem[base := Header(base, 0)];
        list := [Blk(base, 0)];
        assert LinkAt(mem, list, 0);
      }
      s :| s < |list| && freep == list[s].at;
      prevp := freep;
      var h := Look(prevp, s);
      p := h.ptr;
    }

    /** Past an entry that is too short and is not where the search began. */
    method Advance(h: Header, prevp: nat, p: nat, ghost n: nat, ghost s: nat, ghost t: nat, ghost i: nat)
      returns (prevp': nat, p': nat, ghost i': nat, ghost t': nat)
      requires Scan(s, t, i, prevp, p, n) && p != freep
      requires h == Header(list[Next(Next(i, |list|), |list|)].at, list[Next(i, |list|)].n) && h.size < n
      ensures Scan(s, t', i', prevp', p', n) && t' == t + 1
    {
      ScanStep(list, freep, s, t, i, prevp, p, n);
      prevp', p', i', t' := p, h.ptr, Next(i, |list|), t + 1;
    }

    lemma Exhausted(s: nat, t: nat, i: nat, prevp: nat, p: nat, n: nat)
      requires Scan(s, t, i, prevp, p, n) && p == freep && list[Next(i, |list|)].n < n
      ensures !HasFit(list, n)
    {
      NoFit(list, freep, s, t, i, prevp, p, n);
    }

    /** Back where the search began: ask for more, and begin again where the new memory went. */
    method Grow(n: nat, granted: bool, at: nat) returns (prevp: nat, p: nat, ghost s: nat)
      requires 0 < n && Valid() && freep != 0 && (granted ==> brk <= at)
      modifies this
      ensures live == old(live)
      ensures !granted ==> prevp == 0 && Valid() && freep != 0 && got == old(got)
      ensures granted ==> prevp != 0 && Scan(s, 0, s, prevp, p, n) && HasFit(list, n)
      ensures granted ==> got == old(got) + Span(at, CoreUnits(n))
    {
      prevp := Morecore(n, granted, at);
      s, p := 0, 0;
      if prevp != 0 {
        s :| s < |list| && freep == list[s].at;
        var h := Look(prevp, s);
        p := h.ptr;
      }
    }

    /** The success branch: unlink the entry, or cut its tail off. */
    method Found(prevp: nat, p: nat, nunits: nat, ghost s: nat, ghost t: nat, ghost i: nat)
      returns (r: nat, ghost b: Blk)
      requires 0 < nunits && Scan(s, t, i, prevp, p, nunits) && list[Next(i, |list|)].n >= nunits
      modifies this`mem, this`freep, this`list, this`live
      ensures Valid() && freep != 0
      ensures b !in old(live) && b.n == nunits && live == old(live) + {b} && r == b.at + 1
    {
      ghost var f, m, j := list, mem, Next(i, |list|);
      Fresh(base, brk, m, f, live, got, j, nunits);
      assert LinkAt(m, f, j) && LinkAt(m, f, i);
      b := Taken(f, j, nunits);
      var q := p;
      ghost var ptr := 0;
      if mem[p].size == nunits {
        mem := mem[prevp := Header(mem[p].ptr, mem[prevp].size)];
      } else {
        mem := mem[p := Header(mem[p].ptr, mem[p].size - nunits)];
        q := p + mem[p].size;
        mem := mem[q := Header(if q in mem then mem[q].ptr else 0, nunits)];
        ptr := mem[q].ptr;
      }
      assert mem == Cut(m, f, j, nunits, ptr);
      CutRing(base, brk, m, f, j, nunits, ptr);
      CutPartition(base, brk, m, f, live, got, j, nunits, ptr);
      freep := prevp;
      list, live := Carve(f, j, nunits), live + {b};
      assert list[i].at == prevp;
      r := q + 1;
    }

    /** malloc, with the kernel's answer to the one request it may make as parameters.
        The kernel can only grant what sbrk was asked for, so by RequestIff not every request can be granted. */
    method Malloc(nbytes: nat, granted: bool, at: nat) returns (r: nat, ghost b: Blk)
      requires Valid() && nbytes < UINT
      requires granted ==> brk <= at && SbrkArgument(CoreUnits(NUnits(nbytes))) == CoreUnits(NUnits(nbytes)) * HEADER
      modifies this
      ensures Valid() && freep != 0
      ensures Answer(old(list), NUnits(nbytes), granted, old(live), live, r, b)
      ensures got == old(got) + Obtained(old(list), NUnits(nbytes), granted, at)
    {
      var nunits := NUnits(nbytes);
      b := Blk(0, 0);
      ghost var fit := HasFit(list, nunits);
      ghost var asked, s, i, t: nat := false, 0, 0, 0;
      var prevp, p;
      prevp, p, s := Begin(nunits);
      i := s;
      while true
        invariant Scan(s, t, i, prevp, p, nunits)
        invariant live == old(live)
        invariant HasFit(list, nunits) == (fit || asked)
        invariant asked ==> granted && !fit
        invariant !asked ==> brk == old(brk)
        invariant got == old(got) + if asked then Span(at, CoreUnits(nunits)) else {}
        decreases !asked, |list| - t
      {
        var h := Look(p, Next(i, |list|));
        if h.size >= nunits {
          r, b := Found(prevp, p, nunits, s, t, i);
          return;
        }
        if p == freep {
          Exhausted(s, t, i, prevp, p, nunits);
          prevp, p, s := Grow(nunits, granted, at);
          if prevp == 0 {
            return 0, b;
          }
          asked, i, t := true, s, 0;
        } else {
          prevp, p, i, t := Advance(h, prevp, p, nunits, s, t, i);
        }
      }
    }
  }
}

/** vm.c and kalloc.c: page tables built and torn down a page at a time, with their failure paths. */
module Vm {
  import opened Common
  import opened Pages

  const PGSIZE := 4096
  const KERNBASE := USER * PGSIZE
  const PTE_W := 2
  const PTE_U := 4

  /** A stretch of kernel mappings: `n` virtual pages from `virt`, to physical pages from `phys`. */
  datatype Kmap = Kmap(virt: nat, n: nat, phys: nat, perm: nat)

  /** PGROUNDUP, in pages. */
  function Up(size: nat): (v: nat) {
    (size + PGSIZE - 1) / PGSIZE
  }

  function Filled(b: nat): (s: seq<nat>) {
    seq(PGSIZE, _ => b)
  }

  /** Page `p`, owned as `o`, is part of directory `d`. */
  predicate PartOf(p: nat, o: Owner, d: nat) {
    p == d || (o.Table? && o.d == d) || (o.User? && o.d == d)
  }

  /** Only free pages have changed hands, and only to directory `d`. */
  ghost predicate Lent(a: Owners, b: Owners, d: nat) {
    && b.Keys == a.Keys
    && forall p :: p in a ==> b[p] == a[p] || (a[p] == Free && PartOf(p, b[p], d))
  }

  /** Only free pages have changed hands, and only to become page tables of `d`. */
  ghost predicate Tabled(a: Owners, b: Owners, d: nat) {
    && b.Keys == a.Keys
    && forall p :: p in a ==> b[p] == a[p] || (a[p] == Free && b[p].Table? && b[p].d == d)
  }

  /** Page `p`, which was in hand, has become page `v` of `d`; otherwise as Tabled. */
  ghost predicate Granted(a: Owners, b: Owners, d: nat, p: nat, v: nat) {
    && b.Keys == a.Keys
    && forall q :: q in a ==>
      if q == p then b[q] == User(d, v) else b[q] == a[q] || (a[q] == Free && b[q].Table? && b[q].d == d)
  }

  /** Directories other than `d` are as before. */
  ghost predicate Others(a: map<nat, Dir>, b: map<nat, Dir>, d: nat) {
    b.Keys == a.Keys && forall e :: e in a && e != d ==> b[e] == a[e]
  }

  /** Every page in use stays with its owner. */
  ghost predicate Stable(a: Owners, b: Owners) {
    forall p :: p in a && a[p] != Free ==> p in b && b[p] == a[p]
  }

  /** Every page in use keeps its contents. */
  ghost predicate Kept(a: Owners, data: map<nat, seq<nat>>, data': map<nat, seq<nat>>) {
    forall p :: p in a && a[p] != Free && p in data ==> p in data' && data'[p] == data[p]
  }

  /** User memory `lo..hi` of `d` is free again; nothing else changed hands. */
  ghost predicate Released(a: Owners, b: Owners, d: nat, lo: nat, hi: nat) {
    && b.Keys == a.Keys
    && forall p :: p in a ==> b[p] == if a[p].User? && a[p].d == d && lo <= a[p].v < hi then Free else a[p]
  }

  /** Every page of `d` is free again; nothing else changed hands. */
  ghost predicate Reclaimed(a: Owners, b: Owners, d: nat) {
    && b.Keys == a.Keys
    && forall p :: p in a ==> b[p] == if PartOf(p, a[p], d) then Free else a[p]
  }

  /** User pages `lo..hi` are unmapped; nothing else in the directory changed. */
  ghost predicate Unmapped(a: Dir, b: Dir, lo: nat, hi: nat) {
    && b.pde == a.pde
    && (forall v :: v in b.pte <==> v in a.pte && !(lo <= v < hi))
    && (forall v :: v in b.pte ==> v in a.pte && b.pte[v] == a.pte[v])
  }

  lemma UnmapOne(a: Dir, dir: Dir, lo: nat, v: nat, w: nat)
    requires Unmapped(a, dir, lo, v) && lo <= v && w == v + 1
    ensures Unmapped(a, dir.(pte := dir.pte - {v}), lo, w)
  {
  }

  ghost predicate NoEntries(dir: Dir, v: nat, w: nat) {
    forall x :: v <= x < w ==> x !in dir.pte
  }

  lemma Absent(dir: Dir, v: nat, w: nat)
    requires v !in dir.pte && w == v + 1
    ensures NoEntries(dir, v, w)
  {
  }

  /** `q` is the one page that user page `v` of `d` is mapped to. */
  ghost predicate Only(owner: Owners, d: nat, v: nat, q: nat) {
    q in owner && forall p :: p in owner ==> (owner[p] == User(d, v) <==> p == q)
  }

  lemma OnlyOne(dirs: map<nat, Dir>, owner: Owners, d: nat, v: nat)
    requires Sound(dirs, owner) && d in dirs && v < USER && v in dirs[d].pte
    ensures Only(owner, d, v, dirs[d].pte[v].page)
  {
    var q := dirs[d].pte[v].page;
    assert q in owner && owner[q] == User(d, v) by {
      assert Holds(d, dirs[d], owner);
    }
    forall p | p in owner && owner[p] == User(d, v)
      ensures p == q
    {
      assert InUse(p, owner[p], dirs);
    }
  }

  lemma ReleaseOne(owner0: Owners, owner: Owners, d: nat, lo: nat, v: nat, w: nat, q: nat)
    requires lo <= v && w == v + 1 && Only(owner0, d, v, q) && Released(owner0, owner, d, lo, v)
    ensures Released(owner0, owner[q := Free], d, lo, w)
  {
  }

  lemma KeptFreed(a: Owners, data: map<nat, seq<nat>>, data': map<nat, seq<nat>>, q: nat)
    requires Kept(a, data, data')
    ensures Kept(a[q := Free], data, data'[q := Filled(1)])
  {
  }

  lemma GrantedNow(a: Owners, b: Owners, d: nat, p: nat, v: nat)
    requires Tabled(a, b, d) && p in a && a[p] == InHand
    ensures Granted(a, b[p := User(d, v)], d, p, v)
  {
  }

  /** User pages `lo..v` have been added, all with the same flags. */
  ghost predicate Extended(a: Dir, b: Dir, lo: nat, v: nat) {
    && (forall x :: x in b.pte <==> x in a.pte || lo <= x < v)
    && (forall x :: x in a.pte ==> x in b.pte && b.pte[x] == a.pte[x])
    && (forall x :: lo <= x < v ==> x in b.pte && b.pte[x].flags == PTE_W + PTE_U)
  }

  /** Only free pages have changed hands, to be page tables of `d` or its user pages `lo..v`. */
  ghost predicate Leased(a: Owners, b: Owners, d: nat, lo: nat, v: nat) {
    && b.Keys == a.Keys
    && forall p :: p in a ==>
      || b[p] == a[p]
      || (a[p] == Free && b[p].Table? && b[p].d == d)
      || (a[p] == Free && b[p].User? && b[p].d == d && lo <= b[p].v < v)
  }

  /** Page `v` of user memory, from a page that was free. */
  lemma LeaseOne(a: Owners, b: Owners, c: Owners, d: nat, lo: nat, v: nat, w: nat, p: nat)
    requires Leased(a, b, d, lo, v) && lo <= v && w == v + 1 && p in b && b[p] == Free
    requires Granted(b[p := InHand], c, d, p, v)
    ensures Leased(a, c, d, lo, w)
  {
  }

  lemma ExtendOne(a: Dir, b: Dir, c: Dir, lo: nat, v: nat, w: nat, p: nat)
    requires Extended(a, b, lo, v) && lo <= v && w == v + 1 && v !in a.pte && c.pte == b.pte[v := Pte(p, PTE_W + PTE_U)]
    ensures Extended(a, c, lo, w)
  {
  }

  /** Releasing what was leased leaves only page tables behind. */
  lemma Undone(dirs: map<nat, Dir>, a: Owners, b: Owners, c: Owners, d: nat, lo: nat, v: nat, hi: nat)
    requires Sound(dirs, a) && d in dirs && NoEntries(dirs[d], lo, hi) && v <= hi
    requires Leased(a, b, d, lo, v) && Released(b, c, d, lo, hi)
    ensures Tabled(a, c, d)
  {
    forall p | p in a
      ensures c[p] == a[p] || (a[p] == Free && c[p].Table? && c[p].d == d)
    {
      assert InUse(p, a[p], dirs);
    }
  }

  lemma UnmappedExtended(a: Dir, b: Dir, c: Dir, lo: nat, v: nat, hi: nat)
    requires NoEntries(a, lo, hi) && v <= hi && Extended(a, b, lo, v) && Unmapped(b, c, lo, hi)
    ensures c.pte == a.pte
  {
  }

  /** A page taken and given back around a release makes no difference. */
  lemma ReleasedAround(a: Owners, c: Owners, d: nat, lo: nat, hi: nat, p: nat)
    requires p in a && a[p] == Free && Released(a[p := InHand], c, d, lo, hi)
    ensures Released(a, c[p := Free], d, lo, hi)
  {
  }

  lemma KeptThrough(a: Owners, b: Owners, data0: map<nat, seq<nat>>, data1: map<nat, seq<nat>>,
                    data2: map<nat, seq<nat>>, d: nat)
    requires Tabled(a, b, d) && Kept(a, data0, data1) && Kept(b, data1, data2) && a.Keys <= data0.Keys
    ensures Kept(a, data0, data2)
  {
  }

  /** User pages `lo..v` hold zeroes. */
  ghost predicate Zeroed(dir: Dir, data: map<nat, seq<nat>>, lo: nat, v: nat) {
    forall x :: lo <= x < v && x in dir.pte ==> dir.pte[x].page in data && data[dir.pte[x].page] == Filled(0)
  }

  /** One more zeroed page, everything in use being kept. */
  lemma ZeroOne(dirs: map<nat, Dir>, owner: Owners, d: nat, c: Dir, data: map<nat, seq<nat>>, data': map<nat, seq<nat>>,
                lo: nat, v: nat, w: nat, p: nat)
    requires Sound(dirs, owner) && d in dirs && v < USER && w == v + 1 && Zeroed(dirs[d], data, lo, v)
    requires p in owner && owner[p] == Free && Kept(owner[p := InHand], data[p := Filled(0)], data')
    requires exists flags :: c.pte == dirs[d].pte[v := Pte(p, flags)]
    ensures Zeroed(c, data', lo, w)
  {
    assert Holds(d, dirs[d], owner);
  }

  /** Contents survive taking a free page, filling it, and mapping it. */
  lemma KeptTaken(a: Owners, b: Owners, data0: map<nat, seq<nat>>, data1: map<nat, seq<nat>>, data2: map<nat, seq<nat>>,
                  p: nat, x: seq<nat>)
    requires Kept(a, data0, data1) && p in b && b[p] == Free && Kept(b[p := InHand], data1[p := x], data2)
    requires Stable(a, b)
    ensures Kept(a, data0, data2)
  {
  }

  /** One turn of allocuvm's loop, from state (a, b) to state (a', b') by way of page `p`. */
  lemma GrowOne(dirs0: map<nat, Dir>, owner0: Owners, a: map<nat, Dir>, b: Owners, data: map<nat, seq<nat>>,
                a': map<nat, Dir>, b': Owners, data': map<nat, seq<nat>>, d: nat, lo: nat, v: nat, w: nat, p: nat)
    requires d in dirs0 && d in a && Others(dirs0, a, d) && Others(a, a', d) && Sound(a, b)
    requires lo <= v < USER && w == v + 1 && v !in dirs0[d].pte
    requires Extended(dirs0[d], a[d], lo, v) && Leased(owner0, b, d, lo, v) && Zeroed(a[d], data, lo, v)
    requires p in b && b[p] == Free && Granted(b[p := InHand], b', d, p, v)
    requires a'[d].pte == a[d].pte[v := Pte(p, PTE_W + PTE_U)] && Kept(b[p := InHand], data[p := Filled(0)], data')
    ensures Others(dirs0, a', d) && Extended(dirs0[d], a'[d], lo, w) && Leased(owner0, b', d, lo, w)
    ensures Zeroed(a'[d], data', lo, w)
  {
    LeaseOne(owner0, b, b', d, lo, v, w, p);
    ExtendOne(dirs0[d], a[d], a'[d], lo, v, w, p);
    ZeroOne(a, b, d, a'[d], data, data', lo, v, w, p);
  }

  /** The tables of `d` below index `i` are free, the others and the directory itself in hand. */
  ghost predicate Freeing(a: Owners, b: Owners, d: nat, i: nat) {
    && b.Keys == a.Keys
    && forall p :: p in a ==> b[p] == LetGo(a[p], p, d, i)
  }

  function LetGo(o: Owner, p: nat, d: nat, i: nat): (r: Owner) {
    if p == d then InHand
    else if o.Table? && o.d == d then if o.i < i then Free else InHand
    else o
  }

  /** `q` is the one page that is table `i` of `d`; with no such table there is none. */
  ghost predicate OnlyTable(owner: Owners, d: nat, i: nat, q: Option<nat>) {
    && (q.Some? ==> q.value in owner && q.value != d)
    && forall p :: p in owner ==> (owner[p] == Table(d, i) <==> q == Some(p))
  }

  lemma OneTable(dirs: map<nat, Dir>, owner: Owners, d: nat, i: nat)
    requires Sound(dirs, owner) && d in dirs
    ensures OnlyTable(owner, d, i, if i in dirs[d].pde then Some(dirs[d].pde[i]) else None)
  {
    assert Holds(d, dirs[d], owner);
    forall p | p in owner && owner[p] == Table(d, i)
      ensures i in dirs[d].pde && dirs[d].pde[i] == p
    {
      assert InUse(p, owner[p], dirs);
    }
  }

  lemma FreeingNext(a: Owners, b: Owners, d: nat, i: nat, j: nat, q: Option<nat>)
    requires Freeing(a, b, d, i) && j == i + 1 && OnlyTable(a, d, i, q)
    ensures q.None? ==> Freeing(a, b, d, j)
    ensures q.Some? ==> q.value in b && b[q.value] == InHand && Freeing(a, b[q.value := Free], d, j)
  {
    assert forall p :: p in a ==> (a[p] == Table(d, i) <==> q == Some(p));
  }

  /** The tables of `d` and `d` itself are free again; nothing else changed hands. */
  ghost predicate Rested(a: Owners, b: Owners, d: nat) {
    && b.Keys == a.Keys
    && forall p :: p in a ==> b[p] == if p == d || (a[p].Table? && a[p].d == d) then Free else a[p]
  }

  lemma FreedLast(a: Owners, b: Owners, d: nat)
    requires Freeing(a, b, d, NPT) && d in a
    requires forall p :: p in a && a[p].Table? && a[p].d == d ==> a[p].i < NPT
    ensures d in b && b[d] == InHand && Rested(a, b[d := Free], d)
  {
  }

  /** Releasing user memory, then tables and directory, reclaims everything. */
  lemma AllReclaimed(dirs: map<nat, Dir>, a: Owners, b: Owners, c: Owners, d: nat)
    requires Sound(dirs, a) && Released(a, b, d, 0, USER) && Rested(b, c, d)
    ensures Reclaimed(a, c, d)
  {
    assert forall p :: p in a ==> InUse(p, a[p], dirs);
  }

  ghost predicate Removed(a: map<nat, Dir>, b: map<nat, Dir>, d: nat) {
    b.Keys == a.Keys - {d} && forall e :: e in b ==> b[e] == a[e]
  }

  lemma TableIndices(dirs: map<nat, Dir>, owner: Owners, d: nat)
    requires Sound(dirs, owner) && Bounded(dirs) && d in dirs
    ensures forall p :: p in owner && owner[p].Table? && owner[p].d == d ==> owner[p].i < NPT
  {
    assert forall p :: p in owner ==> InUse(p, owner[p], dirs);
  }

  /** Contents kept by pages still in use at the end were kept all along. */
  lemma KeptDown(a: Owners, b: Owners, data0: map<nat, seq<nat>>, data1: map<nat, seq<nat>>, data2: map<nat, seq<nat>>)
    requires Kept(a, data0, data1) && Kept(b, data1, data2) && a.Keys <= data0.Keys
    requires forall p :: p in b && b[p] != Free ==> p in a && a[p] != Free
    ensures Kept(b, data0, data2)
  {
  }

  ghost predicate Added(a: map<nat, Dir>, b: map<nat, Dir>, d: nat) {
    d !in a && b.Keys == a.Keys + {d} && forall e :: e in a ==> b[e] == a[e]
  }

  /** The kernel's mappings, range by range, none empty, all above KERNBASE and in order. */
  predicate KmapOk(kmap: seq<Kmap>) {
    && (forall i :: 0 <= i < |kmap| ==> USER <= kmap[i].virt && 0 < kmap[i].n && kmap[i].virt + kmap[i].n <= VPAGES)
    && (forall i, j :: 0 <= i < j < |kmap| ==> kmap[i].virt + kmap[i].n <= kmap[j].virt)
  }

  /** vm.c's kmap, for a kernel whose writable data begins at virtual page `data`. */
  function KernelMap(data: nat): (k: seq<Kmap>)
    requires 0x8_0100 < data < 0x8_E000
    ensures KmapOk(k)
  {
    [Kmap(0x8_0000, 0x100, 0, PTE_W),
     Kmap(0x8_0100, data - 0x8_0100, 0x100, 0),
     Kmap(data, 0x8_E000 - data, data - 0x8_0000, PTE_W),
     Kmap(0xF_E000, 0x2000, 0xF_E000, PTE_W)]
  }

  /** The first `n` pages of a kernel range are mapped. */
  ghost predicate Covers(pte: map<nat, Pte>, k: Kmap, n: nat) {
    forall v :: k.virt <= v < k.virt + n ==> v in pte && pte[v] == Pte(v - k.virt + k.phys, k.perm)
  }

  /** Exactly kernel mappings, the first `i` ranges and `n` pages of the next. */
  ghost predicate Kernel(pte: map<nat, Pte>, kmap: seq<Kmap>, i: nat, top: nat) {
    && i <= |kmap|
    && (forall j :: 0 <= j < i ==> Covers(pte, kmap[j], kmap[j].n))
    && (forall v :: v in pte ==> USER <= v < top)
  }

  lemma KernelNext(pte: map<nat, Pte>, kmap: seq<Kmap>, i: nat, v: nat, e: Pte, top: nat)
    requires Kernel(pte, kmap, i, v) && USER <= v < top
    ensures Kernel(pte[v := e], kmap, i, top)
  {
    forall j | 0 <= j < i
      ensures Covers(pte[v := e], kmap[j], kmap[j].n)
    {
      CoversStill(pte, kmap[j], kmap[j].n, v, e);
    }
  }

  lemma CoversStill(pte: map<nat, Pte>, k: Kmap, n: nat, v: nat, e: Pte)
    requires Covers(pte, k, n) && v !in pte
    ensures Covers(pte[v := e], k, n)
  {
  }

  lemma CoversNext(pte: map<nat, Pte>, k: Kmap, n: nat, v: nat, e: Pte)
    requires Covers(pte, k, n) && v == k.virt + n && e == Pte(k.phys + n, k.perm)
    ensures Covers(pte[v := e], k, n + 1)
  {
  }

  /** Part way through range `i`: its first `j` pages, up to `v`, are mapped as well. */
  ghost predicate InRange(pte: map<nat, Pte>, kmap: seq<Kmap>, i: nat, j: nat, v: nat) {
    i < |kmap| && Kernel(pte, kmap, i, v) && Covers(pte, kmap[i], j)
  }

  lemma RangeNext(pte: map<nat, Pte>, kmap: seq<Kmap>, i: nat, j: nat, v: nat, e: Pte)
    requires InRange(pte, kmap, i, j, v) && v == kmap[i].virt + j && e == Pte(kmap[i].phys + j, kmap[i].perm)
    requires USER <= v
    ensures InRange(pte[v := e], kmap, i, j + 1, v + 1)
  {
    KernelNext(pte, kmap, i, v, e, v + 1);
    CoversNext(pte, kmap[i], j, v, e);
  }

  lemma RangeDone(pte: map<nat, Pte>, kmap: seq<Kmap>, i: nat, j: nat, v: nat)
    requires InRange(pte, kmap, i, j, v) && j == kmap[i].n && v == kmap[i].virt + j
    ensures Kernel(pte, kmap, i + 1, kmap[i].virt + kmap[i].n)
  {
  }

  /** Giving back everything lent to a directory that is new restores every owner. */
  lemma GivenBack(dirs: map<nat, Dir>, a: Owners, b: Owners, c: Owners, d: nat)
    requires Sound(dirs, a) && d !in dirs && d in a && a[d] == Free && Lent(a, b, d) && Reclaimed(b, c, d)
    ensures c == a
  {
    forall p | p in a
      ensures c[p] == a[p]
    {
      assert InUse(p, a[p], dirs);
    }
  }

  /** Since (dirs0, owner0, data0), only directory `d` has been added, out of free pages. */
  ghost predicate Underway(d: nat, dirs0: map<nat, Dir>, owner0: Owners, data0: map<nat, seq<nat>>,
                           dirs: map<nat, Dir>, owner: Owners, data: map<nat, seq<nat>>) {
    && Added(dirs0, dirs, d) && Kept(owner0, data0, data)
    && Lent(owner0, owner, d) && d in owner0 && owner0[d] == Free
  }

  lemma UnderwayTabled(d: nat, dirs0: map<nat, Dir>, owner0: Owners, data0: map<nat, seq<nat>>,
                       dirs: map<nat, Dir>, owner: Owners, data: map<nat, seq<nat>>,
                       dirs': map<nat, Dir>, owner': Owners, data': map<nat, seq<nat>>)
    requires Underway(d, dirs0, owner0, data0, dirs, owner, data)
    requires Others(dirs, dirs', d) && Tabled(owner, owner', d) && Kept(owner, data, data')
    ensures Underway(d, dirs0, owner0, data0, dirs', owner', data')
  {
  }

  lemma UnderwayGranted(d: nat, dirs0: map<nat, Dir>, owner0: Owners, data0: map<nat, seq<nat>>,
                        dirs: map<nat, Dir>, owner: Owners, data: map<nat, seq<nat>>,
                        dirs': map<nat, Dir>, owner': Owners, data': map<nat, seq<nat>>, p: nat, v: nat, x: seq<nat>)
    requires Underway(d, dirs0, owner0, data0, dirs, owner, data)
    requires Others(dirs, dirs', d) && p in owner && owner[p] == Free && Granted(owner[p := InHand], owner', d, p, v)
    requires Kept(owner[p := InHand], data[p := x], data')
    ensures Underway(d, dirs0, owner0, data0, dirs', owner', data')
  {
  }

  /** The first `v` pages of `dst` have the flags and the contents of those of `src`. */
  ghost predicate Copied(src: Dir, dst: Dir, data0: map<nat, seq<nat>>, data: map<nat, seq<nat>>, v: nat) {
    && (forall x :: x in dst.pte && x < USER ==> x < v)
    && (forall x :: 0 <= x < v ==> x in src.pte && x in dst.pte && SamePage(src.pte[x], dst.pte[x], data0, data))
  }

  ghost predicate SamePage(a: Pte, b: Pte, data0: map<nat, seq<nat>>, data: map<nat, seq<nat>>) {
    && b.flags == a.flags
    && a.page in data0 && b.page in data && data[b.page] == data0[a.page]
  }

  lemma CopyOne(src: Dir, dirs: map<nat, Dir>, owner: Owners, e: nat, data0: map<nat, seq<nat>>,
                data: map<nat, seq<nat>>, dst: Dir, data': map<nat, seq<nat>>, v: nat, w: nat, p: nat)
    requires Sound(dirs, owner) && e in dirs && v < USER && w == v + 1 && Copied(src, dirs[e], data0, data, v)
    requires v in src.pte && src.pte[v].page in data0
    requires p in owner && owner[p] == Free && Kept(owner[p := InHand], data[p := data0[src.pte[v].page]], data')
    requires dst.pte == dirs[e].pte[v := Pte(p, src.pte[v].flags)]
    ensures Copied(src, dst, data0, data', w)
  {
    assert Holds(e, dirs[e], owner);
    forall x | 0 <= x < w
      ensures x in src.pte && x in dst.pte && SamePage(src.pte[x], dst.pte[x], data0, data')
    {
      if x < v {
        assert SamePage(src.pte[x], dirs[e].pte[x], data0, data);
      }
    }
  }

  /** Every range of the kernel's mappings is there. */
  ghost predicate HasKernel(pte: map<nat, Pte>, kmap: seq<Kmap>) {
    forall j :: 0 <= j < |kmap| ==> Covers(pte, kmap[j], kmap[j].n)
  }

  lemma KernelStays(pte: map<nat, Pte>, kmap: seq<Kmap>, v: nat, e: Pte)
    requires HasKernel(pte, kmap) && v !in pte
    ensures HasKernel(pte[v := e], kmap)
  {
  }

  lemma FreeAgain(b: Owners, p: nat)
    requires p in b && b[p] == Free
    ensures b[p := InHand][p := Free] == b
  {
  }

  lemma KeptFree(a: Owners, data0: map<nat, seq<nat>>, data: map<nat, seq<nat>>, p: nat)
    requires Kept(a, data0, data) && p in a && a[p] == Free
    ensures Kept(a, data0, data[p := Filled(1)])
  {
  }

  /** One turn of copyuvm's loop, from (a, b) to (a', b') by way of page `p`. */
  lemma CopyStep(dirs0: map<nat, Dir>, owner0: Owners, data0: map<nat, seq<nat>>,
                 a: map<nat, Dir>, b: Owners, data: map<nat, seq<nat>>,
                 a': map<nat, Dir>, b': Owners, data': map<nat, seq<nat>>,
                 e: nat, d: nat, v: nat, w: nat, p: nat, x: seq<nat>, kmap: seq<Kmap>)
    requires d in dirs0 && Sound(a, b) && Underway(e, dirs0, owner0, data0, a, b, data) && Others(a, a', e)
    requires v < USER && w == v + 1 && v in dirs0[d].pte && dirs0[d].pte[v].page in data0
    requires x == data0[dirs0[d].pte[v].page]
    requires Copied(dirs0[d], a[e], data0, data, v) && HasKernel(a[e].pte, kmap) && v !in a[e].pte
    requires p in b && b[p] == Free && Granted(b[p := InHand], b', e, p, v) && Kept(b[p := InHand], data[p := x], data')
    requires a'[e].pte == a[e].pte[v := Pte(p, dirs0[d].pte[v].flags)]
    ensures Underway(e, dirs0, owner0, data0, a', b', data')
    ensures Copied(dirs0[d], a'[e], data0, data', w) && HasKernel(a'[e].pte, kmap)
  {
    UnderwayGranted(e, dirs0, owner0, data0, a, b, data, a', b', data', p, v, x);
    CopyOne(dirs0[d], a, b, e, data0, data, a'[e], data', v, w, p);
    KernelStays(a[e].pte, kmap, v, Pte(p, dirs0[d].pte[v].flags));
  }

  /** No physical page is shared by the user memory of two directories. */
  lemma DisjointPages(dirs: map<nat, Dir>, owner: Owners, d: nat, e: nat, x: nat, y: nat)
    requires Sound(dirs, owner) && d in dirs && e in dirs && d != e && x < USER && y < USER
    requires x in dirs[d].pte && y in dirs[e].pte
    ensures dirs[d].pte[x].page != dirs[e].pte[y].page
  {
    assert Holds(d, dirs[d], owner) && Holds(e, dirs[e], owner);
  }

  class Memory {
    var free: seq<nat>
    var dirs: map<nat, Dir>
    var data: map<nat, seq<nat>>
    ghost var owner: Owners

    ghost predicate Valid()
      reads this
    {
      FreeOnce(free, owner) && Sound(dirs, owner) && Bounded(dirs) && owner.Keys <= data.Keys
    }

    method Kalloc() returns (r: Option<nat>)
      requires Valid()
      modifies this`free, this`owner
      ensures Valid()
      ensures r.None? <==> old(free) == []
      ensures r.None? ==> owner == old(owner)
      ensures r.Some? ==> r.value in old(owner) && old(owner)[r.value] == Free && owner == old(owner)[r.value := InHand]
    {
      if free == [] {
        return None;
      }
      Popped(free, owner);
      HandSound(dirs, owner, free[0], InHand);
      owner := owner[free[0] := InHand];
      r := Some(free[0]);
      free := free[1..];
    }

    method Kfree(p: nat)
      requires Valid() && p in owner && owner[p] == InHand
      modifies this`free, this`owner, this`data
      ensures Valid() && owner == old(owner)[p := Free] && data == old(data)[p := Filled(1)]
    {
      data := data[p := Filled(1)];
      Pushed(free, owner, p);
      HandSound(dirs, owner, p, Free);
      free, owner := [p] + free, owner[p := Free];
    }

    /** walkpgdir with alloc set. */
    method Walk(d: nat, v: nat) returns (ok: bool)
      requires Valid() && d in dirs && v < VPAGES
      modifies this`free, this`owner, this`data, this`dirs
      ensures Valid() && Others(old(dirs), dirs, d) && dirs[d].pte == old(dirs)[d].pte
      ensures Tabled(old(owner), owner, d) && Kept(old(owner), old(data), data)
      ensures ok ==> v / NPT in dirs[d].pde
      ensures !ok ==> owner == old(owner) && dirs == old(dirs)
    {
      var i := v / NPT;
      if i in dirs[d].pde {
        return true;
      }
      var r := Kalloc();
      if r.None? {
        return false;
      }
      AddTable(d, i, r.value);
      ok := true;
    }

    method AddTable(d: nat, i: nat, p: nat)
      requires Valid() && d in dirs && i < NPT && i !in dirs[d].pde && p in owner && owner[p] == InHand
      modifies this`owner, this`data, this`dirs
      ensures Valid() && Others(old(dirs), dirs, d) && owner == old(owner)[p := Table(d, i)]
      ensures dirs[d] == old(dirs)[d].(pde := old(dirs)[d].pde[i := p]) && data == old(data)[p := Filled(0)]
    {
      data := data[p := Filled(0)];
      TableSound(dirs, owner, d, i, p);
      StillFree(free, owner, p, Table(d, i));
      owner := owner[p := Table(d, i)];
      dirs := dirs[d := dirs[d].(pde := dirs[d].pde[i := p])];
    }

    method SetUser(d: nat, v: nat, p: nat, flags: nat)
      requires Valid() && d in dirs && v < USER && v !in dirs[d].pte && v / NPT in dirs[d].pde
      requires p in owner && owner[p] == InHand
      modifies this`owner, this`dirs
      ensures Valid() && Others(old(dirs), dirs, d) && owner == old(owner)[p := User(d, v)]
      ensures dirs[d].pte == old(dirs)[d].pte[v := Pte(p, flags)]
    {
      UserSound(dirs, owner, d, v, p, flags);
      StillFree(free, owner, p, User(d, v));
      owner := owner[p := User(d, v)];
      dirs := dirs[d := dirs[d].(pte := dirs[d].pte[v := Pte(p, flags)])];
    }

    /** mappages for one user page, which the caller has in hand; the caller keeps it when there is no memory. */
    method MapUser(d: nat, v: nat, p: nat, flags: nat) returns (ok: bool)
      requires Valid() && d in dirs && v < USER && v !in dirs[d].pte && p in owner && owner[p] == InHand
      modifies this`free, this`owner, this`data, this`dirs
      ensures Valid() && Others(old(dirs), dirs, d) && Kept(old(owner), old(data), data)
      ensures !ok ==> owner == old(owner) && dirs == old(dirs)
      ensures ok ==> Granted(old(owner), owner, d, p, v) && dirs[d].pte == old(dirs)[d].pte[v := Pte(p, flags)]
    {
      ok := Walk(d, v);
      if ok {
        GrantedNow(old(owner), owner, d, p, v);
        SetUser(d, v, p, flags);
      }
    }

    /** One turn of deallocuvm's loop: the page is freed and its entry cleared. */
    method Unmap(d: nat, v: nat)
      requires Valid() && d in dirs && v < USER && v in dirs[d].pte
      modifies this`free, this`owner, this`data, this`dirs
      ensures Valid() && Others(old(dirs), dirs, d)
      ensures dirs[d] == old(dirs)[d].(pte := old(dirs)[d].pte - {v})
      ensures owner == old(owner)[old(dirs)[d].pte[v].page := Free]
      ensures data == old(data)[old(dirs)[d].pte[v].page := Filled(1)]
    {
      var p := dirs[d].pte[v].page;
      UnmapSound(dirs, owner, d, v);
      Pushed(free, owner, p);
      data := data[p := Filled(1)];
      free, owner := [p] + free, owner[p := Free];
      dirs := dirs[d := dirs[d].(pte := dirs[d].pte - {v})];
    }

    /** deallocuvm has dealt with user pages `lo..v`. */
    ghost predicate Cleared(d: nat, lo: nat, v: nat, dirs0: map<nat, Dir>, owner0: Owners, data0: map<nat, seq<nat>>)
      reads this
    {
      && Valid() && d in dirs0 && Others(dirs0, dirs, d) && Kept(owner, data0, data)
      && Unmapped(dirs0[d], dirs[d], lo, v) && Released(owner0, owner, d, lo, v)
    }

    lemma Passed(d: nat, lo: nat, v: nat, w: nat, dirs0: map<nat, Dir>, owner0: Owners, data0: map<nat, seq<nat>>)
      requires Sound(dirs0, owner0) && Cleared(d, lo, v, dirs0, owner0, data0) && lo <= v <= w
      requires NoEntries(dirs[d], v, w)
      ensures Cleared(d, lo, w, dirs0, owner0, data0)
    {
      assert forall p :: p in owner0 ==> InUse(p, owner0[p], dirs0);
    }

    method ClearPage(d: nat, ghost lo: nat, v: nat,
                     ghost dirs0: map<nat, Dir>, ghost owner0: Owners, ghost data0: map<nat, seq<nat>>)
      requires Sound(dirs0, owner0) && Cleared(d, lo, v, dirs0, owner0, data0) && lo <= v < USER
      modifies this`free, this`owner, this`data, this`dirs
      ensures Cleared(d, lo, v + 1, dirs0, owner0, data0)
    {
      if v in dirs[d].pte {
        ghost var q := dirs[d].pte[v].page;
        OnlyOne(dirs0, owner0, d, v);
        ReleaseOne(owner0, owner, d, lo, v, v + 1, q);
        UnmapOne(dirs0[d], dirs[d], lo, v, v + 1);
        KeptFreed(owner, data0, data, q);
        Unmap(d, v);
      } else {
        Absent(dirs[d], v, v + 1);
        Passed(d, lo, v, v + 1, dirs0, owner0, data0);
      }
    }

    method Deallocuvm(d: nat, oldsz: nat, newsz: nat) returns (r: nat)
      requires Valid() && d in dirs && oldsz <= KERNBASE
      modifies this`free, this`owner, this`data, this`dirs
      ensures Cleared(d, Up(newsz), Up(oldsz), old(dirs), old(owner), old(data))
      ensures r == if newsz >= oldsz then oldsz else newsz
    {
      ghost var dirs0, owner0, data0 := dirs, owner, data;
      ghost var hi := Up(oldsz);
      var lo := Up(newsz);
      Nothing(d, lo, hi);
      if newsz >= oldsz {
        return oldsz;
      }
      var v := lo;
      while v * PGSIZE < oldsz
        invariant lo <= v && Cleared(d, lo, if v < hi then v else hi, dirs0, owner0, data0)
        decreases hi - v
      {
        if v / NPT !in dirs[d].pde {
          var w := (v / NPT + 1) * NPT;
          Unwalked(d, v, w);
          Passed(d, lo, v, if w < hi then w else hi, dirs0, owner0, data0);
          v := w;
        } else {
          ClearPage(d, lo, v, dirs0, owner0, data0);
          v := v + 1;
        }
      }
      r := newsz;
    }

    lemma Nothing(d: nat, lo: nat, hi: nat)
      requires Valid() && d in dirs
      ensures Cleared(d, lo, lo, dirs, owner, data)
      ensures hi <= lo ==> Cleared(d, lo, hi, dirs, owner, data)
    {
    }

    /** Where there is no page table there are no entries. */
    lemma Unwalked(d: nat, v: nat, w: nat)
      requires Valid() && d in dirs && v / NPT !in dirs[d].pde && w == (v / NPT + 1) * NPT
      ensures v < w && NoEntries(dirs[d], v, w)
    {
      assert Holds(d, dirs[d], owner);
      forall x | v <= x < w
        ensures x / NPT == v / NPT
      {
      }
    }

    /** allocuvm has added user pages `lo..v` to `d`. */
    ghost predicate Grown(d: nat, lo: nat, v: nat, dirs0: map<nat, Dir>, owner0: Owners, data0: map<nat, seq<nat>>)
      reads this
    {
      && Valid() && d in dirs0 && Others(dirs0, dirs, d) && Kept(owner0, data0, data)
      && Extended(dirs0[d], dirs[d], lo, v) && Leased(owner0, owner, d, lo, v) && Zeroed(dirs[d], data, lo, v)
    }

    /** allocuvm out of memory at page `v`, perhaps with one page in hand since `b`. */
    ghost predicate Stuck(d: nat, lo: nat, v: nat, mem: Option<nat>, b: Owners,
                          dirs0: map<nat, Dir>, owner0: Owners, data0: map<nat, seq<nat>>)
      reads this
    {
      && Valid() && d in dirs0 && Others(dirs0, dirs, d) && Kept(owner0, data0, data)
      && Extended(dirs0[d], dirs[d], lo, v) && Leased(owner0, b, d, lo, v)
      && (mem.None? ==> owner == b)
      && (mem.Some? ==> mem.value in b && b[mem.value] == Free && owner == b[mem.value := InHand])
    }

    /** A free page filled with `x` and mapped; on failure the page, if there was one, is still in hand. */
    method MapFresh(d: nat, v: nat, x: seq<nat>, flags: nat) returns (ok: bool, mem: Option<nat>)
      requires Valid() && d in dirs && v < USER && v !in dirs[d].pte
      modifies this`free, this`owner, this`data, this`dirs
      ensures Valid() && Others(old(dirs), dirs, d)
      ensures mem.Some? ==> mem.value in old(owner) && old(owner)[mem.value] == Free
      ensures mem.Some? ==> Kept(old(owner)[mem.value := InHand], old(data)[mem.value := x], data)
      ensures ok ==> mem.Some? && Granted(old(owner)[mem.value := InHand], owner, d, mem.value, v)
      ensures ok ==> dirs[d].pte == old(dirs)[d].pte[v := Pte(mem.value, flags)]
      ensures !ok ==> dirs == old(dirs) && owner == if mem.Some? then old(owner)[mem.value := InHand] else old(owner)
      ensures mem.None? ==> data == old(data)
    {
      mem := Kalloc();
      if mem.None? {
        return false, None;
      }
      data := data[mem.value := x];
      ok := MapUser(d, v, mem.value, flags);
    }

    /** One turn of allocuvm's loop. */
    method GrowPage(d: nat, ghost lo: nat, v: nat,
                    ghost dirs0: map<nat, Dir>, ghost owner0: Owners, ghost data0: map<nat, seq<nat>>)
      returns (ok: bool, mem: Option<nat>)
      requires Grown(d, lo, v, dirs0, owner0, data0) && lo <= v < USER && v !in dirs0[d].pte
      modifies this`free, this`owner, this`data, this`dirs
      ensures ok ==> Grown(d, lo, v + 1, dirs0, owner0, data0)
      ensures !ok ==> Stuck(d, lo, v, mem, old(owner), dirs0, owner0, data0)
    {
      ghost var a, b, data1 := dirs, owner, data;
      assert Stable(owner0, b);
      ok, mem := MapFresh(d, v, Filled(0), PTE_W + PTE_U);
      if mem.Some? {
        KeptTaken(owner0, b, data0, data1, data, mem.value, Filled(0));
      }
      if ok {
        GrowOne(dirs0, owner0, a, b, data1, dirs, owner, data, d, lo, v, v + 1, mem.value);
      }
    }

    /** The user mappings of `d` are as they were; it may have gained page tables. */
    ghost predicate Restored(d: nat, dirs0: map<nat, Dir>, owner0: Owners, data0: map<nat, seq<nat>>)
      reads this
    {
      && Valid() && d in dirs0 && Others(dirs0, dirs, d) && Kept(owner0, data0, data)
      && dirs[d].pte == dirs0[d].pte && Tabled(owner0, owner, d)
    }

    /** allocuvm giving up: the pages added so far go back, and the one in hand with them. */
    method Rollback(d: nat, oldsz: nat, newsz: nat, mem: Option<nat>, ghost lo: nat, ghost v: nat, ghost b: Owners,
                    ghost dirs0: map<nat, Dir>, ghost owner0: Owners, ghost data0: map<nat, seq<nat>>)
      requires newsz <= KERNBASE && oldsz <= newsz && lo == Up(oldsz) && v <= Up(newsz)
      requires Sound(dirs0, owner0) && owner0.Keys <= data0.Keys && d in dirs0 && NoEntries(dirs0[d], lo, Up(newsz))
      requires Stuck(d, lo, v, mem, b, dirs0, owner0, data0)
      modifies this`free, this`owner, this`data, this`dirs
      ensures Restored(d, dirs0, owner0, data0)
    {
      ghost var hi, dir, data1 := Up(newsz), dirs[d], data;
      var _ := Deallocuvm(d, newsz, oldsz);
      UnmappedExtended(dirs0[d], dir, dirs[d], lo, v, hi);
      ghost var data2 := data;
      if mem.Some? {
        ReleasedAround(b, owner, d, lo, hi, mem.value);
        KeptFreed(owner, data1, data2, mem.value);
        Kfree(mem.value);
      }
      Undone(dirs0, owner0, b, owner, d, lo, v, hi);
      KeptThrough(owner0, owner, data0, data1, data, d);
    }

    /** allocuvm's loop, with its two ways out of memory. */
    method AddPages(d: nat, oldsz: nat, newsz: nat,
                    ghost dirs0: map<nat, Dir>, ghost owner0: Owners, ghost data0: map<nat, seq<nat>>)
      returns (ok: bool)
      requires oldsz <= newsz < KERNBASE && d in dirs && NoEntries(dirs[d], Up(oldsz), Up(newsz))
      requires Valid() && dirs0 == dirs && owner0 == owner && data0 == data
      modifies this`free, this`owner, this`data, this`dirs
      ensures ok ==> Grown(d, Up(oldsz), Up(newsz), dirs0, owner0, data0)
      ensures !ok ==> Restored(d, dirs0, owner0, data0)
    {
      ghost var hi := Up(newsz);
      var lo := Up(oldsz);
      var v := lo;
      while v * PGSIZE < newsz
        invariant lo <= v <= hi && Grown(d, lo, v, dirs0, owner0, data0)
      {
        ghost var before := owner;
        var more, mem := GrowPage(d, lo, v, dirs0, owner0, data0);
        if !more {
          Rollback(d, oldsz, newsz, mem, lo, v, before, dirs0, owner0, data0);
          return false;
        }
        v := v + 1;
      }
      ok := true;
    }

    /** allocuvm; on failure the user mappings are as they were, and only page tables may have been added. */
    method Allocuvm(d: nat, oldsz: nat, newsz: nat) returns (r: nat, ghost ok: bool)
      requires d in dirs && Valid() && NoEntries(dirs[d], Up(oldsz), Up(newsz))
      modifies this`free, this`owner, this`data, this`dirs
      ensures newsz >= KERNBASE || newsz < oldsz ==> !ok && dirs == old(dirs) && owner == old(owner)
      ensures r == if ok then newsz else if newsz < oldsz && newsz < KERNBASE then oldsz else 0
      ensures ok ==> Grown(d, Up(oldsz), Up(newsz), old(dirs), old(owner), old(data))
      ensures !ok ==> Restored(d, old(dirs), old(owner), old(data))
    {
      if newsz >= KERNBASE {
        return 0, false;
      }
      if newsz < oldsz {
        return oldsz, false;
      }
      var more := AddPages(d, oldsz, newsz, dirs, owner, data);
      if !more {
        return 0, false;
      }
      return newsz, true;
    }

    /** The directory leaves the table of directories; its pages are in hand. */
    ghost method Detach(d: nat)
      requires Valid() && d in dirs && forall v :: v in dirs[d].pte ==> v >= USER
      modifies this`owner
      ensures Freeing(old(owner), owner, d, 0) && FreeOnce(free, owner) && Sound(dirs - {d}, owner)
    {
      assert Holds(d, dirs[d], owner);
      var b := map p | p in owner :: if p == d || (owner[p].Table? && owner[p].d == d) then InHand else owner[p];
      DetachSound(dirs, owner, d, b);
      owner := b;
    }

    /** freevm has freed the page tables below index `i`. */
    ghost predicate Tearing(d: nat, i: nat, b: Owners, data1: map<nat, seq<nat>>)
      reads this
    {
      Valid() && Freeing(b, owner, d, i) && Kept(owner, data1, data)
    }

    method FreeTable(d: nat, i: nat, pde: map<nat, nat>, ghost dirs1: map<nat, Dir>, ghost b: Owners,
                     ghost data1: map<nat, seq<nat>>)
      requires Tearing(d, i, b, data1) && Sound(dirs1, b) && d in dirs1 && dirs1[d].pde == pde
      modifies this`free, this`owner, this`data
      ensures Tearing(d, i + 1, b, data1)
    {
      OneTable(dirs1, b, d, i);
      FreeingNext(b, owner, d, i, i + 1, if i in pde then Some(pde[i]) else None);
      if i in pde {
        KeptFreed(owner, data1, data, pde[i]);
        Kfree(pde[i]);
      }
    }

    /** freevm's loop over the directory entries. */
    method FreeTables(d: nat, pde: map<nat, nat>, ghost dirs1: map<nat, Dir>, ghost b: Owners)
      requires Valid() && Sound(dirs1, b) && d in dirs1 && dirs1[d].pde == pde && Freeing(b, owner, d, 0)
      modifies this`free, this`owner, this`data
      ensures Tearing(d, NPT, b, old(data))
    {
      ghost var data1 := data;
      var i := 0;
      while i < NPT
        invariant 0 <= i <= NPT && Tearing(d, i, b, data1)
      {
        FreeTable(d, i, pde, dirs1, b, data1);
        i := i + 1;
      }
    }

    /** The end of freevm: the page tables, then the directory. */
    method FreeRest(d: nat)
      requires Valid() && d in dirs && forall v :: v in dirs[d].pte ==> v >= USER
      modifies this`free, this`owner, this`data, this`dirs
      ensures Valid() && Removed(old(dirs), dirs, d) && Rested(old(owner), owner, d) && Kept(owner, old(data), data)
    {
      ghost var dirs1, b, data1 := dirs, owner, data;
      var pde := dirs[d].pde;
      TableIndices(dirs1, b, d);
      assert Holds(d, dirs1[d], b);
      Detach(d);
      dirs := dirs - {d};
      FreeTables(d, pde, dirs1, b);
      FreedLast(b, owner, d);
      KeptFreed(owner, data1, data, d);
      Kfree(d);
    }

    /** freevm: every page of the directory goes back to the free list, once. */
    method Freevm(d: nat)
      requires Valid() && d in dirs
      modifies this`free, this`owner, this`data, this`dirs
      ensures Valid() && Removed(old(dirs), dirs, d) && Reclaimed(old(owner), owner, d) && Kept(owner, old(data), data)
    {
      ghost var dirs0, a, data0 := dirs, owner, data;
      var _ := Deallocuvm(d, KERNBASE, 0);
      ghost var b, data1 := owner, data;
      FreeRest(d);
      AllReclaimed(dirs0, a, b, owner, d);
      KeptDown(b, owner, data0, data1, data);
    }

    /** A directory under construction since (dirs0, owner0, data0). */
    ghost predicate Built(d: nat, dirs0: map<nat, Dir>, owner0: Owners, data0: map<nat, seq<nat>>)
      reads this
    {
      Valid() && Underway(d, dirs0, owner0, data0, dirs, owner, data)
    }

    /** Giving up on a directory under construction leaves no trace. */
    method Abandon(d: nat, ghost dirs0: map<nat, Dir>, ghost owner0: Owners, ghost data0: map<nat, seq<nat>>)
      requires Built(d, dirs0, owner0, data0) && Sound(dirs0, owner0) && owner0.Keys <= data0.Keys
      modifies this`free, this`owner, this`data, this`dirs
      ensures Valid() && dirs == dirs0 && owner == owner0 && Kept(owner0, data0, data)
    {
      ghost var b, data1 := owner, data;
      Freevm(d);
      GivenBack(dirs0, owner0, b, owner, d);
      assert dirs == dirs0;
    }

    method SetKernel(d: nat, v: nat, e: Pte)
      requires Valid() && d in dirs && v >= USER && v / NPT in dirs[d].pde
      modifies this`dirs
      ensures Valid() && Others(old(dirs), dirs, d) && dirs[d].pte == old(dirs)[d].pte[v := e]
    {
      KernelSound(dirs, owner, d, v, e);
      dirs := dirs[d := dirs[d].(pte := dirs[d].pte[v := e])];
    }

    ghost predicate Mapping(d: nat, kmap: seq<Kmap>, i: nat, j: nat, v: nat,
                            dirs0: map<nat, Dir>, owner0: Owners, data0: map<nat, seq<nat>>)
      reads this
    {
      Built(d, dirs0, owner0, data0) && InRange(dirs[d].pte, kmap, i, j, v)
    }

    /** One turn of the loop of mappages. */
    method MapNext(d: nat, kmap: seq<Kmap>, i: nat, j: nat, v: nat,
                   ghost dirs0: map<nat, Dir>, ghost owner0: Owners, ghost data0: map<nat, seq<nat>>) returns (ok: bool)
      requires Mapping(d, kmap, i, j, v, dirs0, owner0, data0) && v == kmap[i].virt + j && USER <= v < VPAGES
      modifies this`free, this`owner, this`data, this`dirs
      ensures Built(d, dirs0, owner0, data0)
      ensures ok ==> Mapping(d, kmap, i, j + 1, v + 1, dirs0, owner0, data0)
    {
      ghost var pte := dirs[d].pte;
      var e := Pte(kmap[i].phys + j, kmap[i].perm);
      ok := MapKernel(d, v, e, dirs0, owner0, data0);
      if ok {
        RangeNext(pte, kmap, i, j, v, e);
      }
    }

    /** mappages for one range of kernel mappings. */
    method MapRange(d: nat, kmap: seq<Kmap>, i: nat,
                    ghost dirs0: map<nat, Dir>, ghost owner0: Owners, ghost data0: map<nat, seq<nat>>)
      returns (ok: bool)
      requires Built(d, dirs0, owner0, data0) && KmapOk(kmap) && i < |kmap|
      requires Kernel(dirs[d].pte, kmap, i, kmap[i].virt)
      modifies this`free, this`owner, this`data, this`dirs
      ensures Built(d, dirs0, owner0, data0)
      ensures ok ==> Kernel(dirs[d].pte, kmap, i + 1, kmap[i].virt + kmap[i].n)
    {
      var n, j, v := kmap[i].n, 0, kmap[i].virt;
      while j < n
        invariant 0 <= j <= n && v == kmap[i].virt + j && Mapping(d, kmap, i, j, v, dirs0, owner0, data0)
      {
        ok := MapNext(d, kmap, i, j, v, dirs0, owner0, data0);
        if !ok {
          return;
        }
        j, v := j + 1, v + 1;
      }
      RangeDone(dirs[d].pte, kmap, i, j, v);
      ok := true;
    }

    method MapKernel(d: nat, v: nat, e: Pte,
                     ghost dirs0: map<nat, Dir>, ghost owner0: Owners, ghost data0: map<nat, seq<nat>>)
      returns (ok: bool)
      requires Built(d, dirs0, owner0, data0) && USER <= v < VPAGES
      modifies this`free, this`owner, this`data, this`dirs
      ensures Built(d, dirs0, owner0, data0)
      ensures ok ==> dirs[d].pte == old(dirs)[d].pte[v := e]
    {
      ghost var a, b, data1 := dirs, owner, data;
      ok := Walk(d, v);
      UnderwayTabled(d, dirs0, owner0, data0, a, b, data1, dirs, owner, data);
      if ok {
        a := dirs;
        SetKernel(d, v, e);
        UnderwayTabled(d, dirs0, owner0, data0, a, owner, data, dirs, owner, data);
      }
    }

    /** setupkvm; on failure nothing has changed hands. */
    method Setupkvm(kmap: seq<Kmap>) returns (r: Option<nat>)
      requires Valid() && KmapOk(kmap)
      modifies this`free, this`owner, this`data, this`dirs
      ensures Valid() && Kept(old(owner), old(data), data)
      ensures r.None? ==> dirs == old(dirs) && owner == old(owner)
      ensures r.Some? ==> Built(r.value, old(dirs), old(owner), old(data))
      ensures r.Some? ==> Kernel(dirs[r.value].pte, kmap, |kmap|, VPAGES)
    {
      ghost var dirs0, owner0, data0 := dirs, owner, data;
      r := NewDir();
      if r.None? {
        return;
      }
      var d := r.value;
      var i := 0;
      while i < |kmap|
        invariant 0 <= i <= |kmap| && Built(d, dirs0, owner0, data0)
        invariant Kernel(dirs[d].pte, kmap, i, if i < |kmap| then kmap[i].virt else VPAGES)
      {
        var ok := MapRange(d, kmap, i, dirs0, owner0, data0);
        if !ok {
          Abandon(d, dirs0, owner0, data0);
          return None;
        }
        i := i + 1;
      }
    }

    method NewDir() returns (r: Option<nat>)
      requires Valid()
      modifies this`free, this`owner, this`data, this`dirs
      ensures Valid() && (r.None? ==> dirs == old(dirs) && owner == old(owner) && data == old(data))
      ensures r.Some? ==> Built(r.value, old(dirs), old(owner), old(data)) && dirs[r.value].pte == map[]
    {
      r := Kalloc();
      if r.Some? {
        var d := r.value;
        RootSound(dirs, owner, d);
        StillFree(free, owner, d, Root);
        data := data[d := Filled(0)];
        owner := owner[d := Root];
        dirs := dirs[d := Dir(map[], map[])];
      }
    }

    /** copyuvm has copied the first `v` pages of `d` into the new directory `e`. */
    ghost predicate Copying(e: nat, d: nat, v: nat, kmap: seq<Kmap>,
                            dirs0: map<nat, Dir>, owner0: Owners, data0: map<nat, seq<nat>>)
      reads this
    {
      && Built(e, dirs0, owner0, data0) && d in dirs0
      && HasKernel(dirs[e].pte, kmap) && Copied(dirs0[d], dirs[e], data0, data, v)
    }

    /** The page to copy: its entry, and its contents, which nothing has touched. */
    method Source(e: nat, d: nat, v: nat,
                  ghost dirs0: map<nat, Dir>, ghost owner0: Owners, ghost data0: map<nat, seq<nat>>)
      returns (pte: Pte, x: seq<nat>)
      requires Built(e, dirs0, owner0, data0) && d in dirs0 && v < USER && v in dirs0[d].pte
      requires Sound(dirs0, owner0) && owner0.Keys <= data0.Keys
      ensures pte == dirs0[d].pte[v] && pte.page in data0 && x == data0[pte.page]
    {
      pte := dirs[d].pte[v];
      assert Holds(d, dirs0[d], owner0);
      x := data[pte.page];
    }

    /** A page in hand, taken since, goes back. */
    method PutBack(e: nat, p: nat, ghost b: Owners, ghost data1: map<nat, seq<nat>>, ghost x: seq<nat>,
                   ghost dirs0: map<nat, Dir>, ghost owner0: Owners, ghost data0: map<nat, seq<nat>>)
      requires Valid() && Underway(e, dirs0, owner0, data0, dirs, b, data1)
      requires p in b && b[p] == Free && owner == b[p := InHand] && Kept(owner, data1[p := x], data)
      modifies this`free, this`owner, this`data
      ensures Built(e, dirs0, owner0, data0)
    {
      KeptTaken(owner0, b, data0, data1, data, p, x);
      KeptFree(owner0, data0, data, p);
      FreeAgain(b, p);
      Kfree(p);
    }

    /** One turn of copyuvm's loop. */
    method CopyPage(e: nat, d: nat, v: nat, kmap: seq<Kmap>,
                    ghost dirs0: map<nat, Dir>, ghost owner0: Owners, ghost data0: map<nat, seq<nat>>)
      returns (ok: bool)
      requires Copying(e, d, v, kmap, dirs0, owner0, data0) && v < USER && v in dirs0[d].pte
      requires Sound(dirs0, owner0) && owner0.Keys <= data0.Keys
      modifies this`free, this`owner, this`data, this`dirs
      ensures ok ==> Copying(e, d, v + 1, kmap, dirs0, owner0, data0)
      ensures !ok ==> Built(e, dirs0, owner0, data0)
    {
      ghost var a, b, data1 := dirs, owner, data;
      var pte, x := Source(e, d, v, dirs0, owner0, data0);
      var mem;
      ok, mem := MapFresh(e, v, x, pte.flags);
      if ok {
        CopyStep(dirs0, owner0, data0, a, b, data1, dirs, owner, data, e, d, v, v + 1, mem.value, x, kmap);
      } else if mem.Some? {
        PutBack(e, mem.value, b, data1, x, dirs0, owner0, data0);
      }
    }

    /** copyuvm: an equal copy on pages of its own, or no change at all; panics only on an absent page below sz. */
    method Copyuvm(d: nat, sz: nat, kmap: seq<Kmap>) returns (r: Option<nat>, panic: bool)
      requires Valid() && d in dirs && KmapOk(kmap) && sz <= KERNBASE
      modifies this`free, this`owner, this`data, this`dirs
      ensures Valid() && Kept(old(owner), old(data), data)
      ensures panic ==> r.None? && exists x :: 0 <= x < Up(sz) && x !in old(dirs)[d].pte
      ensures r.None? && !panic ==> dirs == old(dirs) && owner == old(owner)
      ensures r.Some? ==> Copying(r.value, d, Up(sz), kmap, old(dirs), old(owner), old(data))
    {
      ghost var dirs0, owner0, data0 := dirs, owner, data;
      panic := false;
      r := Setupkvm(kmap);
      if r.None? {
        return;
      }
      var e := r.value;
      var v := 0;
      while v * PGSIZE < sz
        invariant 0 <= v <= Up(sz) && Copying(e, d, v, kmap, dirs0, owner0, data0)
      {
        if v !in dirs[d].pte {
          return None, true;
        }
        var ok := CopyPage(e, d, v, kmap, dirs0, owner0, data0);
        if !ok {
          Abandon(e, dirs0, owner0, data0);
          return None, false;
        }
        v := v + 1;
      }
    }
  }
}

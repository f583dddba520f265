/** Who owns each physical page: kalloc.c's free list, or a page directory, its tables and its user memory. */
module Pages {

  /** Page-table entries per page, and the first virtual page of the kernel half (KERNBASE). */
  const NPT := 1024
  const USER := 0x8_0000
  const VPAGES := 0x10_0000

  datatype Pte = Pte(page: nat, flags: nat)

  /** A page directory: present directory entries by index, present table entries by virtual page. */
  datatype Dir = Dir(pde: map<nat, nat>, pte: map<nat, Pte>)

  datatype Owner = Free | InHand | Root | Table(d: nat, i: nat) | User(d: nat, v: nat)

  type Owners = map<nat, Owner>

  /** The free list holds exactly the free pages, each once. */
  ghost predicate FreeOnce(free: seq<nat>, owner: Owners) {
    && (forall i, j :: 0 <= i < j < |free| ==> free[i] != free[j])
    && (forall p :: p in free <==> p in owner && owner[p] == Free)
  }

  /** What directory `d` refers to is what it owns, page for page. */
  ghost predicate Holds(d: nat, dir: Dir, owner: Owners) {
    && (forall i :: i in dir.pde ==> dir.pde[i] in owner && owner[dir.pde[i]] == Table(d, i))
    && (forall v :: v in dir.pte && v < USER ==> dir.pte[v].page in owner && owner[dir.pte[v].page] == User(d, v))
    && (forall v :: v in dir.pte ==> v / NPT in dir.pde)
  }

  /** A page that says it is used by a directory is referred to there. */
  ghost predicate InUse(p: nat, o: Owner, dirs: map<nat, Dir>) {
    match o
    case Free => p !in dirs
    case InHand => p !in dirs
    case Root => p in dirs
    case Table(d, i) => p !in dirs && d in dirs && i in dirs[d].pde && dirs[d].pde[i] == p
    case User(d, v) => p !in dirs && v < USER && d in dirs && v in dirs[d].pte && dirs[d].pte[v].page == p
  }

  ghost predicate Sound(dirs: map<nat, Dir>, owner: Owners) {
    && (forall d {:trigger Holds(d, dirs[d], owner)} :: d in dirs ==>
          d in owner && owner[d] == Root && Holds(d, dirs[d], owner))
    && (forall p {:trigger InUse(p, owner[p], dirs)} :: p in owner ==> InUse(p, owner[p], dirs))
  }

  predicate Indices(pde: map<nat, nat>) {
    forall i :: i in pde ==> i < NPT
  }

  /** Directory entries lie inside the directory. */
  ghost predicate Bounded(dirs: map<nat, Dir>) {
    forall d :: d in dirs ==> Indices(dirs[d].pde)
  }

  // ---- One page changes hands ----

  lemma Popped(free: seq<nat>, owner: Owners)
    requires FreeOnce(free, owner) && free != []
    ensures free[0] in owner && owner[free[0]] == Free
    ensures FreeOnce(free[1..], owner[free[0] := InHand])
  {
  }

  lemma Pushed(free: seq<nat>, owner: Owners, p: nat)
    requires FreeOnce(free, owner) && p in owner && owner[p] != Free
    ensures FreeOnce([p] + free, owner[p := Free])
  {
  }

  lemma StillFree(free: seq<nat>, owner: Owners, p: nat, o: Owner)
    requires FreeOnce(free, owner) && p in owner && owner[p] != Free && o != Free
    ensures FreeOnce(free, owner[p := o])
  {
  }

  /** Between the free list and somebody's hand nothing that directories hold is touched. */
  lemma HandSound(dirs: map<nat, Dir>, owner: Owners, p: nat, o: Owner)
    requires Sound(dirs, owner) && p in owner && owner[p] in {Free, InHand} && o in {Free, InHand}
    ensures Sound(dirs, owner[p := o])
  {
    var owner' := owner[p := o];
    forall d | d in dirs
      ensures d in owner' && owner'[d] == Root && Holds(d, dirs[d], owner')
    {
      assert Holds(d, dirs[d], owner);
    }
    forall q | q in owner'
      ensures InUse(q, owner'[q], dirs)
    {
      assert InUse(q, owner[q], dirs);
    }
  }

  /** A page in hand becomes a page table. */
  lemma TableSound(dirs: map<nat, Dir>, owner: Owners, d: nat, i: nat, p: nat)
    requires Sound(dirs, owner) && d in dirs && i !in dirs[d].pde && p in owner && owner[p] == InHand
    ensures Sound(dirs[d := dirs[d].(pde := dirs[d].pde[i := p])], owner[p := Table(d, i)])
  {
    var dirs', owner' := dirs[d := dirs[d].(pde := dirs[d].pde[i := p])], owner[p := Table(d, i)];
    forall e | e in dirs'
      ensures e in owner' && owner'[e] == Root && Holds(e, dirs'[e], owner')
    {
      assert Holds(e, dirs[e], owner) && InUse(p, owner[p], dirs);
    }
    forall q | q in owner'
      ensures InUse(q, owner'[q], dirs')
    {
      assert InUse(q, owner[q], dirs);
    }
  }

  /** A page in hand becomes user memory. */
  lemma UserSound(dirs: map<nat, Dir>, owner: Owners, d: nat, v: nat, p: nat, flags: nat)
    requires Sound(dirs, owner) && d in dirs && v < USER && v !in dirs[d].pte && v / NPT in dirs[d].pde
    requires p in owner && owner[p] == InHand
    ensures Sound(dirs[d := dirs[d].(pte := dirs[d].pte[v := Pte(p, flags)])], owner[p := User(d, v)])
  {
    var dirs', owner' := dirs[d := dirs[d].(pte := dirs[d].pte[v := Pte(p, flags)])], owner[p := User(d, v)];
    forall e | e in dirs'
      ensures e in owner' && owner'[e] == Root && Holds(e, dirs'[e], owner')
    {
      assert Holds(e, dirs[e], owner) && InUse(p, owner[p], dirs);
    }
    forall q | q in owner'
      ensures InUse(q, owner'[q], dirs')
    {
      assert InUse(q, owner[q], dirs);
    }
  }

  /** A kernel mapping owns nothing. */
  lemma KernelSound(dirs: map<nat, Dir>, owner: Owners, d: nat, v: nat, e: Pte)
    requires Sound(dirs, owner) && d in dirs && v >= USER && v / NPT in dirs[d].pde
    ensures Sound(dirs[d := dirs[d].(pte := dirs[d].pte[v := e])], owner)
  {
    var dirs' := dirs[d := dirs[d].(pte := dirs[d].pte[v := e])];
    forall c | c in dirs'
      ensures Holds(c, dirs'[c], owner)
    {
      assert Holds(c, dirs[c], owner);
    }
    forall q | q in owner
      ensures InUse(q, owner[q], dirs')
    {
      assert InUse(q, owner[q], dirs);
    }
  }

  /** User memory is unmapped and goes back to the free list. */
  lemma UnmapSound(dirs: map<nat, Dir>, owner: Owners, d: nat, v: nat)
    requires Sound(dirs, owner) && d in dirs && v < USER && v in dirs[d].pte
    ensures var p := dirs[d].pte[v].page;
      && p in owner && owner[p] == User(d, v)
      && Sound(dirs[d := dirs[d].(pte := dirs[d].pte - {v})], owner[p := Free])
  {
    var p := dirs[d].pte[v].page;
    assert Holds(d, dirs[d], owner) && InUse(p, owner[p], dirs);
    var dirs', owner' := dirs[d := dirs[d].(pte := dirs[d].pte - {v})], owner[p := Free];
    forall e | e in dirs'
      ensures e in owner' && owner'[e] == Root && Holds(e, dirs'[e], owner')
    {
      assert Holds(e, dirs[e], owner);
    }
    forall q | q in owner'
      ensures InUse(q, owner'[q], dirs')
    {
      assert InUse(q, owner[q], dirs);
    }
  }

  /** A new, empty directory. */
  lemma RootSound(dirs: map<nat, Dir>, owner: Owners, p: nat)
    requires Sound(dirs, owner) && p in owner && owner[p] == InHand
    ensures p !in dirs && Sound(dirs[p := Dir(map[], map[])], owner[p := Root])
  {
    assert InUse(p, owner[p], dirs);
    var dirs', owner' := dirs[p := Dir(map[], map[])], owner[p := Root];
    forall e | e in dirs'
      ensures e in owner' && owner'[e] == Root && Holds(e, dirs'[e], owner')
    {
      assert e != p ==> Holds(e, dirs[e], owner);
    }
    forall q | q in owner'
      ensures InUse(q, owner'[q], dirs')
    {
      assert InUse(q, owner[q], dirs);
    }
  }

  /** A directory with no user memory left is let go of, its pages all in hand. */
  ghost predicate Detached(a: Owners, b: Owners, d: nat) {
    && b.Keys == a.Keys
    && forall p :: p in a ==> b[p] == if p == d || (a[p].Table? && a[p].d == d) then InHand else a[p]
  }

  lemma DetachHolds(d: nat, e: nat, dir: Dir, owner: Owners, owner': Owners)
    requires Detached(owner, owner', d) && e != d && e in owner && owner[e] == Root && Holds(e, dir, owner)
    requires d in owner && owner[d] == Root
    ensures owner'[e] == Root && Holds(e, dir, owner')
  {
  }

  lemma DetachInUse(dirs: map<nat, Dir>, owner: Owners, d: nat, owner': Owners, q: nat)
    requires Detached(owner, owner', d) && d in dirs && q in owner && InUse(q, owner[q], dirs)
    requires forall v :: v in dirs[d].pte ==> v >= USER
    ensures InUse(q, owner'[q], dirs - {d})
  {
  }

  lemma DetachSound(dirs: map<nat, Dir>, owner: Owners, d: nat, owner': Owners)
    requires Sound(dirs, owner) && d in dirs && Detached(owner, owner', d)
    requires forall v :: v in dirs[d].pte ==> v >= USER
    ensures Sound(dirs - {d}, owner')
  {
    var dirs' := dirs - {d};
    forall e | e in dirs'
      ensures e in owner' && owner'[e] == Root && Holds(e, dirs'[e], owner')
    {
      assert Holds(e, dirs[e], owner) && Holds(d, dirs[d], owner);
      DetachHolds(d, e, dirs[e], owner, owner');
    }
    forall q | q in owner'
      ensures InUse(q, owner'[q], dirs')
    {
      DetachInUse(dirs, owner, d, owner', q);
    }
  }
}

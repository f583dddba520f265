/**
 * fs.c's inode cache. Each method is one atomic step, taken under icache.lock, under an entry's sleep lock, or on a
 * disk block, so any sequence of them is an interleaving of processes. The cache is shown to stand for the plain
 * sequence of inodes that FileSystem works on.
 */
module InodeCache {
  import opened Volume
  import opened Common

  /** struct inode: what is protected by icache.lock, by the sleep lock, and the copy of the dinode. */
  datatype Entry = Entry(inum: nat, ref: nat, valid: bool, lock: Option<nat>, copy: Inode)

  /** Doomed: iput has found no links and no other reference. Erased: it has freed the inode on disk as well. */
  datatype Stage = Plain | Doomed | Erased

  /** Who holds references, how far an iput has come and who looked the inode up meanwhile, and whether the copy was
      changed since it last agreed with the disk. */
  datatype Tag = Tag(refs: multiset<nat>, stage: Stage, late: multiset<nat>, changed: bool)

  /** The entry answers for its inode. */
  ghost predicate Shows(e: Entry, g: Tag) {
    e.ref > 0 && e.valid && g.stage != Erased
  }

  /** The copy of a valid entry against its inode on disk. */
  ghost predicate Current(e: Entry, g: Tag, d: seq<Inode>) {
    && e.inum < |d|
    && if g.stage == Erased then e.copy.kind == 0 && !g.changed
       else e.copy.kind != 0 && d[e.inum].kind != 0 && (!g.changed ==> e.copy == d[e.inum])
  }

  ghost predicate SlotOk(e: Entry, g: Tag, d: seq<Inode>) {
    && |g.refs| == e.ref
    && (e.lock.Some? ==> e.lock.value in g.refs)
    && (g.stage == Plain ==> g.late == multiset{})
    && (g.stage != Plain ==> e.lock.Some? && e.valid && e.copy.nlink == 0 && g.refs == multiset{e.lock.value} + g.late)
    && (e.ref > 0 && e.valid ==> Current(e, g, d))
  }

  /** One referenced entry per inode. */
  ghost predicate Unique(es: seq<Entry>) {
    forall j, k :: 0 <= j < k < |es| && es[j].ref > 0 && es[k].ref > 0 ==> es[j].inum != es[k].inum
  }

  ghost predicate Uncached(es: seq<Entry>, gs: seq<Tag>, i: nat)
    requires |gs| == |es|
  {
    forall k :: 0 <= k < |es| && Shows(es[k], gs[k]) ==> es[k].inum != i
  }

  /** The cache over disk `d` stands for the inodes `v`: an entry's copy where one answers, the disk elsewhere. */
  ghost predicate Stands(es: seq<Entry>, gs: seq<Tag>, d: seq<Inode>, v: seq<Inode>) {
    && |gs| == |es| && |v| == |d|
    && (forall k :: 0 <= k < |es| && Shows(es[k], gs[k]) ==> es[k].inum < |v| && v[es[k].inum] == es[k].copy)
    && (forall i :: 0 <= i < |d| && Uncached(es, gs, i) ==> v[i] == d[i])
  }

  ghost predicate Sound(es: seq<Entry>, gs: seq<Tag>, d: seq<Inode>, v: seq<Inode>) {
    && |gs| == |es| && Unique(es) && Stands(es, gs, d, v)
    && forall k :: 0 <= k < |es| ==> SlotOk(es[k], gs[k], d)
  }

  /** Disk and plain inodes change at most at `i`. */
  ghost predicate Only(a: seq<Inode>, b: seq<Inode>, i: nat) {
    |b| == |a| && forall j :: 0 <= j < |a| && j != i ==> b[j] == a[j]
  }

  /** Write-through: unless some copy is changed and not yet written, the plain inodes are those on disk. */
  lemma WriteThrough(es: seq<Entry>, gs: seq<Tag>, d: seq<Inode>, v: seq<Inode>)
    requires Sound(es, gs, d, v) && forall k :: 0 <= k < |es| && Shows(es[k], gs[k]) ==> !gs[k].changed
    ensures v == d
  {
    forall i | 0 <= i < |d|
      ensures v[i] == d[i]
    {
      if !Uncached(es, gs, i) {
        var k :| 0 <= k < |es| && Shows(es[k], gs[k]) && es[k].inum == i;
        assert SlotOk(es[k], gs[k], d);
      }
    }
  }

  /** An entry that does not answer leaves its inode to the disk. */
  lemma Hidden(es: seq<Entry>, gs: seq<Tag>, d: seq<Inode>, v: seq<Inode>, k: nat)
    requires Sound(es, gs, d, v) && k < |es| && es[k].ref > 0 && !Shows(es[k], gs[k]) && es[k].inum < |d|
    ensures v[es[k].inum] == d[es[k].inum]
  {
    assert Uncached(es, gs, es[k].inum);
  }

  /** A step on a referenced entry, on its inode on disk, and on nothing else. */
  lemma Stepped(es: seq<Entry>, gs: seq<Tag>, d: seq<Inode>, v: seq<Inode>, k: nat, e: Entry, g: Tag, d': seq<Inode>,
                v': seq<Inode>)
    requires Sound(es, gs, d, v) && k < |es| && es[k].ref > 0 && e.inum == es[k].inum && SlotOk(e, g, d')
    requires Only(d, d', e.inum) && Only(v, v', e.inum)
    requires Shows(e, g) ==> v'[e.inum] == e.copy
    requires !Shows(e, g) && e.inum < |d| ==> v'[e.inum] == d'[e.inum]
    ensures Sound(es[k := e], gs[k := g], d', v')
  {
    var fs, hs := es[k := e], gs[k := g];
    forall j | 0 <= j < |fs|
      ensures SlotOk(fs[j], hs[j], d')
      ensures Shows(fs[j], hs[j]) ==> fs[j].inum < |v'| && v'[fs[j].inum] == fs[j].copy
    {
      assert SlotOk(es[j], gs[j], d);
    }
    forall i | 0 <= i < |d'| && Uncached(fs, hs, i)
      ensures v'[i] == d'[i]
    {
      if i != e.inum {
        SameUncached(es, gs, fs, hs, k, i);
      } else {
        assert !Shows(fs[k], hs[k]);
      }
    }
  }

  lemma SameUncached(es: seq<Entry>, gs: seq<Tag>, fs: seq<Entry>, hs: seq<Tag>, k: nat, i: nat)
    requires |gs| == |es| && k < |es| && |fs| == |es| && |hs| == |es| && fs == es[k := fs[k]] && hs == gs[k := hs[k]]
    requires Uncached(fs, hs, i) && (Shows(es[k], gs[k]) ==> es[k].inum != i)
    ensures Uncached(es, gs, i)
  {
    forall j | 0 <= j < |es| && Shows(es[j], gs[j])
      ensures es[j].inum != i
    {
      assert j != k ==> fs[j] == es[j] && hs[j] == gs[j];
    }
  }

  /** iget gives an unreferenced entry to an inode that has none. */
  lemma Recycled(es: seq<Entry>, gs: seq<Tag>, d: seq<Inode>, v: seq<Inode>, k: nat, inum: nat, pid: nat)
    requires Sound(es, gs, d, v) && k < |es| && es[k].ref == 0
    requires forall j :: 0 <= j < |es| && es[j].ref > 0 ==> es[j].inum != inum
    ensures es[k].lock == None
    ensures Sound(es[k := Fresh(es[k], inum)], gs[k := Tag(multiset{pid}, Plain, multiset{}, false)], d, v)
  {
    assert SlotOk(es[k], gs[k], d);
    assert gs[k].refs == multiset{};
    var fs, hs := es[k := Fresh(es[k], inum)], gs[k := Tag(multiset{pid}, Plain, multiset{}, false)];
    forall i | 0 <= i < |d| && Uncached(fs, hs, i)
      ensures v[i] == d[i]
    {
      SameUncached(es, gs, fs, hs, k, i);
    }
  }

  function Fresh(e: Entry, inum: nat): (r: Entry) {
    e.(inum := inum, ref := 1, valid := false)
  }

  /** A valid entry of an inode that is free on disk belongs to an iput that has erased it and still holds the lock. */
  lemma FreeOnDisk(es: seq<Entry>, gs: seq<Tag>, d: seq<Inode>, v: seq<Inode>, k: nat)
    requires Sound(es, gs, d, v) && k < |es| && es[k].ref > 0 && es[k].valid && es[k].inum < |d|
    requires d[es[k].inum].kind == 0
    ensures gs[k].stage == Erased && es[k].lock.Some?
  {
    assert SlotOk(es[k], gs[k], d);
  }

  /** ialloc writes the disk alone, and no entry has to know. */
  lemma Marked(es: seq<Entry>, gs: seq<Tag>, d: seq<Inode>, v: seq<Inode>, i: nat, kind: int)
    requires Sound(es, gs, d, v) && i < |d| && d[i].kind == 0 && kind != 0
    ensures Sound(es, gs, d[i := Blank(kind)], v[i := Blank(kind)])
    ensures Uncached(es, gs, i) && v[i] == d[i]
  {
    forall k | 0 <= k < |es|
      ensures SlotOk(es[k], gs[k], d[i := Blank(kind)])
      ensures Shows(es[k], gs[k]) ==> es[k].inum != i
    {
      assert SlotOk(es[k], gs[k], d);
    }
  }

  /** What iput leaves of an inode: itrunc, then type 0. */
  function Freed(n: Inode): (r: Inode) {
    n.(kind := 0, size := 0, addrs := seq(|n.addrs|, _ => 0))
  }

  /** One more reference for `pid`, who comes late if the inode is being freed. */
  function More(g: Tag, pid: nat): (r: Tag) {
    g.(refs := g.refs + multiset{pid}, late := if g.stage == Plain then g.late else g.late + multiset{pid})
  }

  function Less(g: Tag, pid: nat): (r: Tag) {
    g.(refs := g.refs - multiset{pid}, late := if g.stage == Plain then g.late else g.late - multiset{pid})
  }

  lemma Referenced(es: seq<Entry>, gs: seq<Tag>, d: seq<Inode>, v: seq<Inode>, k: nat, pid: nat)
    requires Sound(es, gs, d, v) && k < |es| && es[k].ref > 0
    ensures Sound(es[k := es[k].(ref := es[k].ref + 1)], gs[k := More(gs[k], pid)], d, v)
  {
    assert SlotOk(es[k], gs[k], d);
    if !Shows(es[k], gs[k]) && es[k].inum < |d| {
      Hidden(es, gs, d, v, k);
    }
    Stepped(es, gs, d, v, k, es[k].(ref := es[k].ref + 1), More(gs[k], pid), d, v);
  }

  /** The plain inodes once entry `e` has lost its last reference. */
  function Forgotten(e: Entry, d: seq<Inode>, v: seq<Inode>): (r: seq<Inode>)
    requires |v| == |d|
  {
    if e.ref == 1 && e.inum < |d| then v[e.inum := d[e.inum]] else v
  }

  lemma LessOk(e: Entry, g: Tag, d: seq<Inode>, pid: nat)
    requires SlotOk(e, g, d) && pid in g.refs && e.lock != Some(pid)
    ensures e.ref > 0 && SlotOk(e.(ref := e.ref - 1), Less(g, pid), d)
  {
    assert |g.refs - multiset{pid}| == |g.refs| - 1;
    if g.stage != Plain {
      var m := multiset{e.lock.value};
      assert pid !in m && pid in g.late;
      assert m + g.late - multiset{pid} == m + (g.late - multiset{pid});
    }
  }

  /** A reference is dropped. Nothing is lost with the last one unless a change was never written to disk. */
  lemma Unreferenced(es: seq<Entry>, gs: seq<Tag>, d: seq<Inode>, v: seq<Inode>, k: nat, pid: nat)
    requires Sound(es, gs, d, v) && k < |es| && pid in gs[k].refs && es[k].lock != Some(pid)
    ensures es[k].ref > 0
    ensures Sound(es[k := es[k].(ref := es[k].ref - 1)], gs[k := Less(gs[k], pid)], d, Forgotten(es[k], d, v))
    ensures (es[k].valid ==> !gs[k].changed) ==> Forgotten(es[k], d, v) == v
  {
    assert SlotOk(es[k], gs[k], d);
    LessOk(es[k], gs[k], d, pid);
    if !Shows(es[k], gs[k]) && es[k].inum < |d| {
      Hidden(es, gs, d, v, k);
    }
    Stepped(es, gs, d, v, k, es[k].(ref := es[k].ref - 1), Less(gs[k], pid), d, Forgotten(es[k], d, v));
  }

  lemma LockOk(e: Entry, g: Tag, d: seq<Inode>, lock: Option<nat>)
    requires SlotOk(e, g, d) && g.stage == Plain && (lock.Some? ==> lock.value in g.refs)
    ensures SlotOk(e.(lock := lock), g, d)
  {
  }

  lemma OnlyOne(m: multiset<nat>, x: nat)
    requires |m| == 1 && x in m
    ensures m == multiset{x}
  {
    assert m == multiset{x} + (m - multiset{x});
    assert |m - multiset{x}| == 0;
  }

  /** Every change was written to disk before its inode was unlocked, as iupdate asks of its callers. */
  ghost predicate Tidied(es: seq<Entry>, gs: seq<Tag>) {
    |gs| == |es| && forall k :: 0 <= k < |gs| ==> TidiedAt(es[k], gs[k])
  }

  ghost predicate TidiedAt(e: Entry, g: Tag) {
    g.changed ==> e.lock.Some?
  }

  lemma TidiedStep(es: seq<Entry>, gs: seq<Tag>, k: nat, e: Entry, g: Tag)
    requires Tidied(es, gs) && k < |es|
    ensures Tidied(es[k := e], gs[k := g]) <==> TidiedAt(e, g)
  {
    var fs, hs := es[k := e], gs[k := g];
    assert fs[k] == e && hs[k] == g;
  }

  class Icache {
    var entries: seq<Entry>
    var dinodes: seq<Inode>
    ghost var tags: seq<Tag>
    /** The inodes the cache stands for. */
    ghost var core: seq<Inode>

    ghost predicate Valid()
      reads this
    {
      Sound(entries, tags, dinodes, core)
    }

    /** The process is in the middle of freeing an inode, and will do nothing else before it is done. */
    ghost predicate Freeing(pid: nat)
      reads this
    {
      exists k :: 0 <= k < |entries| && k < |tags| && tags[k].stage != Plain && entries[k].lock == Some(pid)
    }

    ghost predicate Refers(pid: nat, k: nat)
      reads this
    {
      k < |entries| && k < |tags| && pid in tags[k].refs
    }

    ghost predicate Holds(pid: nat, k: nat)
      reads this
    {
      k < |entries| && k < |tags| && entries[k].lock == Some(pid)
    }

    ghost predicate Tidy()
      reads this
    {
      Tidied(entries, tags)
    }

    /** An unlocked valid entry is its inode on disk. */
    lemma UnlockedCurrent(k: nat)
      requires Valid() && Tidy() && k < |entries| && entries[k].ref > 0 && entries[k].valid && entries[k].lock.None?
      ensures entries[k].inum < |dinodes| == |core|
      ensures entries[k].copy == dinodes[entries[k].inum] == core[entries[k].inum]
    {
      assert SlotOk(entries[k], tags[k], dinodes) && TidiedAt(entries[k], tags[k]);
      assert Shows(entries[k], tags[k]);
    }

    /** iinit: nothing cached. */
    constructor (n: nat, dinodes: seq<Inode>)
      ensures Valid() && Tidy() && |entries| == n && this.dinodes == dinodes && core == dinodes
      ensures forall k :: 0 <= k < n ==> entries[k].ref == 0
    {
      this.dinodes, core := dinodes, dinodes;
      entries := seq(n, _ => Entry(0, 0, false, None, Blank(0)));
      tags := seq(n, _ => Tag(multiset{}, Plain, multiset{}, false));
    }

    /** iget's scan: the entry that has the inode, and the first that is free. */
    method Scan(inum: nat) returns (found: Option<nat>, empty: Option<nat>)
      ensures found.Some? ==>
                found.value < |entries| && entries[found.value].ref > 0 && entries[found.value].inum == inum
      ensures found.None? ==> forall k :: 0 <= k < |entries| && entries[k].ref > 0 ==> entries[k].inum != inum
      ensures found.None? && empty.None? ==> forall k :: 0 <= k < |entries| ==> entries[k].ref > 0
      ensures empty.Some? ==> empty.value < |entries| && entries[empty.value].ref == 0
      ensures empty.Some? ==> forall k :: 0 <= k < empty.value ==> entries[k].ref > 0
    {
      found, empty := None, None;
      var k := 0;
      while k < |entries|
        invariant 0 <= k <= |entries|
        invariant forall j :: 0 <= j < k && entries[j].ref > 0 ==> entries[j].inum != inum
        invariant empty.None? ==> forall j :: 0 <= j < k ==> entries[j].ref > 0
        invariant empty.Some? ==> empty.value < k && entries[empty.value].ref == 0
        invariant empty.Some? ==> forall j :: 0 <= j < empty.value ==> entries[j].ref > 0
      {
        if entries[k].ref > 0 && entries[k].inum == inum {
          return Some(k), empty;
        }
        if empty.None? && entries[k].ref == 0 {
          empty := Some(k);
        }
        k := k + 1;
      }
    }

    /** iget: the one entry of the inode, or the first free one;
        panics exactly when every entry serves another inode. */
    method Iget(pid: nat, inum: nat) returns (r: Option<nat>)
      requires Valid() && !Freeing(pid)
      modifies this`entries, this`tags
      ensures old(Tidy()) ==> Tidy()
      ensures Valid() && |entries| == |old(entries)| == |old(tags)|
      ensures r.None? <==> forall k :: 0 <= k < |entries| ==> old(entries)[k].ref > 0 && old(entries)[k].inum != inum
      ensures r.None? ==> entries == old(entries) && tags == old(tags)
      ensures r.Some? ==> r.value < |entries| && Refers(pid, r.value) && entries[r.value].inum == inum
      ensures r.Some? && old(entries)[r.value].ref > 0 ==>
        && entries == old(entries)[r.value := old(entries)[r.value].(ref := old(entries)[r.value].ref + 1)]
        && tags == old(tags)[r.value := More(old(tags)[r.value], pid)]
      ensures r.Some? && old(entries)[r.value].ref == 0 ==>
        && (forall k :: 0 <= k < |entries| && old(entries)[k].ref > 0 ==> old(entries)[k].inum != inum)
        && (forall k :: 0 <= k < r.value ==> old(entries)[k].ref > 0)
        && entries == old(entries)[r.value := Fresh(old(entries)[r.value], inum)]
        && tags == old(tags)[r.value := Tag(multiset{pid}, Plain, multiset{}, false)]
    {
      var found, empty := Scan(inum);
      if found.Some? {
        Gain(pid, found.value);
        return found;
      }
      if empty.None? {
        return None;
      }
      Reuse(pid, empty.value, inum);
      r := empty;
    }

    /** One more reference to entry `k`. */
    method Gain(pid: nat, k: nat)
      requires Valid() && k < |entries| && entries[k].ref > 0
      modifies this`entries, this`tags
      ensures Valid() && entries == old(entries)[k := old(entries)[k].(ref := old(entries)[k].ref + 1)]
      ensures tags == old(tags)[k := More(old(tags)[k], pid)] && (old(Tidy()) ==> Tidy())
    {
      var e := entries[k].(ref := entries[k].ref + 1);
      ghost var g := More(tags[k], pid);
      Referenced(entries, tags, dinodes, core, k, pid);
      if Tidy() {
        TidiedStep(entries, tags, k, e, g);
      }
      entries, tags := entries[k := e], tags[k := g];
    }

    /** Entry `k`, free, is given to an inode that has none. */
    method Reuse(pid: nat, k: nat, inum: nat)
      requires Valid() && k < |entries| && entries[k].ref == 0
      requires forall j :: 0 <= j < |entries| && entries[j].ref > 0 ==> entries[j].inum != inum
      modifies this`entries, this`tags
      ensures Valid() && entries == old(entries)[k := Fresh(old(entries)[k], inum)]
      ensures tags == old(tags)[k := Tag(multiset{pid}, Plain, multiset{}, false)] && (old(Tidy()) ==> Tidy())
    {
      ghost var g := Tag(multiset{pid}, Plain, multiset{}, false);
      Recycled(entries, tags, dinodes, core, k, inum, pid);
      if Tidy() {
        TidiedStep(entries, tags, k, Fresh(entries[k], inum), g);
      }
      entries, tags := entries[k := Fresh(entries[k], inum)], tags[k := g];
    }

    method Idup(pid: nat, k: nat)
      requires Valid() && Refers(pid, k) && !Freeing(pid)
      modifies this`entries, this`tags
      ensures old(Tidy()) ==> Tidy()
      ensures Valid() && entries == old(entries)[k := old(entries)[k].(ref := old(entries)[k].ref + 1)]
      ensures tags == old(tags)[k := More(old(tags)[k], pid)]
    {
      assert SlotOk(entries[k], tags[k], dinodes);
      Gain(pid, k);
    }

    /** A change of entry `k` alone that leaves what it shows as it is. */
    lemma Quiet(k: nat, e: Entry, g: Tag)
      requires Valid() && k < |entries| && entries[k].ref > 0 && e.inum == entries[k].inum && e.copy == entries[k].copy
      requires SlotOk(e, g, dinodes) && (Shows(e, g) <==> Shows(entries[k], tags[k]))
      ensures Sound(entries[k := e], tags[k := g], dinodes, core)
    {
      if !Shows(e, g) && e.inum < |dinodes| {
        Hidden(entries, tags, dinodes, core, k);
      }
      Stepped(entries, tags, dinodes, core, k, e, g, dinodes, core);
    }

    /** acquiresleep returning inside ilock or iput;
        false where ilock panics, which nobody who holds a reference sees. */
    method Acquire(pid: nat, k: nat) returns (ok: bool)
      requires Valid() && Refers(pid, k) && !Freeing(pid) && entries[k].lock.None?
      modifies this`entries
      ensures old(Tidy()) ==> Tidy()
      ensures ok && Valid() && Holds(pid, k) && entries == old(entries)[k := old(entries)[k].(lock := Some(pid))]
      ensures tags[k].stage == Plain
    {
      assert SlotOk(entries[k], tags[k], dinodes);
      if entries[k].ref < 1 {
        return false;
      }
      LockOk(entries[k], tags[k], dinodes, Some(pid));
      Quiet(k, entries[k].(lock := Some(pid)), tags[k]);
      assert tags[k := tags[k]] == tags;
      entries := entries[k := entries[k].(lock := Some(pid))];
      ok := true;
    }

    /** The rest of ilock: whoever has the lock sees the inode as it is. Panics exactly on a free inode. */
    method Load(pid: nat, k: nat) returns (ok: bool)
      requires Valid() && Holds(pid, k) && !Freeing(pid) && entries[k].inum < |dinodes|
      modifies this`entries, this`tags
      ensures ok && old(Tidy()) ==> Tidy()
      ensures ok <==> old(entries)[k].valid || dinodes[old(entries)[k].inum].kind != 0
      ensures ok ==>
                Valid() && |entries| == |old(entries)| && entries[k].inum < |core| && entries[k].valid &&
                entries[k].copy == core[entries[k].inum]
      ensures ok ==>
                old(entries)[k].inum < |core| &&
                entries == old(entries)[k := old(entries)[k].(valid := true, copy := core[old(entries)[k].inum])]
      ensures ok ==> tags == old(tags)[k := old(tags)[k].(changed := old(entries)[k].valid && old(tags)[k].changed)]
    {
      ok := true;
      var e := entries[k];
      ghost var g := tags[k];
      assert SlotOk(e, g, dinodes);
      if !e.valid {
        e := e.(copy := dinodes[e.inum], valid := true);
        if e.copy.kind == 0 {
          return false;
        }
        Hidden(entries, tags, dinodes, core, k);
        Stepped(entries, tags, dinodes, core, k, e, g.(changed := false), dinodes, core);
        entries, tags := entries[k := e], tags[k := g.(changed := false)];
      } else {
        assert Shows(e, g);
      }
    }

    /** The holder changes the copy, and with it the inode as everyone after will see it. Only iput sets type 0. */
    method Modify(pid: nat, k: nat, x: Inode)
      requires Valid() && Holds(pid, k) && !Freeing(pid) && entries[k].valid && x.kind != 0
      modifies this`entries, this`tags, this`core
      ensures old(Tidy()) ==> Tidy()
      ensures Valid() && entries == old(entries)[k := old(entries)[k].(copy := x)]
      ensures old(entries)[k].inum < |old(core)| && core == old(core)[old(entries)[k].inum := x]
      ensures tags == old(tags)[k := old(tags)[k].(changed := true)]
    {
      var e := entries[k].(copy := x);
      ghost var g := tags[k].(changed := true);
      assert SlotOk(entries[k], tags[k], dinodes);
      Stepped(entries, tags, dinodes, core, k, e, g, dinodes, core[e.inum := x]);
      entries, tags, core := entries[k := e], tags[k := g], core[e.inum := x];
    }

    /** iupdate: the disk catches up with the copy. */
    method Iupdate(pid: nat, k: nat)
      requires Valid() && Holds(pid, k) && !Freeing(pid) && entries[k].valid
      modifies this`dinodes, this`tags
      ensures old(Tidy()) ==> Tidy()
      ensures Valid() && entries[k].inum < |old(dinodes)| && dinodes == old(dinodes)[entries[k].inum := entries[k].copy]
      ensures tags == old(tags)[k := old(tags)[k].(changed := false)]
    {
      var e := entries[k];
      ghost var g := tags[k].(changed := false);
      assert SlotOk(entries[k], tags[k], dinodes);
      Stepped(entries, tags, dinodes, core, k, e, g, dinodes[e.inum := e.copy], core);
      assert entries[k := e] == entries;
      dinodes, tags := dinodes[e.inum := e.copy], tags[k := g];
    }

    /** iunlock, and iput's release of the lock; false where iunlock panics, for one who does not hold the lock.
        It leaves an entry that differs from the disk exactly when its holder did not write a change. */
    method Iunlock(pid: nat, k: nat) returns (ok: bool)
      requires Valid() && k < |entries| && !Freeing(pid)
      modifies this`entries
      ensures old(Tidy()) ==> (Tidy() <==> !(old(Holds(pid, k)) && old(tags)[k].changed))
      ensures Valid() && ok == old(Holds(pid, k))
      ensures entries == if ok then old(entries)[k := old(entries)[k].(lock := None)] else old(entries)
    {
      assert SlotOk(entries[k], tags[k], dinodes);
      if entries[k].lock != Some(pid) || entries[k].ref < 1 {
        return false;
      }
      LockOk(entries[k], tags[k], dinodes, None);
      if Tidy() {
        TidiedStep(entries, tags, k, entries[k].(lock := None), tags[k]);
      }
      Quiet(k, entries[k].(lock := None), tags[k]);
      assert tags[k := tags[k]] == tags;
      entries := entries[k := entries[k].(lock := None)];
      ok := true;
    }

    /** iput's test: the inode is to be freed exactly when it has no links and this is the last reference. */
    method PutTest(pid: nat, k: nat) returns (last: bool)
      requires Valid() && Holds(pid, k) && !Freeing(pid)
      modifies this`tags
      ensures old(Tidy()) ==> Tidy()
      ensures Valid() && last == (entries[k].valid && entries[k].copy.nlink == 0 && entries[k].ref == 1)
      ensures tags == if last then old(tags)[k := old(tags)[k].(stage := Doomed)] else old(tags)
      ensures last ==> tags[k].refs == multiset{pid}
    {
      assert SlotOk(entries[k], tags[k], dinodes);
      last := false;
      if entries[k].valid && entries[k].copy.nlink == 0 {
        var r := entries[k].ref;
        if r == 1 {
          OnlyOne(tags[k].refs, pid);
          Quiet(k, entries[k], tags[k].(stage := Doomed));
          assert entries[k := entries[k]] == entries;
          tags := tags[k := tags[k].(stage := Doomed)];
          last := true;
        }
      }
    }

    /** itrunc, type 0 and iupdate. Still nobody but those who looked the inode up since the test has a reference. */
    method PutErase(pid: nat, k: nat)
      requires Valid() && Holds(pid, k) && tags[k].stage == Doomed
      modifies this`entries, this`tags, this`dinodes, this`core
      ensures old(Tidy()) ==> Tidy()
      ensures Valid() && old(entries)[k].valid && old(entries)[k].copy.nlink == 0
      ensures old(tags)[k].refs == multiset{pid} + old(tags)[k].late
      ensures entries == old(entries)[k := old(entries)[k].(copy := Freed(old(entries)[k].copy))]
      ensures tags == old(tags)[k := old(tags)[k].(stage := Erased, changed := false)]
      ensures old(entries)[k].inum < |old(dinodes)| == |old(core)|
      ensures dinodes == old(dinodes)[old(entries)[k].inum := Freed(old(entries)[k].copy)]
      ensures core == old(core)[old(entries)[k].inum := Freed(old(entries)[k].copy)]
    {
      assert SlotOk(entries[k], tags[k], dinodes);
      var e := entries[k].(copy := Freed(entries[k].copy));
      ghost var g := tags[k].(stage := Erased, changed := false);
      Stepped(entries, tags, dinodes, core, k, e, g, dinodes[e.inum := e.copy], core[e.inum := e.copy]);
      entries, tags, dinodes, core := entries[k := e], tags[k := g], dinodes[e.inum := e.copy], core[e.inum := e.copy];
    }

    /** The end of the freeing: the entry no longer counts as valid, so whoever locks it next reads the disk. */
    method PutClear(pid: nat, k: nat)
      requires Valid() && Holds(pid, k) && tags[k].stage == Erased
      modifies this`entries, this`tags
      ensures old(Tidy()) ==> Tidy()
      ensures Valid() && entries == old(entries)[k := old(entries)[k].(valid := false)]
      ensures tags == old(tags)[k := old(tags)[k].(stage := Plain, late := multiset{})]
    {
      assert SlotOk(entries[k], tags[k], dinodes);
      Quiet(k, entries[k].(valid := false), tags[k].(stage := Plain, late := multiset{}));
      entries := entries[k := entries[k].(valid := false)];
      tags := tags[k := tags[k].(stage := Plain, late := multiset{})];
    }

    /** The end of iput. Nothing is forgotten with the last reference unless a change was never written to disk. */
    method Unref(pid: nat, k: nat)
      requires Valid() && Refers(pid, k) && !Freeing(pid) && entries[k].lock != Some(pid)
      modifies this`entries, this`tags, this`core
      ensures old(Tidy()) ==> Tidy()
      ensures Valid() && old(entries)[k].ref > 0
      ensures entries == old(entries)[k := old(entries)[k].(ref := old(entries)[k].ref - 1)]
      ensures tags == old(tags)[k := Less(old(tags)[k], pid)]
      ensures |old(core)| == |dinodes| && core == Forgotten(old(entries)[k], dinodes, old(core))
      ensures (old(entries)[k].valid ==> !old(tags)[k].changed) ==> core == old(core)
    {
      assert SlotOk(entries[k], tags[k], dinodes);
      var e := entries[k].(ref := entries[k].ref - 1);
      ghost var g := Less(tags[k], pid);
      Dropped(k, pid, e, g);
      entries, tags, core := entries[k := e], tags[k := g], Forgotten(entries[k], dinodes, core);
    }

    lemma Dropped(k: nat, pid: nat, e: Entry, g: Tag)
      requires Valid() && Refers(pid, k) && entries[k].lock != Some(pid) && entries[k].ref > 0
      requires e == entries[k].(ref := entries[k].ref - 1) && g == Less(tags[k], pid)
      ensures Sound(entries[k := e], tags[k := g], dinodes, Forgotten(entries[k], dinodes, core))
      ensures (entries[k].valid ==> !tags[k].changed) ==> Forgotten(entries[k], dinodes, core) == core
      ensures Tidy() ==> Tidied(entries[k := e], tags[k := g])
    {
      Unreferenced(entries, tags, dinodes, core, k, pid);
      if Tidy() {
        TidiedStep(entries, tags, k, e, g);
      }
    }

    /** ialloc up to its iget: the lowest free inode on disk is marked, and the cache is not touched.
        A valid entry of that inode can only be that of an iput which has yet to invalidate it. */
    method Mark(kind: int) returns (r: Option<nat>)
      requires Valid() && kind != 0
      modifies this`dinodes, this`core
      ensures Valid()
      ensures r.None? <==> forall i :: 1 <= i < |old(dinodes)| ==> old(dinodes)[i].kind != 0
      ensures r.None? ==> dinodes == old(dinodes) && core == old(core)
      ensures r.Some? ==>
                1 <= r.value < |old(dinodes)| && old(dinodes)[r.value].kind == 0 && old(core)[r.value].kind == 0
      ensures r.Some? ==> forall i :: 1 <= i < r.value ==> old(dinodes)[i].kind != 0
      ensures r.Some? ==> dinodes == old(dinodes)[r.value := Blank(kind)] && core == old(core)[r.value := Blank(kind)]
      ensures r.Some? ==>
        forall k :: 0 <= k < |entries| && entries[k].ref > 0 && entries[k].valid && entries[k].inum == r.value ==>
          tags[k].stage == Erased && entries[k].lock.Some?
    {
      var i := 1;
      while i < |dinodes|
        invariant 1 <= i && dinodes == old(dinodes) && core == old(core)
        invariant forall j :: 1 <= j < i && j < |dinodes| ==> dinodes[j].kind != 0
      {
        if dinodes[i].kind == 0 {
          Marked(entries, tags, dinodes, core, i, kind);
          forall k | 0 <= k < |entries| && entries[k].ref > 0 && entries[k].valid && entries[k].inum == i
            ensures tags[k].stage == Erased && entries[k].lock.Some?
          {
            FreeOnDisk(entries, tags, dinodes, core, k);
          }
          dinodes, core := dinodes[i := Blank(kind)], core[i := Blank(kind)];
          return Some(i);
        }
        i := i + 1;
      }
      r := None;
    }
  }

  /** The window: in this run ialloc picks an inode whose entry is still valid,
      while an iput is about to invalidate it. */
  method PickedWhileValid() returns (c: Icache, r: Option<nat>)
    ensures fresh(c) && c.Valid() && r == Some(1) && |c.entries| == |c.tags| == 1 && |c.dinodes| == 2
    ensures c.entries[0].ref == 1 && c.entries[0].valid && c.entries[0].inum == 1 && c.dinodes[1] == Blank(2)
    ensures c.entries[0].lock == Some(7) && c.tags[0].stage == Erased
  {
    c := new Icache(1, [Blank(0), Blank(2)]);
    var k := c.Iget(7, 1);
    var locked := c.Acquire(7, 0);
    var loaded := c.Load(7, 0);
    var last := c.PutTest(7, 0);
    c.PutErase(7, 0);
    assert c.dinodes[1].kind == 0;
    r := c.Mark(2);
  }
}

/** Directory entries and link counts, as sysfile.c and fs.c's directory code keep them. */
module Links {

  const DIRSIZ := 14

  datatype Kind = File | Directory | Device
  datatype Dirent = Dirent(inum: nat, name: string)
  datatype Inode = Inode(kind: Kind, nlink: nat, entries: seq<Dirent>)

  /** Entry `j` of directory `d`. */
  datatype Slot = Slot(d: nat, j: nat)

  type Inodes = map<nat, Inode>

  /** A name as a directory stores it and namecmp compares it. */
  function Key(name: string): (k: string) {
    if |name| > DIRSIZ then name[..DIRSIZ] else name
  }

  predicate Linked(n: Inode) {
    n.kind == Directory && n.nlink > 0
  }

  predicate IsSlot(m: Inodes, s: Slot) {
    s.d in m && s.j < |m[s.d].entries|
  }

  function At(m: Inodes, s: Slot): (e: Dirent)
    requires IsSlot(m, s)
  {
    m[s.d].entries[s.j]
  }

  /** Slot `s` counts towards the links of `i`: a linked directory names it there, other than as ".". */
  predicate Counts(m: Inodes, s: Slot, i: nat) {
    IsSlot(m, s) && Linked(m[s.d]) && At(m, s).inum == i && At(m, s).name != "."
  }

  /** Every slot that counts towards the links of `i`. */
  function Names(m: Inodes, i: nat): (r: set<Slot>)
    ensures forall s :: s in r <==> Counts(m, s, i)
  {
    set d, j | d in m && 0 <= j < |m[d].entries| && Counts(m, Slot(d, j), i) :: Slot(d, j)
  }

  // ---- The invariant ----

  /** nlink is the number of names, plus the links being made whose entry is not written yet. */
  ghost predicate Counted(m: Inodes, pending: multiset<nat>) {
    forall i {:trigger Links(m, i)} :: i in m ==> m[i].nlink == Links(m, i) + pending[i]
  }

  /** Links are only ever made to what is not a directory. */
  ghost predicate FilesOnly(m: Inodes, pending: multiset<nat>) {
    forall i :: i in pending ==> i in m && m[i].kind != Directory
  }

  /** "." and ".." come first, and no name is stored twice. */
  ghost predicate Tidy(d: nat, n: Inode) {
    && |n.entries| >= 2
    && n.entries[0] == Dirent(d, ".") && n.entries[1].name == ".." && n.entries[1].inum != 0
    && UniqueNames(n.entries)
    && (n.nlink == 0 ==> Bare(n.entries))
  }

  ghost predicate UniqueNames(es: seq<Dirent>) {
    forall j, k :: 0 <= j < k < |es| && es[j].inum != 0 && es[k].inum != 0 ==> es[j].name != es[k].name
  }

  /** Nothing but "." and "..". */
  predicate Bare(es: seq<Dirent>) {
    forall k :: 2 <= k < |es| ==> es[k].inum == 0
  }

  /** A proper entry: not one of the two dots. */
  predicate Proper(m: Inodes, s: Slot, i: nat) {
    Counts(m, s, i) && s.j >= 2
  }

  /** Each linked directory but the root has one proper entry, in the directory its ".." names. */
  ghost predicate Tree(m: Inodes, root: nat) {
    && root in m && Linked(m[root]) && |m[root].entries| >= 2 && m[root].entries[1].inum == root
    && (forall s :: !Proper(m, s, root))
    && (forall s, t, c :: c in m && m[c].kind == Directory && Proper(m, s, c) && Proper(m, t, c) ==> s == t)
    && (forall c {:trigger HasParent(m, c)} :: c in m && Linked(m[c]) && c != root ==> HasParent(m, c))
  }

  ghost predicate HasParent(m: Inodes, c: nat)
    requires c in m
  {
    |m[c].entries| >= 2 && exists k :: Proper(m, Slot(m[c].entries[1].inum, k), c)
  }

  /** Directory `c` is deeper than its parent. */
  ghost predicate Deeper(m: Inodes, depth: map<nat, nat>, c: nat)
    requires c in m
  {
    |m[c].entries| >= 2 && c in depth && m[c].entries[1].inum in depth && depth[m[c].entries[1].inum] < depth[c]
  }

  ghost predicate Ranked(m: Inodes, root: nat, depth: map<nat, nat>) {
    && root in depth
    && forall c {:trigger Deeper(m, depth, c)} :: c in m && Linked(m[c]) && c != root ==> Deeper(m, depth, c)
  }

  /** No cycle of directories hangs loose: with Tree, every linked directory reaches the root (ReachesRoot). */
  ghost predicate Rooted(m: Inodes, root: nat) {
    exists depth :: Ranked(m, root, depth)
  }

  ghost predicate Sound(m: Inodes, root: nat, pending: multiset<nat>) {
    && 0 !in m
    && Counted(m, pending) && FilesOnly(m, pending)
    && Shaped(m)
    && Resolved(m)
    && Tree(m, root)
    && Rooted(m, root)
  }

  /** Where `n` steps through ".." lead from directory `c`. */
  function Climb(m: Inodes, c: nat, n: nat): (p: nat)
    decreases n
  {
    if n == 0 || c !in m || |m[c].entries| < 2 then c else Climb(m, m[c].entries[1].inum, n - 1)
  }

  lemma ParentLinked(m: Inodes, root: nat, c: nat)
    requires Tree(m, root) && c in m && Linked(m[c]) && c != root
    ensures |m[c].entries| >= 2 && m[c].entries[1].inum in m && Linked(m[m[c].entries[1].inum])
  {
    assert HasParent(m, c);
  }

  lemma {:induction false} ClimbsToRoot(m: Inodes, root: nat, depth: map<nat, nat>, c: nat) returns (n: nat)
    requires Tree(m, root) && Ranked(m, root, depth) && c in m && Linked(m[c])
    ensures Climb(m, c, n) == root
    decreases if c in depth then depth[c] else 0
  {
    n := 0;
    if c != root {
      assert Deeper(m, depth, c);
      ParentLinked(m, root, c);
      var k := ClimbsToRoot(m, root, depth, m[c].entries[1].inum);
      n := k + 1;
    }
  }

  /** Directories form one tree: from every linked directory finitely many steps through ".." lead to the root. */
  lemma ReachesRoot(m: Inodes, root: nat, pending: multiset<nat>, c: nat) returns (n: nat)
    requires Sound(m, root, pending) && c in m && Linked(m[c])
    ensures Climb(m, c, n) == root
  {
    var depth :| Ranked(m, root, depth);
    n := ClimbsToRoot(m, root, depth, c);
  }

  /** Directory `c` of `b` is a linked one of `a` with the same parent. */
  ghost predicate Stayed(a: Inodes, b: Inodes, c: nat)
    requires c in b
  {
    c in a && Linked(a[c]) && |b[c].entries| >= 2 && |a[c].entries| >= 2 && b[c].entries[1] == a[c].entries[1]
  }

  /** Fewer linked directories under the same parents keep their depths. */
  lemma RootedStill(a: Inodes, b: Inodes, root: nat)
    requires Rooted(a, root)
    requires forall c {:trigger Stayed(a, b, c)} :: c in b && Linked(b[c]) && c != root ==> Stayed(a, b, c)
    ensures Rooted(b, root)
  {
    var depth :| Ranked(a, root, depth);
    forall c | c in b && Linked(b[c]) && c != root
      ensures Deeper(b, depth, c)
    {
      assert Stayed(a, b, c) && Deeper(a, depth, c);
    }
    assert Ranked(b, root, depth);
  }

  /** The same for a sound state whose linked directories keep their second entry. */
  lemma RootedSame(a: Inodes, b: Inodes, root: nat)
    requires Rooted(a, root) && Shaped(a)
    requires forall c :: c in b && Linked(b[c]) ==>
               c in a && Linked(a[c]) && Second(b[c].entries) == Second(a[c].entries)
    ensures Rooted(b, root)
  {
    forall c | c in b && Linked(b[c]) && c != root
      ensures Stayed(a, b, c)
    {
      assert Tidy(c, a[c]);
    }
    RootedStill(a, b, root);
  }

  /** The entry "..", when there is one. */
  function Second(es: seq<Dirent>): (r: seq<Dirent>) {
    if |es| >= 2 then [es[1]] else []
  }

  /** A new directory is one deeper than its parent. */
  lemma RootedMore(m: Inodes, c: Inodes, b: Inodes, root: nat, i: nat, d: nat)
    requires Tree(m, root) && Rooted(m, root) && i !in m && d in m && Linked(m[d]) && b.Keys == m.Keys + {i}
    requires c == m[i := Inode(Directory, 1, Dots(i, d))] && b[i] == c[i]
    requires forall k :: k in m ==> Linked(b[k]) == Linked(m[k]) && |b[k].entries| >= |m[k].entries|
    requires forall k :: k in m && |m[k].entries| >= 2 ==> b[k].entries[1] == m[k].entries[1]
    ensures Rooted(b, root)
  {
    var depth :| Ranked(m, root, depth);
    assert d in depth by {
      assert d != root ==> Deeper(m, depth, d);
    }
    var deep := depth[i := depth[d] + 1];
    forall k | k in b && Linked(b[k]) && k != root
      ensures Deeper(b, deep, k)
    {
      if k != i {
        assert Deeper(m, depth, k);
        ParentLinked(m, root, k);
      }
    }
    assert Ranked(b, root, deep);
  }

  ghost predicate Shaped(m: Inodes) {
    forall d :: d in m ==> if m[d].kind == Directory then Tidy(d, m[d]) else m[d].entries == []
  }

  /** No linked directory names an inode that is not there. */
  ghost predicate Resolved(m: Inodes) {
    forall s, i :: i != 0 && Counts(m, s, i) ==> i in m
  }

  // ---- Counting ----

  /** The same slots count for the same inodes, but for slot `x`. */
  ghost predicate SameElse(a: Inodes, b: Inodes, x: Slot) {
    forall s, i {:trigger Counts(a, s, i)} {:trigger Counts(b, s, i)} :: i != 0 && s != x ==>
      (Counts(a, s, i) <==> Counts(b, s, i))
  }

  ghost predicate SameCounts(a: Inodes, b: Inodes) {
    forall s, i {:trigger Counts(a, s, i)} {:trigger Counts(b, s, i)} :: i != 0 ==>
      (Counts(a, s, i) <==> Counts(b, s, i))
  }

  function Links(m: Inodes, i: nat): (n: nat) {
    |Names(m, i)|
  }

  lemma LinksMore(a: Inodes, b: Inodes, x: Slot, i: nat)
    requires i != 0 && SameElse(a, b, x) && !Counts(a, x, i) && Counts(b, x, i)
    ensures Links(b, i) == Links(a, i) + 1
  {
    assert Names(b, i) == Names(a, i) + {x};
  }

  lemma LinksLess(a: Inodes, b: Inodes, x: Slot, i: nat)
    requires i != 0 && SameElse(a, b, x) && Counts(a, x, i) && !Counts(b, x, i)
    ensures Links(b, i) == Links(a, i) - 1
  {
    assert Names(a, i) == Names(b, i) + {x};
  }

  lemma LinksStay(a: Inodes, b: Inodes, x: Slot, i: nat)
    requires i != 0 && SameElse(a, b, x) && (Counts(a, x, i) <==> Counts(b, x, i))
    ensures Links(b, i) == Links(a, i)
  {
    assert Names(a, i) == Names(b, i);
  }

  /** One slot decides how the count changes. */
  lemma LinksElse(a: Inodes, b: Inodes, x: Slot, i: nat)
    requires i != 0 && SameElse(a, b, x)
    ensures Links(b, i) - Links(a, i) == (if Counts(b, x, i) then 1 else 0) - (if Counts(a, x, i) then 1 else 0)
  {
    if Counts(a, x, i) == Counts(b, x, i) {
      LinksStay(a, b, x, i);
    } else if Counts(b, x, i) {
      LinksMore(a, b, x, i);
    } else {
      LinksLess(a, b, x, i);
    }
  }

  lemma LinksSame(a: Inodes, b: Inodes, i: nat)
    requires i != 0 && SameCounts(a, b)
    ensures Links(b, i) == Links(a, i)
  {
    assert Names(a, i) == Names(b, i);
  }

  // ---- The link counts of files ----

  /** `b` is `a` with another link count on `i`, which is not a directory. */
  ghost predicate Relinked(a: Inodes, b: Inodes, i: nat) {
    && i in a && a[i].kind != Directory && b.Keys == a.Keys
    && (forall k :: k in a && k != i ==> b[k] == a[k])
    && b[i].kind == a[i].kind && b[i].entries == a[i].entries
  }

  lemma RelinkedSame(a: Inodes, b: Inodes, i: nat)
    requires Relinked(a, b, i)
    ensures SameCounts(a, b)
    ensures Shaped(a) ==> Shaped(b)
  {
  }

  lemma SameResolved(a: Inodes, b: Inodes)
    requires Resolved(a) && SameCounts(a, b) && a.Keys <= b.Keys
    ensures Resolved(b)
  {
  }

  lemma RelinkedCounted(m: Inodes, b: Inodes, pending: multiset<nat>, i: nat, pending': multiset<nat>)
    requires 0 !in m && Counted(m, pending) && Relinked(m, b, i) && SameCounts(m, b)
    requires b[i].nlink == Links(m, i) + pending'[i] && forall k :: k != i ==> pending'[k] == pending[k]
    ensures Counted(b, pending')
  {
    forall k | k in b
      ensures b[k].nlink == Links(b, k) + pending'[k]
    {
      LinksSame(m, b, k);
    }
  }

  lemma RelinkedFiles(m: Inodes, b: Inodes, pending: multiset<nat>, i: nat, pending': multiset<nat>)
    requires FilesOnly(m, pending) && Relinked(m, b, i) && forall k :: k != i ==> pending'[k] == pending[k]
    ensures FilesOnly(b, pending')
  {
  }

  /** A change of link count on something that is not a directory, matched by a link under way. */
  lemma PendingSound(m: Inodes, root: nat, pending: multiset<nat>, b: Inodes, i: nat, pending': multiset<nat>)
    requires Sound(m, root, pending) && Relinked(m, b, i)
    requires b[i].nlink == Links(m, i) + pending'[i] && forall k :: k != i ==> pending'[k] == pending[k]
    ensures Sound(b, root, pending')
  {
    RelinkedSame(m, b, i);
    SameResolved(m, b);
    RelinkedCounted(m, b, pending, i, pending');
    RelinkedFiles(m, b, pending, i, pending');
    RelinkedTree(m, b, root, i);
    RootedSame(m, b, root);
  }

  lemma RelinkedTree(m: Inodes, b: Inodes, root: nat, i: nat)
    requires 0 !in m && Tree(m, root) && Relinked(m, b, i) && SameCounts(m, b)
    ensures Tree(b, root)
  {
    SameTree(m, b, root);
  }

  lemma SameTree(a: Inodes, b: Inodes, root: nat)
    requires 0 !in a && Tree(a, root) && SameCounts(a, b) && a.Keys == b.Keys
    requires forall c :: c in a ==>
               b[c].kind == a[c].kind && b[c].entries == a[c].entries && (Linked(a[c]) <==> Linked(b[c]))
    ensures Tree(b, root)
  {
    forall c | c in b && Linked(b[c]) && c != root
      ensures HasParent(b, c)
    {
      assert HasParent(a, c);
      var k :| Proper(a, Slot(a[c].entries[1].inum, k), c);
      assert Proper(b, Slot(b[c].entries[1].inum, k), c);
    }
    forall s, t, c | c in b && b[c].kind == Directory && Proper(b, s, c) && Proper(b, t, c)
      ensures s == t
    {
      assert Proper(a, s, c) && Proper(a, t, c);
    }
    forall s
      ensures !Proper(b, s, root)
    {
      assert !Proper(a, s, root);
    }
  }

  // ---- Writing an entry ----

  /** The first free slot is reused, or the directory grows by one. */
  function Put(es: seq<Dirent>, k: nat, e: Dirent): (r: seq<Dirent>)
    requires k <= |es|
  {
    if k < |es| then es[k := e] else es + [e]
  }

  ghost predicate FreeSlot(es: seq<Dirent>, k: nat) {
    2 <= k <= |es| && (k < |es| ==> es[k].inum == 0)
  }

  ghost predicate NotListed(es: seq<Dirent>, name: string) {
    forall k :: 0 <= k < |es| && es[k].inum != 0 ==> es[k].name != name
  }

  /** `b` is `a` with entry `e` written to slot `x`; nothing else changes what counts. */
  ghost predicate Wrote(a: Inodes, b: Inodes, x: Slot, e: Dirent) {
    && x.d in a && x.d in b && Linked(a[x.d]) && Linked(b[x.d])
    && x.j <= |a[x.d].entries| && b[x.d].entries == Put(a[x.d].entries, x.j, e)
    && (forall d :: d in a && d != x.d ==>
          && d in b && b[d].kind == a[d].kind && b[d].entries == a[d].entries
          && (Linked(a[d]) <==> Linked(b[d])))
    && (forall d :: d in b ==> d in a)
  }

  lemma WroteElse(a: Inodes, b: Inodes, x: Slot, e: Dirent)
    requires Wrote(a, b, x, e)
    ensures SameElse(a, b, x)
    ensures forall i :: Counts(b, x, i) <==> i == e.inum && e.name != "."
  {
  }

  /** The tree with one more proper entry, which is the first for its inode if that is a directory. */
  lemma WroteTree(a: Inodes, b: Inodes, root: nat, x: Slot, e: Dirent)
    requires Tree(a, root) && Wrote(a, b, x, e) && x.j >= 2 && e.name != "." && e.inum != root
    requires 0 !in a && forall i :: i != 0 ==> !Counts(a, x, i)
    requires e.inum in a && a[e.inum].kind != Directory
    ensures Tree(b, root)
  {
    WroteElse(a, b, x, e);
    forall c | c in b && Linked(b[c]) && c != root
      ensures HasParent(b, c)
    {
      assert HasParent(a, c);
      var k :| Proper(a, Slot(a[c].entries[1].inum, k), c);
      assert Proper(b, Slot(b[c].entries[1].inum, k), c);
    }
    forall s, t, c | c in b && b[c].kind == Directory && Proper(b, s, c) && Proper(b, t, c)
      ensures s == t
    {
      assert Proper(a, s, c) && Proper(a, t, c);
    }
    forall s
      ensures !Proper(b, s, root)
    {
      assert !Proper(a, s, root);
    }
  }

  lemma FreeCounts(m: Inodes, x: Slot)
    requires x.d in m && FreeSlot(m[x.d].entries, x.j)
    ensures forall i :: i != 0 ==> !Counts(m, x, i)
  {
  }

  lemma WroteResolved(a: Inodes, b: Inodes, x: Slot, e: Dirent)
    requires Resolved(a) && SameElse(a, b, x) && a.Keys <= b.Keys && e.inum in b
    requires forall i :: Counts(b, x, i) ==> i == e.inum
    ensures Resolved(b)
  {
  }

  lemma PutWrote(m: Inodes, b: Inodes, x: Slot, e: Dirent)
    requires x.d in m && Linked(m[x.d]) && x.j <= |m[x.d].entries|
    requires b == m[x.d := m[x.d].(entries := Put(m[x.d].entries, x.j, e))]
    ensures Wrote(m, b, x, e) && SameElse(m, b, x) && forall i :: Counts(b, x, i) <==> i == e.inum && e.name != "."
    ensures b.Keys == m.Keys && forall k :: k in m ==> b[k].nlink == m[k].nlink && b[k].kind == m[k].kind
  {
    WroteElse(m, b, x, e);
  }

  lemma FilesFewer(m: Inodes, b: Inodes, pending: multiset<nat>, i: nat)
    requires FilesOnly(m, pending) && b.Keys == m.Keys && forall k :: k in m ==> b[k].kind == m[k].kind
    ensures FilesOnly(b, pending - multiset{i})
  {
  }

  /** Writing a name for a file or device that a link under way has already counted. */
  lemma LinkSound(m: Inodes, root: nat, pending: multiset<nat>, b: Inodes, x: Slot, e: Dirent)
    requires Sound(m, root, pending) && e.inum in pending && e.name != "."
    requires x.d in m && Linked(m[x.d]) && FreeSlot(m[x.d].entries, x.j) && NotListed(m[x.d].entries, e.name)
    requires b == m[x.d := m[x.d].(entries := Put(m[x.d].entries, x.j, e))]
    ensures Sound(b, root, pending - multiset{e.inum})
  {
    FreeCounts(m, x);
    PutWrote(m, b, x, e);
    WroteResolved(m, b, x, e);
    FilesFewer(m, b, pending, e.inum);
    LinkCounted(m, pending, b, x, e);
    LinkShaped(m, b, x, e);
    WroteTree(m, b, root, x, e);
    RootedSame(m, b, root);
  }

  lemma LinkShaped(m: Inodes, b: Inodes, x: Slot, e: Dirent)
    requires Shaped(m) && x.d in m && Linked(m[x.d])
    requires FreeSlot(m[x.d].entries, x.j) && NotListed(m[x.d].entries, e.name)
    requires b == m[x.d := m[x.d].(entries := Put(m[x.d].entries, x.j, e))]
    ensures Shaped(b)
  {
  }

  lemma LinkCounted(m: Inodes, pending: multiset<nat>, b: Inodes, x: Slot, e: Dirent)
    requires Counted(m, pending) && e.inum in pending && b.Keys == m.Keys && 0 !in m
    requires forall k :: k in m ==> b[k].nlink == m[k].nlink
    requires SameElse(m, b, x) && (forall i :: i in m ==> !Counts(m, x, i))
    requires forall i :: Counts(b, x, i) <==> i == e.inum
    ensures Counted(b, pending - multiset{e.inum})
  {
    forall i | i in b
      ensures b[i].nlink == Links(b, i) + (pending - multiset{e.inum})[i]
    {
      LinksElse(m, b, x, i);
    }
  }

  // ---- Clearing an entry ----

  const EMPTY := Dirent(0, "")

  lemma ClearTree(a: Inodes, b: Inodes, root: nat, x: Slot, i: nat)
    requires 0 !in a && Tree(a, root) && Wrote(a, b, x, EMPTY) && x.j >= 2 && Counts(a, x, i)
    requires i in a && a[i].kind != Directory
    ensures Tree(b, root)
  {
    WroteElse(a, b, x, EMPTY);
    forall c | c in b && Linked(b[c]) && c != root
      ensures HasParent(b, c)
    {
      assert HasParent(a, c);
      var k :| Proper(a, Slot(a[c].entries[1].inum, k), c);
      assert Proper(b, Slot(b[c].entries[1].inum, k), c);
    }
    forall s, t, c | c in b && b[c].kind == Directory && Proper(b, s, c) && Proper(b, t, c)
      ensures s == t
    {
      assert Proper(a, s, c) && Proper(a, t, c);
    }
    forall s
      ensures !Proper(b, s, root)
    {
      assert !Proper(a, s, root);
    }
  }

  lemma ClearCounted(m: Inodes, pending: multiset<nat>, b: Inodes, x: Slot, i: nat)
    requires Counted(m, pending) && b.Keys == m.Keys && 0 !in m && i != 0
    requires forall k :: k in m ==> b[k].nlink == m[k].nlink
    requires SameElse(m, b, x) && Counts(m, x, i) && (forall k :: k != 0 ==> !Counts(b, x, k))
    ensures Counted(b, pending + multiset{i})
  {
    forall k | k in b
      ensures b[k].nlink == Links(b, k) + (pending + multiset{i})[k]
    {
      LinksElse(m, b, x, k);
    }
  }

  lemma ClearShaped(m: Inodes, b: Inodes, x: Slot)
    requires Shaped(m) && x.d in m && Linked(m[x.d]) && 2 <= x.j < |m[x.d].entries|
    requires b == m[x.d := m[x.d].(entries := m[x.d].entries[x.j := EMPTY])]
    ensures Shaped(b)
  {
  }

  /** Clearing a name of a file or device, whose link count is still to be lowered. */
  lemma ClearSound(m: Inodes, root: nat, pending: multiset<nat>, b: Inodes, x: Slot, i: nat)
    requires Sound(m, root, pending) && Proper(m, x, i) && i in m && m[i].kind != Directory
    requires b == m[x.d := m[x.d].(entries := m[x.d].entries[x.j := EMPTY])]
    ensures Sound(b, root, pending + multiset{i})
  {
    PutWrote(m, b, x, EMPTY);
    ClearCounted(m, pending, b, x, i);
    ClearShaped(m, b, x);
    ClearTree(m, b, root, x, i);
    ClearResolved(m, b, x);
    FilesMore(m, b, pending, i);
    RootedSame(m, b, root);
  }

  lemma FilesMore(m: Inodes, b: Inodes, pending: multiset<nat>, i: nat)
    requires FilesOnly(m, pending) && b.Keys == m.Keys && forall k :: k in m ==> b[k].kind == m[k].kind
    requires i in m && m[i].kind != Directory
    ensures FilesOnly(b, pending + multiset{i})
  {
  }

  lemma ClearResolved(m: Inodes, b: Inodes, x: Slot)
    requires Resolved(m) && SameElse(m, b, x) && m.Keys <= b.Keys && forall k :: k != 0 ==> !Counts(b, x, k)
    ensures Resolved(b)
  {
  }

  // ---- Removing a directory ----

  /** No linked directory's ".." names an empty directory. */
  lemma NoChildren(m: Inodes, root: nat, d: nat, c: nat)
    requires 0 !in m && Tree(m, root) && d in m && Bare(m[d].entries) && d != root
    ensures !Counts(m, Slot(c, 1), d)
  {
    assert c in m && Linked(m[c]) && c != root ==> HasParent(m, c);
  }

  lemma NamesDirectory(m: Inodes, root: nat, x: Slot, d: nat, s: Slot)
    requires 0 !in m && Shaped(m) && Tree(m, root) && Proper(m, x, d) && d in m && m[d].kind == Directory
    requires Bare(m[d].entries) && d != root && Counts(m, s, d)
    ensures s == x
  {
    assert Tidy(s.d, m[s.d]);
    NoChildren(m, root, d, s.d);
    assert s.j >= 2;
    assert Proper(m, s, d);
  }

  lemma OnlyIn(m: Inodes, i: nat, x: Slot)
    requires Counts(m, x, i) && forall s :: Counts(m, s, i) ==> s == x
    ensures Links(m, i) == 1
  {
    assert Names(m, i) == {x};
  }

  /** An empty directory has exactly one name, in the directory its ".." names. */
  lemma OneName(m: Inodes, root: nat, pending: multiset<nat>, x: Slot, d: nat)
    requires Sound(m, root, pending) && Proper(m, x, d) && d in m && m[d].kind == Directory && Bare(m[d].entries)
    ensures m[d].nlink == 1 && d != x.d && d != root && Tidy(d, m[d]) && m[d].entries[1].inum == x.d
  {
    assert d != root && Tidy(d, m[d]) && d != x.d;
    forall s | Counts(m, s, d)
      ensures s == x
    {
      NamesDirectory(m, root, x, d, s);
    }
    OnlyIn(m, d, x);
    ParentOf(m, root, x, d);
  }

  lemma ParentOf(m: Inodes, root: nat, x: Slot, d: nat)
    requires Tree(m, root) && Proper(m, x, d) && d in m && Linked(m[d]) && d != root && |m[d].entries| >= 2
    ensures m[d].entries[1].inum == x.d
  {
    assert HasParent(m, d);
    var k: nat :| Proper(m, Slot(m[d].entries[1].inum, k), d);
  }

  /** A linked directory is named by another directory's entry, or is the root and names itself. */
  lemma NameOf(m: Inodes, root: nat, d: nat) returns (s: Slot)
    requires Shaped(m) && Tree(m, root) && d in m && Linked(m[d])
    ensures Counts(m, s, d) && (d == root ==> s == Slot(root, 1)) && (d != root ==> s.j >= 2)
  {
    if d == root {
      assert Tidy(root, m[root]);
      s := Slot(root, 1);
    } else {
      assert HasParent(m, d);
      var k: nat :| Proper(m, Slot(m[d].entries[1].inum, k), d);
      s := Slot(m[d].entries[1].inum, k);
    }
  }

  /** The directory that holds it has a second name, and stays linked without this one. */
  lemma TwoNames(m: Inodes, root: nat, pending: multiset<nat>, x: Slot, d: nat)
    requires Sound(m, root, pending) && Proper(m, x, d) && d in m && Linked(m[d])
    requires d != root && Tidy(d, m[d]) && m[d].entries[1].inum == x.d
    ensures m[x.d].nlink >= 2
  {
    DotDot(m, d);
    var up := Slot(d, 1);
    var other := NameOf(m, root, x.d);
    TwoLinks(m, x.d, up, other);
  }

  lemma DotDot(m: Inodes, d: nat)
    requires d in m && Linked(m[d]) && Tidy(d, m[d])
    ensures Counts(m, Slot(d, 1), m[d].entries[1].inum)
  {
  }

  lemma TwoLinks(m: Inodes, i: nat, a: Slot, b: Slot)
    requires Counts(m, a, i) && Counts(m, b, i) && a != b
    ensures Links(m, i) >= 2
  {
    TwoIn(Names(m, i), a, b);
  }

  lemma TwoIn(s: set<Slot>, a: Slot, b: Slot)
    requires a in s && b in s && a != b
    ensures |s| >= 2
  {
    assert |s - {a} - {b}| == |s| - 2;
  }

  /** `b` is `c` with directory `d` unlinked and one link less on its parent `p`, which stays linked. */
  ghost predicate Dropped(c: Inodes, b: Inodes, d: nat, p: nat) {
    && d in c && p in c && d != p && b.Keys == c.Keys
    && (forall k :: k in c ==> b[k].kind == c[k].kind && b[k].entries == c[k].entries)
    && (forall k :: k in c && k != d && k != p ==> b[k].nlink == c[k].nlink)
    && c[d].kind == Directory && c[p].kind == Directory
    && c[d].nlink == 1 && b[d].nlink == 0 && c[p].nlink >= 2 && b[p].nlink == c[p].nlink - 1
  }

  lemma DroppedElse(c: Inodes, b: Inodes, d: nat, p: nat)
    requires Dropped(c, b, d, p) && Tidy(d, c[d]) && Bare(c[d].entries) && c[d].entries[1].inum == p
    ensures SameElse(c, b, Slot(d, 1))
    ensures (forall i :: Counts(c, Slot(d, 1), i) <==> i == p) && (forall i :: !Counts(b, Slot(d, 1), i))
  {
  }

  lemma RemovedCounted(m: Inodes, c: Inodes, b: Inodes, pending: multiset<nat>, x: Slot, d: nat)
    requires Counted(m, pending) && 0 !in m && c.Keys == m.Keys && forall k :: k in m ==> c[k].nlink == m[k].nlink
    requires SameElse(m, c, x) && (forall i :: i != 0 ==> (Counts(m, x, i) <==> i == d))
    requires forall i :: i != 0 ==> !Counts(c, x, i)
    requires Dropped(c, b, d, x.d) && SameElse(c, b, Slot(d, 1))
    requires (forall i :: Counts(c, Slot(d, 1), i) <==> i == x.d) && (forall i :: !Counts(b, Slot(d, 1), i))
    ensures Counted(b, pending)
  {
    forall k | k in b
      ensures b[k].nlink == Links(b, k) + pending[k]
    {
      LinksElse(m, c, x, k);
      LinksElse(c, b, Slot(d, 1), k);
    }
  }

  lemma RemovedTree(m: Inodes, c: Inodes, b: Inodes, root: nat, x: Slot, d: nat)
    requires 0 !in m && Tree(m, root) && Wrote(m, c, x, EMPTY) && Proper(m, x, d) && SameElse(m, c, x)
    requires d in m && Bare(m[d].entries) && d != root
    requires Dropped(c, b, d, x.d) && SameElse(c, b, Slot(d, 1)) && (forall i :: !Counts(b, Slot(d, 1), i))
    requires forall i :: i != 0 ==> !Counts(c, x, i)
    ensures Tree(b, root)
  {
    forall k | k in b && Linked(b[k]) && k != root
      ensures HasParent(b, k)
    {
      assert HasParent(m, k);
      var j: nat :| Proper(m, Slot(m[k].entries[1].inum, j), k);
      assert Proper(c, Slot(m[k].entries[1].inum, j), k);
      assert Proper(b, Slot(b[k].entries[1].inum, j), k);
    }
    forall s, t, k | k in b && b[k].kind == Directory && Proper(b, s, k) && Proper(b, t, k)
      ensures s == t
    {
      assert Proper(c, s, k) && Proper(c, t, k);
      assert Proper(m, s, k) && Proper(m, t, k);
    }
    forall s
      ensures !Proper(b, s, root)
    {
      assert !Proper(m, s, root);
      assert Proper(b, s, root) ==> Proper(c, s, root);
    }
  }

  lemma RemovedShaped(m: Inodes, c: Inodes, b: Inodes, x: Slot, d: nat)
    requires Shaped(m) && x.d in m && Linked(m[x.d]) && 2 <= x.j < |m[x.d].entries|
    requires c == m[x.d := m[x.d].(entries := m[x.d].entries[x.j := EMPTY])]
    requires Dropped(c, b, d, x.d) && Bare(c[d].entries)
    ensures Shaped(b)
  {
  }

  /** `c` is `m` with the entry of `d` in slot `x` cleared; `b` has the two link counts lowered as well. */
  ghost predicate Removed(m: Inodes, c: Inodes, b: Inodes, x: Slot, d: nat) {
    && Proper(m, x, d) && d in m && c == m[x.d := m[x.d].(entries := m[x.d].entries[x.j := EMPTY])]
    && Dropped(c, b, d, x.d)
  }

  lemma RemovedNow(m: Inodes, c: Inodes, b: Inodes, x: Slot, d: nat)
    requires Proper(m, x, d) && d in m && m[d].kind == Directory && m[d].nlink == 1 && m[x.d].nlink >= 2 && d != x.d
    requires c == m[x.d := m[x.d].(entries := m[x.d].entries[x.j := EMPTY])]
    requires b == m[x.d := Inode(Directory, m[x.d].nlink - 1, m[x.d].entries[x.j := EMPTY])]
                   [d := m[d].(nlink := m[d].nlink - 1)]
    ensures Removed(m, c, b, x, d) && c[d] == m[d]
  {
  }

  lemma RemovedSound(m: Inodes, root: nat, pending: multiset<nat>, c: Inodes, b: Inodes, x: Slot, d: nat)
    requires Sound(m, root, pending) && Removed(m, c, b, x, d) && c[d] == m[d]
    requires d != root && Tidy(d, m[d]) && Bare(m[d].entries) && m[d].entries[1].inum == x.d
    ensures Sound(b, root, pending)
  {
    PutWrote(m, c, x, EMPTY);
    DroppedElse(c, b, d, x.d);
    RemovedCounted(m, c, b, pending, x, d);
    RemovedShaped(m, c, b, x, d);
    RemovedTree(m, c, b, root, x, d);
    RootedSame(m, b, root);
    ClearResolved(m, c, x);
    ClearResolved(c, b, Slot(d, 1));
    FilesStay(m, b, pending);
  }

  /** unlink of an empty directory: its name goes, and its ".." with it. */
  lemma RemoveSound(m: Inodes, root: nat, pending: multiset<nat>, b: Inodes, x: Slot, d: nat)
    requires Sound(m, root, pending) && Proper(m, x, d) && d in m && m[d].kind == Directory && Bare(m[d].entries)
    requires m[d].nlink > 0
    requires b == m[x.d := Inode(Directory, m[x.d].nlink - 1, m[x.d].entries[x.j := EMPTY])]
                   [d := m[d].(nlink := m[d].nlink - 1)]
    ensures Sound(b, root, pending)
  {
    OneName(m, root, pending, x, d);
    TwoNames(m, root, pending, x, d);
    var c := m[x.d := m[x.d].(entries := m[x.d].entries[x.j := EMPTY])];
    RemovedNow(m, c, b, x, d);
    RemovedSound(m, root, pending, c, b, x, d);
  }

  lemma FilesStay(m: Inodes, b: Inodes, pending: multiset<nat>)
    requires FilesOnly(m, pending) && b.Keys >= m.Keys && forall k :: k in m ==> b[k].kind == m[k].kind
    ensures FilesOnly(b, pending)
  {
  }

  // ---- New inodes ----

  lemma NoNames(m: Inodes, i: nat)
    requires forall s :: !Counts(m, s, i)
    ensures Links(m, i) == 0
  {
  }

  /** Trees agree when the directories and what counts agree. */
  lemma GrowTree(a: Inodes, b: Inodes, root: nat)
    requires 0 !in a && Tree(a, root) && SameCounts(a, b) && a.Keys <= b.Keys
    requires forall c :: c in a ==> b[c] == a[c]
    requires forall c :: c in b && c !in a ==> b[c].kind != Directory
    ensures Tree(b, root)
  {
    forall c | c in b && Linked(b[c]) && c != root
      ensures HasParent(b, c)
    {
      assert HasParent(a, c);
      var k: nat :| Proper(a, Slot(a[c].entries[1].inum, k), c);
      assert Proper(b, Slot(b[c].entries[1].inum, k), c);
    }
    forall s, t, c | c in b && b[c].kind == Directory && Proper(b, s, c) && Proper(b, t, c)
      ensures s == t
    {
      assert Proper(a, s, c) && Proper(a, t, c);
    }
    forall s
      ensures !Proper(b, s, root)
    {
      assert !Proper(a, s, root);
    }
  }

  lemma NewCounted(m: Inodes, pending: multiset<nat>, b: Inodes, i: nat)
    requires 0 !in m && Counted(m, pending) && FilesOnly(m, pending) && Resolved(m) && i !in m && i != 0
    requires SameCounts(m, b) && b.Keys == m.Keys + {i} && b[i].nlink == 1 && forall k :: k in m ==> b[k] == m[k]
    ensures Counted(b, pending + multiset{i})
  {
    forall k | k in b
      ensures b[k].nlink == Links(b, k) + (pending + multiset{i})[k]
    {
      LinksSame(m, b, k);
      if k == i {
        NoNames(m, i);
      }
    }
  }

  /** ialloc and the first half of create: an inode of one link, its name still to be written. */
  lemma NewSound(m: Inodes, root: nat, pending: multiset<nat>, b: Inodes, i: nat, kind: Kind)
    requires Sound(m, root, pending) && i !in m && i != 0 && kind != Directory && b == m[i := Inode(kind, 1, [])]
    ensures Sound(b, root, pending + multiset{i})
  {
    NewSame(m, b, i, kind);
    NewCounted(m, pending, b, i);
    SameResolved(m, b);
    NewTree(m, b, root, i, kind);
    NewFiles(m, b, pending, i, kind);
    RootedSame(m, b, root);
  }

  lemma NewTree(m: Inodes, b: Inodes, root: nat, i: nat, kind: Kind)
    requires 0 !in m && Tree(m, root) && i !in m && kind != Directory && b == m[i := Inode(kind, 1, [])]
    requires SameCounts(m, b)
    ensures Tree(b, root)
  {
    GrowTree(m, b, root);
  }

  lemma NewSame(m: Inodes, b: Inodes, i: nat, kind: Kind)
    requires i !in m && kind != Directory && b == m[i := Inode(kind, 1, [])]
    ensures SameCounts(m, b) && b.Keys == m.Keys + {i} && (Shaped(m) ==> Shaped(b))
    ensures b[i].nlink == 1 && forall k :: k in m ==> b[k] == m[k]
  {
  }

  lemma NewFiles(m: Inodes, b: Inodes, pending: multiset<nat>, i: nat, kind: Kind)
    requires FilesOnly(m, pending) && i !in m && kind != Directory && b == m[i := Inode(kind, 1, [])]
    ensures FilesOnly(b, pending + multiset{i})
  {
  }

  function Dots(i: nat, p: nat): (es: seq<Dirent>) {
    [Dirent(i, "."), Dirent(p, "..")]
  }

  lemma DotsElse(m: Inodes, c: Inodes, i: nat, p: nat)
    requires i !in m && c == m[i := Inode(Directory, 1, Dots(i, p))]
    ensures SameElse(m, c, Slot(i, 1))
    ensures (forall k :: !Counts(m, Slot(i, 1), k)) && (forall k :: Counts(c, Slot(i, 1), k) <==> k == p)
  {
  }

  lemma MkdirCounted(m: Inodes, c: Inodes, b: Inodes, pending: multiset<nat>, i: nat, x: Slot)
    requires 0 !in m && Counted(m, pending) && FilesOnly(m, pending) && i !in m && i != 0 && x.d in m
    requires c.Keys == m.Keys + {i} && b.Keys == c.Keys && (forall s :: !Counts(m, s, i))
    requires SameElse(m, c, Slot(i, 1)) && SameElse(c, b, x)
    requires (forall k :: !Counts(m, Slot(i, 1), k)) && (forall k :: Counts(c, Slot(i, 1), k) <==> k == x.d)
    requires (forall k :: k != 0 ==> !Counts(c, x, k)) && (forall k :: Counts(b, x, k) <==> k == i)
    requires b[i].nlink == 1 && b[x.d].nlink == m[x.d].nlink + 1
    requires forall k :: k in m && k != x.d ==> b[k].nlink == m[k].nlink
    ensures Counted(b, pending)
  {
    NoNames(m, i);
    forall k | k in b
      ensures b[k].nlink == Links(b, k) + pending[k]
    {
      LinksElse(m, c, Slot(i, 1), k);
      LinksElse(c, b, x, k);
    }
  }

  lemma MkdirTree(m: Inodes, c: Inodes, b: Inodes, root: nat, i: nat, x: Slot)
    requires 0 !in m && Tree(m, root) && i !in m && i != 0 && x.d in m && x.j >= 2 && (forall s :: !Counts(m, s, i))
    requires c == m[i := Inode(Directory, 1, Dots(i, x.d))] && SameElse(m, c, Slot(i, 1)) && SameElse(c, b, x)
    requires b.Keys == c.Keys && Linked(b[x.d]) && Linked(m[x.d])
    requires forall k :: k in c && k != x.d ==> b[k] == c[k]
    requires |m[x.d].entries| >= 2 && |b[x.d].entries| >= 2 && b[x.d].entries[1] == m[x.d].entries[1]
    requires (forall k :: k != 0 ==> !Counts(c, x, k)) && (forall k :: Counts(b, x, k) <==> k == i)
    ensures Tree(b, root)
  {
    forall k | k in b && Linked(b[k]) && k != root
      ensures HasParent(b, k)
    {
      if k == i {
        assert Proper(b, Slot(b[k].entries[1].inum, x.j), i);
      } else {
        assert HasParent(m, k);
        var j: nat :| Proper(m, Slot(m[k].entries[1].inum, j), k);
        assert Proper(c, Slot(m[k].entries[1].inum, j), k);
        assert Proper(b, Slot(b[k].entries[1].inum, j), k);
      }
    }
    forall s, t, k | k in b && b[k].kind == Directory && Proper(b, s, k) && Proper(b, t, k)
      ensures s == t
    {
      if k != i {
        assert Proper(c, s, k) && Proper(c, t, k);
        assert Proper(m, s, k) && Proper(m, t, k);
      } else {
        MkdirOnce(m, c, b, i, x, s);
        MkdirOnce(m, c, b, i, x, t);
      }
    }
    forall s
      ensures !Proper(b, s, root)
    {
      assert !Proper(m, s, root);
      assert Proper(b, s, root) ==> Proper(c, s, root);
    }
  }

  lemma MkdirOnce(m: Inodes, c: Inodes, b: Inodes, i: nat, x: Slot, s: Slot)
    requires i != 0 && SameElse(m, c, Slot(i, 1)) && SameElse(c, b, x) && (forall t :: !Counts(m, t, i))
    requires Proper(b, s, i)
    ensures s == x
  {
  }

  lemma MkdirWrote(m: Inodes, c: Inodes, b: Inodes, i: nat, x: Slot, e: Dirent)
    requires i !in m && x.d in m && Linked(m[x.d]) && 2 <= x.j <= |m[x.d].entries|
    requires c == m[i := Inode(Directory, 1, Dots(i, x.d))]
    requires b == c[x.d := Inode(Directory, m[x.d].nlink + 1, Put(m[x.d].entries, x.j, e))]
    ensures Wrote(c, b, x, e) && b.Keys == c.Keys && c[x.d] == m[x.d]
    ensures b[x.d].entries[1] == m[x.d].entries[1]
  {
  }

  lemma MkdirShaped(m: Inodes, c: Inodes, b: Inodes, i: nat, x: Slot, e: Dirent)
    requires Shaped(m) && i !in m && x.d in m && x.d != 0 && Linked(m[x.d])
    requires FreeSlot(m[x.d].entries, x.j) && NotListed(m[x.d].entries, e.name)
    requires c == m[i := Inode(Directory, 1, Dots(i, x.d))]
    requires b == c[x.d := Inode(Directory, m[x.d].nlink + 1, Put(m[x.d].entries, x.j, e))]
    ensures Shaped(b)
  {
  }

  lemma MkdirResolved(m: Inodes, c: Inodes, b: Inodes, i: nat, x: Slot)
    requires Resolved(m) && SameElse(m, c, Slot(i, 1)) && SameElse(c, b, x) && m.Keys <= b.Keys && i in b && x.d in b
    requires (forall k :: Counts(c, Slot(i, 1), k) <==> k == x.d) && (forall k :: Counts(b, x, k) <==> k == i)
    ensures Resolved(b)
  {
  }

  /** create of a directory: two dots of its own, one more link on its parent, one entry there. */
  lemma MkdirSound(m: Inodes, root: nat, pending: multiset<nat>, b: Inodes, i: nat, x: Slot, e: Dirent)
    requires Sound(m, root, pending) && i !in m && i != 0 && e.inum == i && e.name != "."
    requires x.d in m && Linked(m[x.d]) && FreeSlot(m[x.d].entries, x.j) && NotListed(m[x.d].entries, e.name)
    requires b == m[i := Inode(Directory, 1, Dots(i, x.d))]
                   [x.d := Inode(Directory, m[x.d].nlink + 1, Put(m[x.d].entries, x.j, e))]
    ensures Sound(b, root, pending)
  {
    var c := m[i := Inode(Directory, 1, Dots(i, x.d))];
    assert forall s :: !Counts(m, s, i);
    DotsElse(m, c, i, x.d);
    MkdirWrote(m, c, b, i, x, e);
    FreeCounts(c, x);
    WroteElse(c, b, x, e);
    MkdirSteps(m, root, pending, c, b, i, x, e);
  }

  lemma MkdirSteps(m: Inodes, root: nat, pending: multiset<nat>, c: Inodes, b: Inodes, i: nat, x: Slot, e: Dirent)
    requires Sound(m, root, pending) && i !in m && i != 0 && e.inum == i && e.name != "."
    requires x.d in m && Linked(m[x.d]) && FreeSlot(m[x.d].entries, x.j) && NotListed(m[x.d].entries, e.name)
    requires c == m[i := Inode(Directory, 1, Dots(i, x.d))]
    requires b == c[x.d := Inode(Directory, m[x.d].nlink + 1, Put(m[x.d].entries, x.j, e))]
    requires SameElse(m, c, Slot(i, 1)) && SameElse(c, b, x) && (forall s :: !Counts(m, s, i))
    requires (forall k :: !Counts(m, Slot(i, 1), k)) && (forall k :: Counts(c, Slot(i, 1), k) <==> k == x.d)
    requires (forall k :: k != 0 ==> !Counts(c, x, k)) && (forall k :: Counts(b, x, k) <==> k == i)
    ensures Sound(b, root, pending)
  {
    MkdirCountedNow(m, c, b, pending, i, x, e);
    MkdirShaped(m, c, b, i, x, e);
    MkdirResolved(m, c, b, i, x);
    MkdirTreeNow(m, c, b, root, i, x, e);
    RootedMore(m, c, b, root, i, x.d);
  }

  lemma MkdirKeys(m: Inodes, c: Inodes, b: Inodes, i: nat, x: Slot, e: Dirent)
    requires i !in m && x.d in m && Linked(m[x.d]) && x.j <= |m[x.d].entries|
    requires c == m[i := Inode(Directory, 1, Dots(i, x.d))]
    requires b == c[x.d := Inode(Directory, m[x.d].nlink + 1, Put(m[x.d].entries, x.j, e))]
    ensures c.Keys == m.Keys + {i} && b.Keys == c.Keys && b[i].nlink == 1 && b[x.d].nlink == m[x.d].nlink + 1
    ensures forall k :: k in m ==> b[k].kind == m[k].kind && (k != x.d ==> b[k].nlink == m[k].nlink)
  {
  }

  lemma MkdirCountedNow(m: Inodes, c: Inodes, b: Inodes, pending: multiset<nat>, i: nat, x: Slot, e: Dirent)
    requires 0 !in m && Counted(m, pending) && FilesOnly(m, pending) && i !in m && i != 0
    requires x.d in m && Linked(m[x.d]) && x.j <= |m[x.d].entries|
    requires c == m[i := Inode(Directory, 1, Dots(i, x.d))]
    requires b == c[x.d := Inode(Directory, m[x.d].nlink + 1, Put(m[x.d].entries, x.j, e))]
    requires SameElse(m, c, Slot(i, 1)) && SameElse(c, b, x) && (forall s :: !Counts(m, s, i))
    requires (forall k :: !Counts(m, Slot(i, 1), k)) && (forall k :: Counts(c, Slot(i, 1), k) <==> k == x.d)
    requires (forall k :: k != 0 ==> !Counts(c, x, k)) && (forall k :: Counts(b, x, k) <==> k == i)
    ensures Counted(b, pending) && FilesOnly(b, pending) && 0 !in b
  {
    MkdirKeys(m, c, b, i, x, e);
    MkdirCounted(m, c, b, pending, i, x);
    FilesStay(m, b, pending);
  }

  lemma MkdirTreeNow(m: Inodes, c: Inodes, b: Inodes, root: nat, i: nat, x: Slot, e: Dirent)
    requires 0 !in m && Tree(m, root) && i !in m && i != 0 && x.d in m && 2 <= x.j <= |m[x.d].entries| && Linked(m[x.d])
    requires c == m[i := Inode(Directory, 1, Dots(i, x.d))]
    requires b == c[x.d := Inode(Directory, m[x.d].nlink + 1, Put(m[x.d].entries, x.j, e))]
    requires SameElse(m, c, Slot(i, 1)) && SameElse(c, b, x) && (forall s :: !Counts(m, s, i))
    requires (forall k :: k != 0 ==> !Counts(c, x, k)) && (forall k :: Counts(b, x, k) <==> k == i)
    ensures Tree(b, root)
  {
    MkdirWrote(m, c, b, i, x, e);
    MkdirTree(m, c, b, root, i, x);
  }

  // ---- Letting an inode go ----

  lemma ReleaseTree(m: Inodes, b: Inodes, root: nat, i: nat)
    requires 0 !in m && Tree(m, root) && i in m && i != root && m[i].nlink == 0 && SameCounts(m, b)
    requires b.Keys == m.Keys - {i} && forall k :: k in b ==> b[k] == m[k]
    ensures Tree(b, root)
  {
    forall c | c in b && Linked(b[c]) && c != root
      ensures HasParent(b, c)
    {
      assert HasParent(m, c);
      var k: nat :| Proper(m, Slot(m[c].entries[1].inum, k), c);
      assert Proper(b, Slot(b[c].entries[1].inum, k), c);
    }
    forall s, t, c | c in b && b[c].kind == Directory && Proper(b, s, c) && Proper(b, t, c)
      ensures s == t
    {
      assert Proper(m, s, c) && Proper(m, t, c);
    }
    forall s
      ensures !Proper(b, s, root)
    {
      assert !Proper(m, s, root);
    }
  }

  lemma ReleaseSame(m: Inodes, b: Inodes, i: nat)
    requires Shaped(m) && i in m && m[i].nlink == 0 && b == m - {i}
    ensures SameCounts(m, b) && Shaped(b) && b.Keys == m.Keys - {i} && forall k :: k in b ==> b[k] == m[k]
  {
  }

  lemma ReleaseCounted(m: Inodes, b: Inodes, pending: multiset<nat>, i: nat)
    requires 0 !in m && Counted(m, pending) && FilesOnly(m, pending) && pending[i] == 0 && SameCounts(m, b)
    requires b.Keys == m.Keys - {i} && forall k :: k in b ==> b[k] == m[k]
    ensures Counted(b, pending) && FilesOnly(b, pending)
  {
    forall k | k in b
      ensures b[k].nlink == Links(b, k) + pending[k]
    {
      LinksSame(m, b, k);
    }
  }

  /** A link count of zero means that no linked directory names the inode. */
  lemma Unnamed(m: Inodes, root: nat, pending: multiset<nat>, i: nat, s: Slot)
    requires Sound(m, root, pending) && i in m && m[i].nlink == 0
    ensures !Counts(m, s, i)
  {
    assert Links(m, i) == 0;
    assert Counts(m, s, i) <==> s in Names(m, i);
  }

  lemma AllUnnamed(m: Inodes, root: nat, pending: multiset<nat>, i: nat)
    requires Sound(m, root, pending) && i in m && m[i].nlink == 0
    ensures forall s :: !Counts(m, s, i)
  {
    forall s
      ensures !Counts(m, s, i)
    {
      Unnamed(m, root, pending, i, s);
    }
  }

  lemma ReleaseResolved(m: Inodes, b: Inodes, i: nat)
    requires Resolved(m) && SameCounts(m, b) && b.Keys == m.Keys - {i} && forall s :: !Counts(m, s, i)
    ensures Resolved(b)
  {
  }

  /** iput frees an inode no name leads to. */
  lemma ReleaseSound(m: Inodes, root: nat, pending: multiset<nat>, b: Inodes, i: nat)
    requires Sound(m, root, pending) && i in m && m[i].nlink == 0 && b == m - {i}
    ensures Sound(b, root, pending)
  {
    ReleaseSame(m, b, i);
    assert m[i].nlink == Links(m, i) + pending[i];
    AllUnnamed(m, root, pending, i);
    ReleaseResolved(m, b, i);
    ReleaseCounted(m, b, pending, i);
    ReleaseTree(m, b, root, i);
    RootedSame(m, b, root);
  }

  // ---- The steps of the system calls ----

  function Relink(m: Inodes, i: nat, nlink: nat): (b: Inodes)
    requires i in m
  {
    m[i := m[i].(nlink := nlink)]
  }

  function WriteEntry(m: Inodes, d: nat, es: seq<Dirent>): (b: Inodes)
    requires d in m
  {
    m[d := m[d].(entries := es)]
  }

  lemma RaiseSound(m: Inodes, root: nat, pending: multiset<nat>, i: nat)
    requires Sound(m, root, pending) && i in m && m[i].kind != Directory
    ensures Sound(Relink(m, i, m[i].nlink + 1), root, pending + multiset{i})
  {
    PendingSound(m, root, pending, Relink(m, i, m[i].nlink + 1), i, pending + multiset{i});
  }

  lemma LowerSound(m: Inodes, root: nat, pending: multiset<nat>, i: nat)
    requires Sound(m, root, pending) && i in pending
    ensures i in m && m[i].nlink > 0 && Sound(Relink(m, i, m[i].nlink - 1), root, pending - multiset{i})
  {
    assert m[i].nlink == Links(m, i) + pending[i];
    PendingSound(m, root, pending, Relink(m, i, m[i].nlink - 1), i, pending - multiset{i});
  }

  /** `k` is the first entry not in use, or the end. */
  ghost predicate FirstFree(es: seq<Dirent>, k: nat) {
    && k <= |es| && (k < |es| ==> es[k].inum == 0)
    && forall j :: 0 <= j < k ==> es[j].inum != 0
  }

  lemma FreePastDots(m: Inodes, d: nat, k: nat)
    requires Shaped(m) && 0 !in m && d in m && m[d].kind == Directory && FirstFree(m[d].entries, k)
    ensures FreeSlot(m[d].entries, k) && !NotListed(m[d].entries, ".") && !NotListed(m[d].entries, "..")
  {
  }

  lemma EntrySound(m: Inodes, root: nat, pending: multiset<nat>, d: nat, k: nat, e: Dirent)
    requires Sound(m, root, pending) && e.inum in pending && d in m && Linked(m[d])
    requires FirstFree(m[d].entries, k) && NotListed(m[d].entries, e.name)
    ensures Sound(WriteEntry(m, d, Put(m[d].entries, k, e)), root, pending - multiset{e.inum})
  {
    FreePastDots(m, d, k);
    LinkSound(m, root, pending, WriteEntry(m, d, Put(m[d].entries, k, e)), Slot(d, k), e);
  }

  /** An entry that names an inode from a linked directory means at least one link. */
  lemma NamedIsLinked(m: Inodes, root: nat, pending: multiset<nat>, s: Slot, i: nat)
    requires Sound(m, root, pending) && i != 0 && Counts(m, s, i)
    ensures i in m && m[i].nlink > 0
  {
    assert s in Names(m, i);
    assert m[i].nlink == Links(m, i) + pending[i];
  }

  /** Anything a directory lists besides the two dots is a proper entry of a linked directory. */
  lemma ListedIsProper(m: Inodes, d: nat, k: nat)
    requires Shaped(m) && 0 !in m && d in m && m[d].kind == Directory && k < |m[d].entries| && m[d].entries[k].inum != 0
    requires m[d].entries[k].name != "." && m[d].entries[k].name != ".."
    ensures Proper(m, Slot(d, k), m[d].entries[k].inum)
  {
  }

  function Unlisted(m: Inodes, d: nat, k: nat): (b: Inodes)
    requires d in m && k < |m[d].entries|
  {
    m[d := m[d].(entries := m[d].entries[k := EMPTY])]
  }

  /** unlink of a file or device. */
  lemma UnlinkSound(m: Inodes, root: nat, pending: multiset<nat>, d: nat, k: nat, i: nat)
    requires Sound(m, root, pending) && Proper(m, Slot(d, k), i) && i in m && m[i].kind != Directory
    ensures m[i].nlink > 0 && d != i && Sound(Relink(Unlisted(m, d, k), i, m[i].nlink - 1), root, pending)
  {
    NamedIsLinked(m, root, pending, Slot(d, k), i);
    var c := Unlisted(m, d, k);
    ClearSound(m, root, pending, c, Slot(d, k), i);
    LowerSound(c, root, pending + multiset{i}, i);
    assert pending + multiset{i} - multiset{i} == pending;
  }

  /** unlink of an empty directory. */
  lemma RmdirSound(m: Inodes, root: nat, pending: multiset<nat>, d: nat, k: nat, i: nat)
    requires Sound(m, root, pending) && Proper(m, Slot(d, k), i) && i in m && m[i].kind == Directory
    requires Bare(m[i].entries)
    ensures m[i].nlink > 0 && m[d].nlink > 0 && d != i
    ensures Sound(Relink(Relink(Unlisted(m, d, k), d, m[d].nlink - 1), i, m[i].nlink - 1), root, pending)
  {
    OneName(m, root, pending, Slot(d, k), i);
    var b := Relink(Relink(Unlisted(m, d, k), d, m[d].nlink - 1), i, m[i].nlink - 1);
    RemoveSound(m, root, pending, b, Slot(d, k), i);
  }

  /** The inodes after create of a file or device as entry `k` of `d`. */
  function WithFile(m: Inodes, d: nat, k: nat, e: Dirent, kind: Kind): (b: Inodes)
    requires d in m && k <= |m[d].entries|
  {
    WriteEntry(m[e.inum := Inode(kind, 1, [])], d, Put(m[d].entries, k, e))
  }

  /** The inodes after create of a directory as entry `k` of `d`, which its `..` counts in. */
  function WithDirectory(m: Inodes, d: nat, k: nat, e: Dirent): (b: Inodes)
    requires d in m && k <= |m[d].entries|
  {
    WriteEntry(Relink(m[e.inum := Inode(Directory, 1, Dots(e.inum, d))], d, m[d].nlink + 1), d, Put(m[d].entries, k, e))
  }

  /** create of a file or device. */
  lemma CreateSound(m: Inodes, root: nat, pending: multiset<nat>, d: nat, k: nat, e: Dirent, kind: Kind)
    requires Sound(m, root, pending) && d in m && Linked(m[d]) && e.inum !in m && e.inum != 0 && kind != Directory
    requires FirstFree(m[d].entries, k) && NotListed(m[d].entries, e.name)
    ensures Sound(WithFile(m, d, k, e, kind), root, pending)
  {
    var c := m[e.inum := Inode(kind, 1, [])];
    NewSound(m, root, pending, c, e.inum, kind);
    EntrySound(c, root, pending + multiset{e.inum}, d, k, e);
    assert pending + multiset{e.inum} - multiset{e.inum} == pending;
  }

  /** create of a directory. */
  lemma MkdirStep(m: Inodes, root: nat, pending: multiset<nat>, d: nat, k: nat, e: Dirent)
    requires Sound(m, root, pending) && d in m && Linked(m[d]) && e.inum !in m && e.inum != 0
    requires FirstFree(m[d].entries, k) && NotListed(m[d].entries, e.name)
    ensures Sound(WithDirectory(m, d, k, e), root, pending)
  {
    FreePastDots(m, d, k);
    var b := WithDirectory(m, d, k, e);
    MkdirSound(m, root, pending, b, e.inum, Slot(d, k), e);
  }

  lemma ListedExists(m: Inodes, root: nat, pending: multiset<nat>, d: nat, k: nat)
    requires Sound(m, root, pending) && d in m && Linked(m[d]) && k < |m[d].entries| && m[d].entries[k].inum != 0
    ensures m[d].entries[k].inum in m
  {
    assert Tidy(d, m[d]);
    assert m[d].entries[k].name != "." ==> Counts(m, Slot(d, k), m[d].entries[k].inum);
  }

  /** The inodes after unlink of entry `k` of `d`, which names `i`. */
  function Removal(m: Inodes, d: nat, k: nat, i: nat): (b: Inodes)
    requires d in m && k < |m[d].entries| && i in m && m[i].nlink > 0 && m[d].nlink > 0
  {
    var c := Unlisted(m, d, k);
    Relink(if m[i].kind == Directory then Relink(c, d, m[d].nlink - 1) else c, i, m[i].nlink - 1)
  }

  predicate CanGo(m: Inodes, i: nat) {
    i in m && (m[i].kind == Directory ==> Bare(m[i].entries))
  }

  lemma RemovalSound(m: Inodes, root: nat, pending: multiset<nat>, d: nat, k: nat, i: nat)
    requires Sound(m, root, pending) && i != 0 && Proper(m, Slot(d, k), i) && CanGo(m, i)
    ensures m[i].nlink > 0 && i != d && Sound(Removal(m, d, k, i), root, pending)
  {
    if m[i].kind == Directory {
      RmdirSound(m, root, pending, d, k, i);
    } else {
      UnlinkSound(m, root, pending, d, k, i);
    }
  }

  /** A name unlink accepts: not a dot, listed, and if a directory then empty. */
  predicate Removable(m: Inodes, d: nat, name: string) {
    && name != "." && name != ".." && d in m
    && exists j :: 0 <= j < |m[d].entries| && m[d].entries[j].inum != 0 && m[d].entries[j].name == name
                   && CanGo(m, m[d].entries[j].inum)
  }

  /**
   * create does not refuse a directory that has been removed but is still open. The link counts stay right exactly
   * when the directory is linked.
   */
  lemma CreateIff(m: Inodes, root: nat, pending: multiset<nat>, d: nat, k: nat, e: Dirent, kind: Kind)
    requires Sound(m, root, pending) && d in m && m[d].kind == Directory && e.inum !in m && e.inum != 0
    requires kind != Directory
    requires FirstFree(m[d].entries, k) && NotListed(m[d].entries, e.name)
    ensures Counted(WithFile(m, d, k, e, kind), pending) <==> m[d].nlink > 0
    ensures Sound(WithFile(m, d, k, e, kind), root, pending) <==> m[d].nlink > 0
  {
    var b := WithFile(m, d, k, e, kind);
    if m[d].nlink > 0 {
      CreateSound(m, root, pending, d, k, e, kind);
    } else {
      forall s
        ensures !Counts(b, s, e.inum)
      {
        assert !Counts(m, s, e.inum);
      }
      NoNames(b, e.inum);
      assert e.inum !in pending;
      assert b[e.inum].nlink != Links(b, e.inum) + pending[e.inum];
    }
  }

  /** The same for create of a directory: in a removed one it makes a linked directory that nothing names. */
  lemma MkdirIff(m: Inodes, root: nat, pending: multiset<nat>, d: nat, k: nat, e: Dirent)
    requires Sound(m, root, pending) && d in m && m[d].kind == Directory && e.inum !in m && e.inum != 0
    requires FirstFree(m[d].entries, k) && NotListed(m[d].entries, e.name)
    ensures Sound(WithDirectory(m, d, k, e), root, pending) <==> m[d].nlink > 0
  {
    var b := WithDirectory(m, d, k, e);
    if m[d].nlink > 0 {
      MkdirStep(m, root, pending, d, k, e);
    } else {
      FreePastDots(m, d, k);
      AllUnnamed(m, root, pending, d);
      forall s
        ensures !Proper(b, s, d)
      {
        assert !Counts(m, s, d);
        assert Tidy(d, m[d]) && Bare(m[d].entries);
      }
      assert d in b && Linked(b[d]) && d != root && !HasParent(b, d);
    }
  }

  /** And for the second half of link. */
  lemma LinkIff(m: Inodes, root: nat, pending: multiset<nat>, d: nat, k: nat, e: Dirent)
    requires Sound(m, root, pending) && e.inum in pending && d in m && m[d].kind == Directory
    requires FirstFree(m[d].entries, k) && NotListed(m[d].entries, e.name)
    ensures Counted(WriteEntry(m, d, Put(m[d].entries, k, e)), pending - multiset{e.inum}) <==> m[d].nlink > 0
    ensures Sound(WriteEntry(m, d, Put(m[d].entries, k, e)), root, pending - multiset{e.inum}) <==> m[d].nlink > 0
  {
    var b := WriteEntry(m, d, Put(m[d].entries, k, e));
    if m[d].nlink > 0 {
      EntrySound(m, root, pending, d, k, e);
    } else {
      assert SameCounts(m, b);
      LinksSame(m, b, e.inum);
      assert b[e.inum].nlink != Links(b, e.inum) + (pending - multiset{e.inum})[e.inum];
    }
  }

  /** Such a directory exists: the root, one that was removed while some process still has it open, and a file to which
      a link is being made. */
  function RemovedOpen(): (m: Inodes) {
    map[1 := Inode(Directory, 1, Dots(1, 1)), 2 := Inode(Directory, 0, Dots(2, 1)), 3 := Inode(File, 1, [])]
  }

  lemma OpenCounts(s: Slot, i: nat)
    ensures Counts(RemovedOpen(), s, i) <==> s == Slot(1, 1) && i == 1
  {
  }

  lemma OpenCounted()
    ensures Counted(RemovedOpen(), multiset{3}) && FilesOnly(RemovedOpen(), multiset{3})
    ensures forall s, i :: Counts(RemovedOpen(), s, i) ==> s == Slot(1, 1) && i == 1
  {
    forall s, i
      ensures Counts(RemovedOpen(), s, i) <==> s == Slot(1, 1) && i == 1
    {
      OpenCounts(s, i);
    }
    OnlyIn(RemovedOpen(), 1, Slot(1, 1));
    NoNames(RemovedOpen(), 2);
    NoNames(RemovedOpen(), 3);
  }

  lemma RemovedOpenSound()
    ensures Sound(RemovedOpen(), 1, multiset{3})
  {
    OpenCounted();
    assert Ranked(RemovedOpen(), 1, map[1 := 0]);
  }

  /** create of `e`, mkdir of `e` and link of `f` in a removed directory go through and break what Sound says. */
  ghost predicate Breaks(m: Inodes, root: nat, pending: multiset<nat>, d: nat, k: nat, e: Dirent, f: Dirent)
    requires d in m && k <= |m[d].entries|
  {
    && !Counted(WithFile(m, d, k, e, File), pending)
    && !Sound(WithDirectory(m, d, k, e), root, pending)
    && !Counted(WriteEntry(m, d, Put(m[d].entries, k, f)), pending - multiset{f.inum})
  }

  lemma RemovedBreaks(m: Inodes, root: nat, pending: multiset<nat>, d: nat, k: nat, e: Dirent, f: Dirent)
    requires Sound(m, root, pending) && d in m && m[d].kind == Directory && m[d].nlink == 0
    requires FirstFree(m[d].entries, k)
    requires e.inum !in m && e.inum != 0 && f.inum in pending && NotListed(m[d].entries, e.name)
    requires NotListed(m[d].entries, f.name)
    ensures Breaks(m, root, pending, d, k, e, f)
  {
    CreateIff(m, root, pending, d, k, e, File);
    MkdirIff(m, root, pending, d, k, e);
    LinkIff(m, root, pending, d, k, f);
  }

  lemma RemovedWhileOpen() returns (m: Inodes)
    ensures Sound(m, 1, multiset{3}) && 2 in m && m[2].kind == Directory && m[2].nlink == 0 && |m[2].entries| == 2
    ensures Breaks(m, 1, multiset{3}, 2, 2, Dirent(4, "a"), Dirent(3, "a"))
  {
    RemovedOpenSound();
    m := RemovedOpen();
    RemovedBreaks(m, 1, multiset{3}, 2, 2, Dirent(4, "a"), Dirent(3, "a"));
  }
}

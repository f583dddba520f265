/** link, unlink and create of sysfile.c over the directories of fs.c. */
module Namespace {
  import opened Common
  import opened Links

  datatype UnlinkResult = Kept | Unlinked(inum: nat)

  /** Vanished: the entry found names an inode that is gone, and ilock panics. */
  datatype CreateResult = Existing(inum: nat) | Refused | Created(inum: nat) | Vanished

  /** dirlookup: the entry with that name. */
  method Dirlookup(es: seq<Dirent>, name: string) returns (r: Option<nat>)
    ensures r.None? <==> NotListed(es, Key(name))
    ensures r.Some? ==> r.value < |es| && es[r.value].inum != 0 && es[r.value].name == Key(name)
  {
    var off := 0;
    while off < |es|
      invariant 0 <= off <= |es|
      invariant forall k :: 0 <= k < off && es[k].inum != 0 ==> es[k].name != Key(name)
    {
      if es[off].inum != 0 && es[off].name == Key(name) {
        return Some(off);
      }
      off := off + 1;
    }
    r := None;
  }

  /** dirlink on the contents of a directory: refuses a name already there, else fills the first free slot. */
  method Dirlink(es: seq<Dirent>, name: string, inum: nat) returns (r: Option<seq<Dirent>>, ghost k: nat)
    ensures r.Some? <==> NotListed(es, Key(name))
    ensures r.Some? ==> FirstFree(es, k) && r.value == Put(es, k, Dirent(inum, Key(name)))
  {
    k := 0;
    var found := Dirlookup(es, name);
    if found.Some? {
      return None, k;
    }
    var off := 0;
    while off < |es| && es[off].inum != 0
      invariant 0 <= off <= |es|
      invariant forall j :: 0 <= j < off ==> es[j].inum != 0
    {
      off := off + 1;
    }
    k := off;
    r := Some(if off < |es| then es[off := Dirent(inum, Key(name))] else es + [Dirent(inum, Key(name))]);
  }

  /** The two dirlinks into a new directory, which cannot fail. */
  method MakeDots(inum: nat, parent: nat) returns (es: seq<Dirent>)
    requires inum != 0
    ensures es == Dots(inum, parent)
  {
    var a, _ := Dirlink([], ".", inum);
    var b, _ := Dirlink(a.value, "..", parent);
    es := b.value;
  }

  method Isdirempty(es: seq<Dirent>) returns (b: bool)
    ensures b <==> Bare(es)
  {
    var off := 2;
    while off < |es|
      invariant 2 <= off && (off <= |es| || |es| < 2)
      invariant forall k :: 2 <= k < off && k < |es| ==> es[k].inum == 0
    {
      if es[off].inum != 0 {
        return false;
      }
      off := off + 1;
    }
    b := true;
  }

  /** Entry `j` of `d` gives `name` to an existing inode. */
  predicate Listed(m: Inodes, d: nat, j: nat, name: string) {
    d in m && j < |m[d].entries| && m[d].entries[j].name == name && m[d].entries[j].inum in m
  }

  class FileTree {
    var inodes: Inodes
    const root: nat
    /** Links counted by sys_link whose entry is not written yet. */
    ghost var pending: multiset<nat>

    ghost predicate Valid()
      reads this
    {
      Sound(inodes, root, pending)
    }

    /** sys_link up to the release of the inode: the link is counted before it exists. */
    method LinkStart(ip: nat) returns (ok: bool)
      requires Valid() && ip in inodes
      modifies this`inodes, this`pending
      ensures Valid() && ok == (old(inodes)[ip].kind != Directory)
      ensures inodes == if ok then Relink(old(inodes), ip, old(inodes)[ip].nlink + 1) else old(inodes)
      ensures pending == if ok then old(pending) + multiset{ip} else old(pending)
    {
      if inodes[ip].kind == Directory {
        return false;
      }
      RaiseSound(inodes, root, pending, ip);
      pending := pending + multiset{ip};
      inodes := inodes[ip := inodes[ip].(nlink := inodes[ip].nlink + 1)];
      ok := true;
    }

    /** The rest of sys_link: the entry is written, or the count goes back down. Only a link made in a removed directory
        leaves the counts wrong.
        `reached` says that nameiparent found a directory on the same device, which is then `dp`. */
    method LinkEnd(ip: nat, reached: bool, dp: nat, name: string) returns (ok: bool, ghost k: nat)
      requires Valid() && ip in pending && (reached ==> dp in inodes && inodes[dp].kind == Directory)
      modifies this`inodes, this`pending
      ensures pending == old(pending) - multiset{ip} && ip in old(inodes) && old(inodes)[ip].nlink > 0
      ensures Valid() <==> (ok && reached ==> old(inodes)[dp].nlink > 0)
      ensures ok <==> reached && NotListed(old(inodes)[dp].entries, Key(name))
      ensures ok ==> FirstFree(old(inodes)[dp].entries, k)
      ensures ok ==> inodes == WriteEntry(old(inodes), dp, Put(old(inodes)[dp].entries, k, Dirent(ip, Key(name))))
      ensures !ok ==> inodes == Relink(old(inodes), ip, old(inodes)[ip].nlink - 1)
    {
      LowerSound(inodes, root, pending, ip);
      var r := None;
      k := 0;
      if reached {
        r, k := Dirlink(inodes[dp].entries, name, ip);
      }
      if r.None? {
        pending := pending - multiset{ip};
        inodes := inodes[ip := inodes[ip].(nlink := inodes[ip].nlink - 1)];
        return false, k;
      }
      LinkIff(inodes, root, pending, dp, k, Dirent(ip, Key(name)));
      pending := pending - multiset{ip};
      inodes := inodes[dp := inodes[dp].(entries := r.value)];
      ok := true;
    }

    /** sys_unlink in directory `dp`. The panic on a link count of zero cannot be reached. */
    method Unlink(dp: nat, name: string) returns (r: UnlinkResult, ghost k: nat)
      requires Valid() && dp in inodes && inodes[dp].kind == Directory
      modifies this`inodes
      ensures Valid()
      ensures r.Unlinked? <==> Removable(old(inodes), dp, Key(name))
      ensures r.Kept? ==> inodes == old(inodes)
      ensures r.Unlinked? ==> k < |old(inodes)[dp].entries| && old(inodes)[dp].entries[k] == Dirent(r.inum, Key(name))
      ensures r.Unlinked? ==> r.inum in old(inodes) && old(inodes)[r.inum].nlink > 0 && old(inodes)[dp].nlink > 0
      ensures r.Unlinked? ==> inodes == Removal(old(inodes), dp, k, r.inum)
    {
      k := 0;
      if Key(name) == "." || Key(name) == ".." {
        return Kept, k;
      }
      var found := Dirlookup(inodes[dp].entries, name);
      if found.None? {
        return Kept, k;
      }
      var off := found.value;
      k := off;
      var ip := inodes[dp].entries[off].inum;
      ListedIsProper(inodes, dp, off);
      NamedIsLinked(inodes, root, pending, Slot(dp, off), ip);
      assert inodes[ip].nlink >= 1;
      if inodes[ip].kind == Directory {
        var empty := Isdirempty(inodes[ip].entries);
        if !empty {
          NotRemovable(dp, off);
          return Kept, k;
        }
      }
      RemoveEntry(dp, off, ip);
      r := Unlinked(ip);
    }

    lemma NotRemovable(dp: nat, off: nat)
      requires Valid() && dp in inodes && inodes[dp].kind == Directory && off < |inodes[dp].entries|
      requires inodes[dp].entries[off].inum != 0 && !CanGo(inodes, inodes[dp].entries[off].inum)
      ensures !Removable(inodes, dp, inodes[dp].entries[off].name)
    {
    }

    method RemoveEntry(dp: nat, off: nat, ip: nat)
      requires Valid() && ip != 0 && Proper(inodes, Slot(dp, off), ip) && CanGo(inodes, ip) && inodes[ip].nlink > 0
      modifies this`inodes
      ensures Valid() && inodes == Removal(old(inodes), dp, off, ip)
    {
      RemovalSound(inodes, root, pending, dp, off, ip);
      ghost var after := Removal(inodes, dp, off, ip);
      inodes := inodes[dp := inodes[dp].(entries := inodes[dp].entries[off := EMPTY])];
      if inodes[ip].kind == Directory {
        inodes := inodes[dp := inodes[dp].(nlink := inodes[dp].nlink - 1)];
      }
      inodes := inodes[ip := inodes[ip].(nlink := inodes[ip].nlink - 1)];
      assert inodes == after;
    }

    /** create, `inum` being the free inode that ialloc finds.
        Only in a removed directory does it leave the counts wrong. */
    method Create(dp: nat, name: string, kind: Kind, inum: nat) returns (r: CreateResult, ghost k: nat)
      requires Valid() && dp in inodes && inodes[dp].kind == Directory && inum != 0 && inum !in inodes
      modifies this`inodes
      ensures Valid() <==> !r.Created? || old(inodes)[dp].nlink > 0
      ensures r == Vanished ==> old(inodes)[dp].nlink == 0
      ensures r.Created? <==> NotListed(old(inodes)[dp].entries, Key(name))
      ensures !r.Created? ==> inodes == old(inodes)
      ensures r.Existing? ==> kind == File && r.inum in inodes && inodes[r.inum].kind == File
      ensures r.Existing? ==>
        exists j :: 0 <= j < |inodes[dp].entries| && Listed(inodes, dp, j, Key(name))
                    && inodes[dp].entries[j].inum == r.inum
      ensures r == Refused && kind == File ==>
        exists j :: 0 <= j < |inodes[dp].entries| && Listed(inodes, dp, j, Key(name))
                    && inodes[inodes[dp].entries[j].inum].kind != File
      ensures r.Created? ==> r.inum == inum && FirstFree(old(inodes)[dp].entries, k)
      ensures r.Created? && kind != Directory ==>
        inodes == WithFile(old(inodes), dp, k, Dirent(inum, Key(name)), kind)
      ensures r.Created? && kind == Directory ==>
        inodes == WithDirectory(old(inodes), dp, k, Dirent(inum, Key(name)))
    {
      k := 0;
      var found := Dirlookup(inodes[dp].entries, name);
      if found.Some? {
        var ip := inodes[dp].entries[found.value].inum;
        if inodes[dp].nlink > 0 {
          ListedExists(inodes, root, pending, dp, found.value);
        }
        if ip !in inodes {
          return Vanished, k;
        }
        assert Listed(inodes, dp, found.value, Key(name));
        if kind == File && inodes[ip].kind == File {
          return Existing(ip), k;
        }
        return Refused, k;
      }
      var es;
      es, k := Dirlink(inodes[dp].entries, name, inum);
      if kind == Directory {
        AddDirectory(dp, k, es.value, inum, Key(name));
      } else {
        AddFile(dp, k, es.value, inum, Key(name), kind);
      }
      r := Created(inum);
    }

    method AddDirectory(dp: nat, ghost k: nat, es: seq<Dirent>, inum: nat, ghost name: string)
      requires Valid() && dp in inodes && inodes[dp].kind == Directory && inum != 0 && inum !in inodes
      requires NotListed(inodes[dp].entries, name) && FirstFree(inodes[dp].entries, k)
      requires es == Put(inodes[dp].entries, k, Dirent(inum, name))
      modifies this`inodes
      ensures Valid() <==> old(inodes)[dp].nlink > 0
      ensures inodes == WithDirectory(old(inodes), dp, k, Dirent(inum, name))
    {
      MkdirIff(inodes, root, pending, dp, k, Dirent(inum, name));
      var dots := MakeDots(inum, dp);
      inodes := inodes[inum := Inode(Directory, 1, dots)];
      inodes := inodes[dp := inodes[dp].(nlink := inodes[dp].nlink + 1)];
      inodes := inodes[dp := inodes[dp].(entries := es)];
    }

    method AddFile(dp: nat, ghost k: nat, es: seq<Dirent>, inum: nat, ghost name: string, kind: Kind)
      requires Valid() && dp in inodes && inodes[dp].kind == Directory && inum != 0 && inum !in inodes
      requires kind != Directory
      requires NotListed(inodes[dp].entries, name) && FirstFree(inodes[dp].entries, k)
      requires es == Put(inodes[dp].entries, k, Dirent(inum, name))
      modifies this`inodes
      ensures Valid() <==> old(inodes)[dp].nlink > 0
      ensures inodes == WriteEntry(old(inodes)[inum := Inode(kind, 1, [])], dp, es)
    {
      CreateIff(inodes, root, pending, dp, k, Dirent(inum, name), kind);
      inodes := inodes[inum := Inode(kind, 1, [])];
      inodes := inodes[dp := inodes[dp].(entries := es)];
    }

    /** iput's last act on an inode without names: its number is free again. */
    method Release(ip: nat)
      requires Valid() && ip in inodes && inodes[ip].nlink == 0
      modifies this`inodes
      ensures Valid() && inodes == old(inodes) - {ip}
    {
      ReleaseSound(inodes, root, pending, inodes - {ip}, ip);
      inodes := inodes - {ip};
    }
  }
}

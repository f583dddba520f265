/** file.c: filewrite splits a write into transactions small enough for the log. */
module FileLayer {
  import opened Common
  import opened Blocks
  import opened Volume
  import opened Params
  import FS = FileSystem

  /** filewrite's answers: `n`, -1, a device inode (not modelled further), or a panic in balloc. */
  datatype WriteResult = All | Partial | ToDevice | Halt

  /** Transactions filewrite opened, as the sets of blocks each one logged. */
  ghost predicate Fit(txns: seq<set<nat>>) {
    forall t :: 0 <= t < |txns| ==> |txns[t]| <= MAXOPBLOCKS
  }

  lemma FitMore(txns: seq<set<nat>>, t: set<nat>)
    requires Fit(txns) && |t| <= MAXOPBLOCKS
    ensures Fit(txns + [t])
  {
  }

  /** What filewrite has done to file `i` after `n` bytes of `src`. */
  ghost predicate Landed(v: Vol, w: Vol, i: nat, off: nat, src: seq<Byte>, n: nat) {
    n <= |src| && if n == 0 then w == v else Spliced(v, w, i, off, src[..n])
  }

  lemma LandedMore(v: Vol, u: Vol, w: Vol, i: nat, off: nat, src: seq<Byte>, n: nat, o: nat, next: nat)
    requires Landed(v, u, i, off, src, n) && o == off + n && n < next <= |src| && Spliced(u, w, i, o, src[n..next])
    ensures Landed(v, w, i, off, src, next)
  {
    PrefixMore(src, n, next);
    if n == 0 {
      assert src[0..next] == src[..next];
    } else {
      SpliceJoin(v, u, w, i, off, src[..n], src[n..next]);
    }
  }

  /** How many of the `left` bytes the next transaction takes. */
  function Piece(left: nat): (n: nat) {
    if left > FS.CHUNK then FS.CHUNK else left
  }

  /** One transaction of filewrite: begin_op, ilock, writei, iunlock, end_op. */
  method WriteTxn(fs: FS.FileSystem, i: nat, off: nat, piece: seq<Byte>) returns (x: FS.Transfer<nat>)
    requires fs.Valid() && i < |fs.core| && fs.core[i].kind != 0 && off < UINT && 0 < |piece| <= FS.CHUNK
    modifies fs
    ensures x == FS.Device <==> old(fs.core)[i].kind == FS.T_DEV
    ensures x == FS.Refused <==> old(fs.core)[i].kind != FS.T_DEV && FS.WriteRefused(old(fs.core)[i].size, off, |piece|)
    ensures x == FS.Refused ==> fs.Valid() && fs.V() == old(fs.V()) && fs.dinodes == old(fs.dinodes)
    ensures x.Moved? ==> x.value == |piece| && fs.Valid() && Spliced(old(fs.V()), fs.V(), i, off, piece)
    ensures x.Moved? ==> |fs.core| == |old(fs.core)| && fs.core[i].kind == old(fs.core)[i].kind
    ensures x.Moved? && old(fs.WriteThrough()) ==> fs.WriteThrough()
    ensures x.Moved? ==> |fs.logged| <= MAXOPBLOCKS
    ensures x == FS.Halted ==> forall b :: 0 <= b < |fs.used| ==> fs.used[b]
  {
    fs.logged := {};
    FS.ChunkFits(off, |piece|);
    x := fs.Writei(i, piece, off);
    if x.Moved? {
      assert fs.core[i].(addrs := []).kind == fs.core[i].kind;
    }
  }

  /** filewrite's loop has written `written` bytes to an inode of type `kind`. */
  ghost predicate Going(fs: FS.FileSystem, v: Vol, i: nat, kind: int, off0: nat, off: nat, src: seq<Byte>, written: nat,
                        txns: seq<set<nat>>, synced: bool)
    reads fs
  {
    && fs.Valid() && i < |fs.core| && fs.core[i].kind == kind && off == off0 + written && off < UINT
    && Landed(v, fs.V(), i, off0, src, written) && Fit(txns) && (synced ==> fs.WriteThrough())
    && (kind == FS.T_DEV ==> written == 0)
  }

  /** One turn of filewrite's loop. */
  method WriteNext(fs: FS.FileSystem, i: nat, off0: nat, off: nat, src: seq<Byte>, written: nat,
                   ghost v: Vol, ghost kind: int, ghost txns: seq<set<nat>>, ghost synced: bool)
    returns (x: FS.Transfer<nat>, off': nat, next: nat, ghost txns': seq<set<nat>>)
    requires Going(fs, v, i, kind, off0, off, src, written, txns, synced) && kind != 0 && written < |src|
    modifies fs
    ensures x == FS.Device <==> kind == FS.T_DEV
    ensures x == FS.Halted ==> forall b :: 0 <= b < |fs.used| ==> fs.used[b]
    ensures x == FS.Refused ==> Going(fs, v, i, kind, off0, off, src, written, txns, synced)
    ensures x == FS.Refused ==> FS.WriteRefused(fs.core[i].size, off, Piece(|src| - written))
    ensures x.Moved? ==> written < next <= |src| && Going(fs, v, i, kind, off0, off', src, next, txns', synced)
  {
    var n1 := Piece(|src| - written);
    next, off', txns' := written + n1, off + n1, txns;
    ghost var u := fs.V();
    x := WriteTxn(fs, i, off, src[written..next]);
    if x.Moved? {
      LandedMore(v, u, fs.V(), i, off0, src, written, off, next);
      FitMore(txns, fs.logged);
      txns' := txns + [fs.logged];
    }
  }

  /** filewrite on an inode: `src` lands at the file offset in transactions of at most MAXOPBLOCKS distinct blocks each,
      and on failure a prefix of it does; its "short filewrite" panic is unreachable. */
  method Filewrite(fs: FS.FileSystem, i: nat, off0: nat, src: seq<Byte>)
    returns (r: WriteResult, off: nat, written: nat, ghost txns: seq<set<nat>>)
    requires fs.Valid() && i < |fs.core| && fs.core[i].kind != 0 && off0 < UINT && |src| < 0x8000_0000
    modifies fs
    ensures r == All || r == Partial ==> fs.Valid() && Landed(old(fs.V()), fs.V(), i, off0, src, written)
    ensures r == All || r == Partial ==> Fit(txns) && off == off0 + written
    ensures r == All ==> written == |src|
    ensures r == Partial ==>
              written < |src| && i < |fs.core| && FS.WriteRefused(fs.core[i].size, off, Piece(|src| - written))
    ensures r == ToDevice <==> old(fs.core)[i].kind == FS.T_DEV && |src| > 0
    ensures r == Halt ==> forall b :: 0 <= b < |fs.used| ==> fs.used[b]
    ensures (r == All || r == Partial) && old(fs.WriteThrough()) ==> fs.WriteThrough()
  {
    off, written, txns := off0, 0, [];
    ghost var v, kind, synced := fs.V(), fs.core[i].kind, fs.WriteThrough();
    while written < |src|
      invariant 0 <= written <= |src| && Going(fs, v, i, kind, off0, off, src, written, txns, synced)
    {
      var x, off', next;
      ghost var txns';
      x, off', next, txns' := WriteNext(fs, i, off0, off, src, written, v, kind, txns, synced);
      match x
      case Device => return ToDevice, off, written, txns;
      case Halted => return Halt, off, written, txns;
      case Refused => return Partial, off, written, txns;
      case Moved(_) => off, written, txns := off', next, txns';
    }
    return All, off, written, txns;
  }
}

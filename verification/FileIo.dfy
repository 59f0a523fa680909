/** readi and writei of fs.c, with the log entries and the free blocks they use up. */
module FileIo {
  import opened Basics
  import opened Blocks
  import opened LogHeader
  import opened FsLayout
  import opened FsOwner
  import CrashSafety
  import FS = FileSystem
  import opened FileSystem
  import opened FileContents

  /** The index block of an inode, if it has one. */
  ghost function IndexSet(ip: Inode): set<nat>
    requires |ip.addrs| == NDIRECT + 1
  {
    if ip.addrs[NDIRECT] == 0 then {} else {ip.addrs[NDIRECT]}
  }

  /** writei has copied the first tot bytes of src; gained are the blocks it allocated. */
  ghost predicate Copied(sb: Super, s0: Snap, s: Snap, inum: nat, src: seq<bv8>, off: nat, tot: nat, gained: set<nat>) {
    && Good(sb, s0) && Good(sb, s) && inum < sb.ninodes
    && tot <= |src| && off <= s0.ino[inum].size && off + |src| <= MAXFILE * BSIZE
    && FileOk(sb, s0.v, s0.ino, inum)
    && Extends(sb, s0.v, s0.ino, s0.owner, s.v, s.ino, s.owner, inum, gained)
    && Mapped(sb, s.v, s.ino, inum, Max(s0.ino[inum].size, off + tot))
    && FileBytes(sb, s.v, s.ino, inum, Max(s0.ino[inum].size, off + tot))
       == Written(Content(sb, s0.v, s0.ino, inum), off, src[..tot])
  }

  ghost function IfNew(was: Inode, idx: set<nat>): set<nat>
    requires |was.addrs| == NDIRECT + 1
  {
    if was.addrs[NDIRECT] == 0 then idx else {}
  }

  function BlockCount(n: nat): nat { (n + BSIZE - 1) / BSIZE }

  /** The entries a write of n bytes can add to the header: new data blocks, the index block and as many
      bitmap blocks, the inode block and, in a directory, the old block the write starts inside of. */
  function EntryBound(typ: nat, n: nat): nat { 2 * BlockCount(n) + if typ == T_DIR then 4 else 3 }

  /** Blocks that writei logs if it writes a directory. */
  function IfDir(typ: nat, blocks: set<nat>): set<nat> { if typ == T_DIR then blocks else {} }

  /** The block a write at off starts inside of, if it starts inside one. */
  ghost function PartBlock(sb: Super, s: Snap, inum: nat, off: nat): set<nat>
    requires Good(sb, s) && inum < sb.ninodes
  {
    if off % BSIZE == 0 || off / BSIZE >= MAXFILE then {} else {Ref(sb, s.v, s.ino, SlotOf(inum, off / BSIZE))}
  }

  /** What a write of n bytes has allocated: an index block and data, with at most one data block for
      each turn that began at a block boundary; the header names only these, their bitmap blocks, the
      index block and, for a directory, the data blocks themselves with part, the block it started
      inside of.  was and ip are the inode before and now. */
  ghost predicate Spent(sb: Super, was: Inode, ip: Inode, lh0: seq<Entry>, lh: seq<Entry>, n: nat, off: nat, tot: nat,
                        part: set<nat>, gained: set<nat>, data: set<nat>, turns: nat)
  {
    && |was.addrs| == |ip.addrs| == NDIRECT + 1 && tot <= n
    && gained <= data + IfNew(was, IndexSet(ip))
    && (was.addrs[NDIRECT] != 0 ==> ip.addrs[NDIRECT] == was.addrs[NDIRECT])
    && |data| <= turns && turns <= BlockCount(n)
    && (tot < n ==> BSIZE * turns <= tot)
    && (0 < tot < n ==> (off + tot) % BSIZE == 0)
    && |part| <= 1
    && Names(lh) <= Names(lh0) + gained + BitmapBlocks(sb, gained) + IndexSet(ip) + IfDir(was.typ, data + part)
  }

  ghost predicate Budget(sb: Super, s0: Snap, s: Snap, inum: nat, n: nat, off: nat, tot: nat,
                         gained: set<nat>, data: set<nat>, turns: nat)
  {
    && Good(sb, s0) && Good(sb, s) && inum < sb.ninodes
    && Spent(sb, s0.ino[inum], s.ino[inum], s0.lh, s.lh, n, off, tot, PartBlock(sb, s0, inum, off), gained, data, turns)
  }

  lemma BudgetStart(sb: Super, s: Snap, inum: nat, n: nat, off: nat)
    requires Good(sb, s) && inum < sb.ninodes
    ensures Budget(sb, s, s, inum, n, off, 0, {}, {}, 0)
  {}

  lemma CopiedStart(sb: Super, s: Snap, inum: nat, src: seq<bv8>, off: nat)
    requires Good(sb, s) && inum < sb.ninodes && FileOk(sb, s.v, s.ino, inum)
    requires off <= s.ino[inum].size && off + |src| <= MAXFILE * BSIZE
    ensures Copied(sb, s, s, inum, src, off, 0, {})
  {
    hide Ref, Owned, Extends, Names;
    ExtendsNothing(sb, s.v, s.ino, s.owner, inum);
    assert src[..0] == [];
    var c := Content(sb, s.v, s.ino, inum);
    assert Written(c, off, []) == c;
  }

  /** The first block of a write that starts inside a block is already there. */
  lemma FirstBlockPresent(sb: Super, s: Snap, s1: Snap, inum: nat, off: nat, len: nat, addr: nat, got: set<nat>)
    requires Good(sb, s) && inum < sb.ninodes && Mapped(sb, s.v, s.ino, inum, len)
    requires off <= len && off % BSIZE != 0 && BmapDone(sb, s, s1, inum, off / BSIZE, addr, got)
    ensures got == {}
  {
    hide Ref, Owned;
    assert off / BSIZE * BSIZE < off;
  }

  lemma CopiedTurn(sb: Super, s0: Snap, s: Snap, s1: Snap, s2: Snap, inum: nat, src: seq<bv8>, off: nat, tot: nat,
                   gained: set<nat>, m: nat, addr: nat, got: set<nat>)
    requires Copied(sb, s0, s, inum, src, off, tot, gained) && tot + m <= |src| && 0 < m
    requires m <= BSIZE - (off + tot) % BSIZE && addr < |s1.v|
    requires BmapDone(sb, s, s1, inum, (off + tot) / BSIZE, addr, got)
    requires s2.v == s1.v[addr := Patch(s1.v[addr], (off + tot) % BSIZE, src[tot..tot + m])]
    requires s2.ino == s1.ino && s2.owner == s1.owner
    ensures IsData(sb, addr) && Copied(sb, s0, s2, inum, src, off, tot + m, gained + got)
  {
    hide Ref, Owned, Extends, Names, FileBytes, Mapped, BmapDone, Patch;
    var len := Max(s0.ino[inum].size, off + tot);
    var chunk := src[tot..tot + m];
    WriteTurn(sb, s, s1, s2, inum, off + tot, chunk, len, addr, got);
    ExtendsTrans(sb, s0.v, s0.ino, s0.owner, s.v, s.ino, s.owner, s2.v, s2.ino, s2.owner, inum, gained, got);
    WrittenTwice(Content(sb, s0.v, s0.ino, inum), off, src[..tot], chunk);
    assert src[..tot] + chunk == src[..tot + m];
    assert Max(len, off + tot + m) == Max(s0.ino[inum].size, off + (tot + m));
  }

  /** What bmap contributes to the budget, as plain sets. */
  lemma BmapBudget(sb: Super, s: Snap, s1: Snap, inum: nat, bn: nat, addr: nat, got: set<nat>)
    requires BmapDone(sb, s, s1, inum, bn, addr, got)
    ensures s.ino[inum].addrs[NDIRECT] != 0 ==> s1.ino[inum].addrs[NDIRECT] == s.ino[inum].addrs[NDIRECT]
    ensures got <= {addr} + IfNew(s.ino[inum], IndexSet(s1.ino[inum]))
    ensures Names(s1.lh) <= Names(s.lh) + got + BitmapBlocks(sb, got) + IndexSet(s1.ino[inum])
  {
    hide Owned, Names, Extends;
    IndexKept(sb, s, s1, inum, got);
    if bn >= NDIRECT { IndexThere(sb, s1, inum, bn); }
  }

  /** A turn that allocated at most one data block, and none unless it began at a boundary. */
  lemma SpentNext(sb: Super, was: Inode, ip: Inode, ip2: Inode, lh0: seq<Entry>, lh: seq<Entry>, lh2: seq<Entry>,
                  n: nat, off: nat, tot: nat, part: set<nat>, gained: set<nat>, data: set<nat>, turns: nat,
                  m: nat, more: set<nat>, got: set<nat>)
    requires Spent(sb, was, ip, lh0, lh, n, off, tot, part, gained, data, turns) && tot < n
    requires |ip2.addrs| == NDIRECT + 1
    requires m == (if n - tot < BSIZE - (off + tot) % BSIZE then n - tot else BSIZE - (off + tot) % BSIZE)
    requires |more| <= 1 && ((off + tot) % BSIZE != 0 ==> more == {})
    requires ip.addrs[NDIRECT] != 0 ==> ip2.addrs[NDIRECT] == ip.addrs[NDIRECT]
    requires got <= more + IfNew(ip, IndexSet(ip2))
    requires Names(lh2) <= Names(lh) + got + BitmapBlocks(sb, got) + IndexSet(ip2) + IfDir(was.typ, more + part)
    ensures Spent(sb, was, ip2, lh0, lh2, n, off, tot + m, part, gained + got, data + more,
                  if (off + tot) % BSIZE == 0 then turns + 1 else turns)
  {
    hide Names, BitmapBlocks, IfDir, IfNew, IndexSet;
    BitmapBlocksUnion(sb, gained, got);
    TurnArithmetic(n, off, tot, m, turns);
    GainedSets(gained, got, data, more, was, ip, ip2);
    UnionSize(data, more);
    IfDirMore(was.typ, data, more, part);
    NamesChain(Names(lh0), Names(lh), Names(lh2), gained, got, BitmapBlocks(sb, gained), BitmapBlocks(sb, got),
      IndexSet(ip), IndexSet(ip2), IfDir(was.typ, data + part), IfDir(was.typ, more + part),
      IfDir(was.typ, data + more + part));
  }

  lemma IfDirMore(typ: nat, data: set<nat>, more: set<nat>, part: set<nat>)
    ensures IfDir(typ, data + part) <= IfDir(typ, data + more + part)
    ensures IfDir(typ, more + part) <= IfDir(typ, data + more + part)
  {}

  lemma NamesChain(a: set<nat>, b: set<nat>, c: set<nat>, x: set<nat>, y: set<nat>, bx: set<nat>, bz: set<nat>,
                   i: set<nat>, j: set<nat>, d: set<nat>, e: set<nat>, f: set<nat>)
    requires b <= a + x + bx + i + d && c <= b + y + bz + j + e && i <= j && d <= f && e <= f
    ensures c <= a + (x + y) + (bx + bz) + j + f
  {}

  lemma BudgetTurn(sb: Super, s0: Snap, s: Snap, s1: Snap, s2: Snap, inum: nat, n: nat, off: nat, tot: nat,
                   gained: set<nat>, data: set<nat>, turns: nat, m: nat, addr: nat, got: set<nat>)
      returns (data': set<nat>, turns': nat)
    requires Budget(sb, s0, s, inum, n, off, tot, gained, data, turns) && tot < n && Good(sb, s2)
    requires m == (if n - tot < BSIZE - (off + tot) % BSIZE then n - tot else BSIZE - (off + tot) % BSIZE)
    requires BmapDone(sb, s, s1, inum, (off + tot) / BSIZE, addr, got)
    requires (off + tot) % BSIZE != 0 ==> got == {} && {addr} == PartBlock(sb, s0, inum, off)
    requires s2.ino == s1.ino && Names(s2.lh) <= Names(s1.lh) + IfDir(s0.ino[inum].typ, {addr})
    ensures Budget(sb, s0, s2, inum, n, off, tot + m, gained + got, data', turns')
  {
    hide Names, Ref, BitmapBlocks, Owned, Spent, Grew;
    BmapBudget(sb, s, s1, inum, (off + tot) / BSIZE, addr, got);
    var more := if (off + tot) % BSIZE == 0 then {addr} else {};
    SpentNext(sb, s0.ino[inum], s.ino[inum], s2.ino[inum], s0.lh, s.lh, s2.lh, n, off, tot,
      PartBlock(sb, s0, inum, off), gained, data, turns, m, more, got);
    data', turns' := data + more, if (off + tot) % BSIZE == 0 then turns + 1 else turns;
  }

  lemma TurnArithmetic(n: nat, off: nat, tot: nat, m: nat, turns: nat)
    requires tot < n && BSIZE * turns <= tot
    requires m == (if n - tot < BSIZE - (off + tot) % BSIZE then n - tot else BSIZE - (off + tot) % BSIZE)
    ensures 0 < m && tot + m <= n
    ensures tot + m < n ==> (off + (tot + m)) % BSIZE == 0
    ensures (off + tot) % BSIZE == 0 ==> turns + 1 <= BlockCount(n)
    ensures (off + tot) % BSIZE == 0 && tot + m < n ==> BSIZE * (turns + 1) <= tot + m
  {}

  lemma GainedSets(gained: set<nat>, got: set<nat>, data: set<nat>, more: set<nat>, i0: Inode, i: Inode, i1: Inode)
    requires |i0.addrs| == |i.addrs| == |i1.addrs| == NDIRECT + 1
    requires gained <= data + IfNew(i0, IndexSet(i)) && got <= more + IfNew(i, IndexSet(i1))
    requires i0.addrs[NDIRECT] != 0 ==> i.addrs[NDIRECT] == i0.addrs[NDIRECT]
    requires i.addrs[NDIRECT] != 0 ==> i1.addrs[NDIRECT] == i.addrs[NDIRECT]
    ensures gained + got <= data + more + IfNew(i0, IndexSet(i1))
    ensures IndexSet(i) <= IndexSet(i1)
  {}

  lemma BitmapBlocksUnion(sb: Super, a: set<nat>, b: set<nat>)
    ensures BitmapBlocks(sb, a + b) == BitmapBlocks(sb, a) + BitmapBlocks(sb, b)
  {}

  lemma IndexKept(sb: Super, s: Snap, s': Snap, inum: nat, gained: set<nat>)
    requires Good(sb, s) && Good(sb, s') && inum < sb.ninodes
    requires Extends(sb, s.v, s.ino, s.owner, s'.v, s'.ino, s'.owner, inum, gained)
    ensures s.ino[inum].addrs[NDIRECT] != 0 ==> s'.ino[inum].addrs[NDIRECT] == s.ino[inum].addrs[NDIRECT]
  {
    hide Owned;
    assert ValidSlot(sb, Index(inum));
    assert Ref(sb, s.v, s.ino, Index(inum)) == s.ino[inum].addrs[NDIRECT];
    assert Ref(sb, s'.v, s'.ino, Index(inum)) == s'.ino[inum].addrs[NDIRECT];
  }

  lemma IndexThere(sb: Super, s: Snap, inum: nat, bn: nat)
    requires Good(sb, s) && inum < sb.ninodes && NDIRECT <= bn < MAXFILE
    requires Ref(sb, s.v, s.ino, SlotOf(inum, bn)) != 0
    ensures s.ino[inum].addrs[NDIRECT] != 0
  {}

  // ----- readi

  lemma BlockPresent(sb: Super, s: Snap, inum: nat, at: nat)
    requires Good(sb, s) && inum < sb.ninodes && FileOk(sb, s.v, s.ino, inum) && at < s.ino[inum].size
    ensures at / BSIZE < MAXFILE && 0 < Ref(sb, s.v, s.ino, SlotOf(inum, at / BSIZE)) < |s.v|
  {
    hide Ref, Owned;
  }

  lemma BmapOfPresent(sb: Super, s: Snap, s': Snap, inum: nat, at: nat, addr: nat, got: set<nat>)
    requires Good(sb, s) && inum < sb.ninodes && FileOk(sb, s.v, s.ino, inum) && at < s.ino[inum].size
    requires BmapDone(sb, s, s', inum, at / BSIZE, addr, got)
    ensures s' == s && 0 < addr < |s.v| && addr == Ref(sb, s.v, s.ino, SlotOf(inum, at / BSIZE))
  {
    hide Ref, Owned, Grew;
    BlockPresent(sb, s, inum, at);
  }

  lemma SameBlock(at: nat, k: nat)
    requires at % BSIZE + k < BSIZE
    ensures (at + k) / BSIZE == at / BSIZE && (at + k) % BSIZE == at % BSIZE + k
  {}

  /** One turn of readi's loop copies the next bytes of the file. */
  lemma ReadTurn(sb: Super, s: Snap, inum: nat, at: nat, m: nat, addr: nat)
    requires Good(sb, s) && inum < sb.ninodes && FileOk(sb, s.v, s.ino, inum) && at + m <= s.ino[inum].size
    requires 0 < m <= BSIZE - at % BSIZE && at / BSIZE < MAXFILE
    requires 0 < addr < |s.v| && addr == Ref(sb, s.v, s.ino, SlotOf(inum, at / BSIZE))
    ensures s.v[addr][at % BSIZE..at % BSIZE + m] == Content(sb, s.v, s.ino, inum)[at..at + m]
  {
    hide Ref, Owned;
    var x, y := s.v[addr][at % BSIZE..at % BSIZE + m], Content(sb, s.v, s.ino, inum)[at..at + m];
    forall k | 0 <= k < m ensures x[k] == y[k] {
      SameBlock(at, k);
    }
  }

  /** readi on a file or directory; None is the source's -1. */
  method Readi(fs: FS.FileSystem, inum: nat, off: nat, n: nat) returns (r: Option<seq<bv8>>)
    requires fs.Valid() && inum < fs.sb.ninodes && FileOk(fs.sb, fs.log.view, fs.ino, inum)
    requires fs.ino[inum].typ != T_DEV && off < MAX_UINT && n < MAX_UINT
    modifies fs, fs.log
    ensures fs.Valid() && fs.Now() == old(fs.Now()) && fs.log.disk == old(fs.log.disk)
    ensures r.None? <==> off > fs.ino[inum].size || off + n >= MAX_UINT
    ensures r.Some? ==>
      var c := Content(fs.sb, fs.log.view, fs.ino, inum);
      r.value == c[off..if off + n < |c| then off + n else |c|]
  {
    hide Owned, Ref, Content, BmapDone, FileOk, CrashSafety.Ready;
    if off > fs.ino[inum].size || (off + n) % MAX_UINT < off {
      return None;
    }
    var left := n;
    if off + n > fs.ino[inum].size {
      left := fs.ino[inum].size - off;
    }
    var dst := [];
    var tot := 0;
    ghost var c := Content(fs.sb, fs.log.view, fs.ino, inum);
    while tot < left
      invariant 0 <= tot <= left && fs.Valid() && fs.Now() == old(fs.Now()) && fs.log.disk == old(fs.log.disk)
      invariant dst == c[off..off + tot]
    {
      var at := off + tot;
      ghost var s0 := fs.Now();
      BlockPresent(fs.sb, s0, inum, at);
      var addr, ok, got := fs.Bmap(inum, at / BSIZE);
      BmapOfPresent(fs.sb, s0, fs.Now(), inum, at, addr, got);
      var m := if left - tot < BSIZE - at % BSIZE then left - tot else BSIZE - at % BSIZE;
      ReadTurn(fs.sb, s0, inum, at, m, addr);
      dst := dst + fs.log.view[addr][at % BSIZE..at % BSIZE + m];
      tot := tot + m;
    }
    r := Some(dst);
  }

  // ----- writei

  /** The inode blocks hold exactly the in-memory inodes. */
  ghost predicate Synced(sb: Super, s: Snap)
    requires Good(sb, s)
  {
    forall n: nat :: n < sb.ninodes ==> Dinode(sb, s.v, n) == s.ino[n]
  }

  /** Inode inum and its bytes are all that changed. */
  ghost predicate OnlyFile(sb: Super, s: Snap, s': Snap, inum: nat) {
    && Good(sb, s) && Good(sb, s')
    && forall n: nat :: n < sb.ninodes && n != inum ==>
         && s'.ino[n] == s.ino[n]
         && (FileOk(sb, s.v, s.ino, n) ==>
               FileOk(sb, s'.v, s'.ino, n) && Content(sb, s'.v, s'.ino, n) == Content(sb, s.v, s.ino, n))
  }

  lemma ExtendsOnlyFile(sb: Super, s: Snap, s': Snap, inum: nat, gained: set<nat>)
    requires Good(sb, s) && Good(sb, s') && inum < sb.ninodes
    requires Extends(sb, s.v, s.ino, s.owner, s'.v, s'.ino, s'.owner, inum, gained)
    ensures OnlyFile(sb, s, s', inum)
  {
    hide Ref, Owned, Extends, FileBytes, Mapped;
    forall n: nat | n < sb.ninodes && n != inum
      ensures s'.ino[n] == s.ino[n]
      ensures FileOk(sb, s.v, s.ino, n) ==>
        FileOk(sb, s'.v, s'.ino, n) && Content(sb, s'.v, s'.ino, n) == Content(sb, s.v, s.ino, n)
    {
      ExtendsInode(sb, s, s', inum, gained, n);
      if FileOk(sb, s.v, s.ino, n) {
        ExtendsOthers(sb, s.v, s.ino, s.owner, s'.v, s'.ino, s'.owner, inum, gained, n, s.ino[n].size);
      }
    }
  }

  lemma ExtendsInode(sb: Super, s: Snap, s': Snap, inum: nat, gained: set<nat>, n: nat)
    requires Good(sb, s) && Good(sb, s') && inum < sb.ninodes && n < sb.ninodes
    requires Extends(sb, s.v, s.ino, s.owner, s'.v, s'.ino, s'.owner, inum, gained)
    ensures n != inum ==> s'.ino[n] == s.ino[n]
    ensures s'.ino[inum] == s.ino[inum].(addrs := s'.ino[inum].addrs)
  {
    hide Ref, Owned;
  }

  lemma OnlyFileTrans(sb: Super, s0: Snap, s1: Snap, s2: Snap, inum: nat)
    requires OnlyFile(sb, s0, s1, inum) && OnlyFile(sb, s1, s2, inum)
    ensures OnlyFile(sb, s0, s2, inum)
  {
    hide Good, FileOk, Content;
  }

  /** A write that ends inside the file allocates nothing. */
  lemma TurnInside(sb: Super, s0: Snap, s: Snap, s1: Snap, inum: nat, src: seq<bv8>, off: nat, tot: nat,
                   gained: set<nat>, addr: nat, got: set<nat>)
    requires Copied(sb, s0, s, inum, src, off, tot, gained) && off + tot < s0.ino[inum].size
    requires BmapDone(sb, s, s1, inum, (off + tot) / BSIZE, addr, got)
    ensures s1 == s
  {
    hide Ref, Owned, Extends, Grew, FileBytes, Written;
    var at := off + tot;
    assert at / BSIZE * BSIZE <= at;
  }

  lemma TurnAtBoundary(sb: Super, s0: Snap, s: Snap, s1: Snap, inum: nat, src: seq<bv8>, off: nat, tot: nat,
                       gained: set<nat>, addr: nat, got: set<nat>)
    requires Copied(sb, s0, s, inum, src, off, tot, gained)
    requires BmapDone(sb, s, s1, inum, (off + tot) / BSIZE, addr, got)
    ensures addr < |s1.v| && IsData(sb, addr) && ((off + tot) % BSIZE != 0 ==> got == {})
    ensures off % BSIZE != 0 && tot == 0 ==> {addr} == PartBlock(sb, s0, inum, off)
  {
    hide Ref, Extends, Grew, FileBytes, Written, Mapped;
    SlotOfValid(sb, inum, (off + tot) / BSIZE);
    if off % BSIZE != 0 && tot == 0 { PartIs(sb, s0, s, s1, inum, src, off, gained, addr, got); }
    if (off + tot) % BSIZE != 0 {
      FirstBlockPresent(sb, s, s1, inum, off + tot, Max(s0.ino[inum].size, off + tot), addr, got);
    }
  }

  lemma PartIs(sb: Super, s0: Snap, s: Snap, s1: Snap, inum: nat, src: seq<bv8>, off: nat, gained: set<nat>,
               addr: nat, got: set<nat>)
    requires Copied(sb, s0, s, inum, src, off, 0, gained) && off % BSIZE != 0
    requires BmapDone(sb, s, s1, inum, off / BSIZE, addr, got)
    ensures {addr} == PartBlock(sb, s0, inum, off)
  {
    hide Ref, Owned, FileBytes, Written, Names;
    SlotOfValid(sb, inum, off / BSIZE);
    assert off / BSIZE * BSIZE < off;
  }

  /** The size field is all that changes when a file is declared longer. */
  lemma Resize(sb: Super, s: Snap, s': Snap, inum: nat, size: nat)
    requires Good(sb, s) && inum < sb.ninodes && Mapped(sb, s.v, s.ino, inum, size)
    requires s' == s.(ino := s.ino[inum := s.ino[inum].(size := size)])
    ensures Good(sb, s') && FileOk(sb, s'.v, s'.ino, inum)
    ensures Content(sb, s'.v, s'.ino, inum) == FileBytes(sb, s.v, s.ino, inum, size)
    ensures OnlyFile(sb, s, s', inum)
  {
    hide InUse, Word;
    assert TableOk(sb, s'.v, s'.ino);
    assert forall t :: ValidSlot(sb, t) ==> Ref(sb, s'.v, s'.ino, t) == Ref(sb, s.v, s.ino, t);
    RefsSame(sb, s, s', inum, size);
  }

  lemma RefsSame(sb: Super, s: Snap, s': Snap, inum: nat, size: nat)
    requires Good(sb, s) && TableOk(sb, s'.v, s'.ino) && s'.v == s.v && s'.owner == s.owner && inum < sb.ninodes
    requires forall t :: ValidSlot(sb, t) ==> Ref(sb, s'.v, s'.ino, t) == Ref(sb, s.v, s.ino, t)
    requires forall n :: 0 <= n < sb.ninodes && n != inum ==> s'.ino[n] == s.ino[n]
    requires Mapped(sb, s.v, s.ino, inum, size) && s'.ino[inum].size == size
    ensures Good(sb, s') && FileOk(sb, s'.v, s'.ino, inum)
    ensures Content(sb, s'.v, s'.ino, inum) == FileBytes(sb, s.v, s.ino, inum, size)
    ensures OnlyFile(sb, s, s', inum)
  {
    hide InUse, Ref, FileBytes;
    assert Good(sb, s');
    SameBytes(sb, s, s', inum, size);
    forall n: nat | n < sb.ninodes && n != inum && FileOk(sb, s.v, s.ino, n)
      ensures FileOk(sb, s'.v, s'.ino, n) && Content(sb, s'.v, s'.ino, n) == Content(sb, s.v, s.ino, n)
    {
      SameBytes(sb, s, s', n, s.ino[n].size);
    }
  }

  lemma SameBytes(sb: Super, s: Snap, s': Snap, n: nat, len: nat)
    requires Good(sb, s) && TableOk(sb, s'.v, s'.ino) && n < sb.ninodes && s'.v == s.v
    requires forall t :: ValidSlot(sb, t) ==> Ref(sb, s'.v, s'.ino, t) == Ref(sb, s.v, s.ino, t)
    requires Mapped(sb, s.v, s.ino, n, len)
    ensures Mapped(sb, s'.v, s'.ino, n, len)
    ensures FileBytes(sb, s'.v, s'.ino, n, len) == FileBytes(sb, s.v, s.ino, n, len)
  {
    hide Ref, FileBytes, Owned;
    forall bn | 0 <= bn < MAXFILE && bn * BSIZE < len
      ensures Ref(sb, s'.v, s'.ino, SlotOf(n, bn)) == Ref(sb, s.v, s.ino, SlotOf(n, bn))
    {
      SlotOfValid(sb, n, bn);
    }
    BytesFrame(sb, s.v, s.ino, s'.v, s'.ino, n, len);
  }

  // ----- Counting header entries

  lemma {:induction false} BitmapBlocksSize(sb: Super, x: set<nat>)
    ensures |BitmapBlocks(sb, x)| <= |x|
  {
    if b :| b in x {
      BitmapBlocksSize(sb, x - {b});
      assert x == (x - {b}) + {b};
      BitmapBlocksUnion(sb, x - {b}, {b});
      assert BitmapBlocks(sb, {b}) == {BitmapBlock(sb, b)};
      UnionSize(BitmapBlocks(sb, x - {b}), {BitmapBlock(sb, b)});
    } else {
      assert BitmapBlocks(sb, x) == {};
    }
  }

  lemma SpentBound(sb: Super, was: Inode, ip: Inode, lh0: seq<Entry>, lh: seq<Entry>, n: nat, off: nat, tot: nat,
                   part: set<nat>, gained: set<nat>, data: set<nat>, turns: nat)
    requires Spent(sb, was, ip, lh0, lh, n, off, tot, part, gained, data, turns)
    ensures |Names(lh)| < |Names(lh0)| + EntryBound(was.typ, n)
  {
    hide Names, BitmapBlocks;
    var idx := IndexSet(ip);
    var all := data + IfNew(was, idx);
    var rest := if was.addrs[NDIRECT] == 0 then {} else idx;
    assert BitmapBlocks(sb, gained) <= BitmapBlocks(sb, all) by {
      assert all == gained + all;
      BitmapBlocksUnion(sb, gained, all);
    }
    var most := Names(lh0) + (all + (BitmapBlocks(sb, all) + rest));
    assert Names(lh) <= most + IfDir(was.typ, part);
    Smaller(Names(lh), most + IfDir(was.typ, part));
    UnionSize(most, IfDir(was.typ, part));
    UnionSize(Names(lh0), all + (BitmapBlocks(sb, all) + rest));
    UnionSize(all, BitmapBlocks(sb, all) + rest);
    UnionSize(BitmapBlocks(sb, all), rest);
    BitmapBlocksSize(sb, all);
    UnionSize(data, IfNew(was, idx));
  }

  // ----- When a write fails

  ghost function FreeBlocks(sb: Super, v: Disk): set<nat>
    requires SuperOk(sb) && |v| == sb.g.size
  {
    set c: nat | c < sb.g.size && !InUse(sb, v, c)
  }

  /** A write of n bytes panics for one of two reasons: the volume had no more free blocks than the
      write has blocks, or the header filled up with entries such a write may add. */
  ghost predicate WriteFailed(sb: Super, s0: Snap, lh: seq<Entry>, outstanding: nat, inum: nat, n: nat)
    requires Good(sb, s0) && inum < sb.ninodes
  {
    || |FreeBlocks(sb, s0.v)| <= BlockCount(n)
    || (FullAt(sb, lh, outstanding) && |lh| < |s0.lh| + EntryBound(s0.ino[inum].typ, n))
  }

  /** bmap fails only at a block boundary: elsewhere the block is there. */
  lemma FailsAtBoundary(sb: Super, s: Snap, inum: nat, at: nat, len: nat)
    requires Good(sb, s) && inum < sb.ninodes && Mapped(sb, s.v, s.ino, inum, len) && at <= len && at / BSIZE < MAXFILE
    requires Ref(sb, s.v, s.ino, SlotOf(inum, at / BSIZE)) == 0
    ensures at % BSIZE == 0
  {
    hide Ref, Owned;
  }

  lemma FailedFull(sb: Super, s0: Snap, s: Snap, s1: Snap, outstanding: nat, inum: nat, n: nat, off: nat, tot: nat,
                   gained: set<nat>, data: set<nat>, turns: nat, addr: nat, got: set<nat>)
    requires Budget(sb, s0, s, inum, n, off, tot, gained, data, turns) && tot < n
    requires (off + tot) % BSIZE == 0 && CrashSafety.GoodLog(sb.g, s0.lh) && |s1.ino| == |s.ino|
    requires |s1.ino[inum].addrs| == NDIRECT + 1
    requires got <= {addr} + NewIndex(s.ino[inum], s1.ino[inum], (off + tot) / BSIZE)
    requires s.ino[inum].addrs[NDIRECT] != 0 ==> s1.ino[inum].addrs[NDIRECT] == s.ino[inum].addrs[NDIRECT]
    requires Overran(sb, s1.lh, outstanding,
                     Names(s.lh) + got + BitmapBlocks(sb, got) + IndexOf(s1.ino[inum], (off + tot) / BSIZE))
    ensures WriteFailed(sb, s0, s1.lh, outstanding, inum, n)
  {
    hide Names, BitmapBlocks, Owned, Spent, InUse, PartBlock, EntryBound;
    var part := PartBlock(sb, s0, inum, off);
    var m := if n - tot < BSIZE - (off + tot) % BSIZE then n - tot else BSIZE - (off + tot) % BSIZE;
    SpentNext(sb, s0.ino[inum], s.ino[inum], s1.ino[inum], s0.lh, s.lh, s1.lh, n, off, tot, part, gained, data,
      turns, m, {addr}, got);
    SpentBound(sb, s0.ino[inum], s1.ino[inum], s0.lh, s1.lh, n, off, tot + m, part, gained + got, data + {addr},
      turns + 1);
    NamesCount(s0.lh);
    NamesCount(s1.lh);
  }

  lemma SpentSets(sb: Super, s0: Snap, s: Snap, inum: nat, n: nat, off: nat, tot: nat,
                  gained: set<nat>, data: set<nat>, turns: nat)
    requires Budget(sb, s0, s, inum, n, off, tot, gained, data, turns)
    ensures Good(sb, s0) && Good(sb, s) && inum < sb.ninodes && |data| <= turns && (tot < n ==> BSIZE * turns <= tot)
    ensures gained <= data + IfNew(s0.ino[inum], IndexSet(s.ino[inum]))
    ensures s0.ino[inum].addrs[NDIRECT] != 0 ==> s.ino[inum].addrs[NDIRECT] == s0.ino[inum].addrs[NDIRECT]
  {
    hide Names, BitmapBlocks, PartBlock, IfDir, Owned;
  }

  lemma NewIndexSet(ip: Inode, ip2: Inode, bn: nat)
    requires |ip.addrs| == |ip2.addrs| == NDIRECT + 1
    ensures NewIndex(ip, ip2, bn) <= IfNew(ip, IndexSet(ip2)) && |IndexSet(ip2)| <= 1
  {}

  lemma FailedEmpty(sb: Super, s0: Snap, s: Snap, s1: Snap, inum: nat, n: nat, off: nat, tot: nat,
                    gained: set<nat>, data: set<nat>, turns: nat, got: set<nat>)
    requires Budget(sb, s0, s, inum, n, off, tot, gained, data, turns) && tot < n && (off + tot) % BSIZE == 0
    requires Extends(sb, s0.v, s0.ino, s0.owner, s.v, s.ino, s.owner, inum, gained)
    requires Grew(sb, s, s1, inum, got, {}) && NoFree(sb, s1.v)
    requires got <= NewIndex(s.ino[inum], s1.ino[inum], (off + tot) / BSIZE)
    ensures |FreeBlocks(sb, s0.v)| <= BlockCount(n)
  {
    hide Names, BitmapBlocks, Ref, InUse, Budget, IndexSet;
    SpentSets(sb, s0, s, inum, n, off, tot, gained, data, turns);
    IndexKept(sb, s, s1, inum, got);
    NewIndexSet(s.ino[inum], s1.ino[inum], (off + tot) / BSIZE);
    GainedSets(gained, got, data, {}, s0.ino[inum], s.ino[inum], s1.ino[inum]);
    TurnArithmetic(n, off, tot, if n - tot < BSIZE then n - tot else BSIZE, turns);
    var all := data + IfNew(s0.ino[inum], IndexSet(s1.ino[inum]));
    UnionSize(data, IfNew(s0.ino[inum], IndexSet(s1.ino[inum])));
    forall c | c in FreeBlocks(sb, s0.v) ensures c in all {
      assert InUse(sb, s1.v, c);
    }
    Smaller(FreeBlocks(sb, s0.v), all);
  }

  lemma TurnFailed(sb: Super, s0: Snap, s: Snap, s1: Snap, outstanding: nat, inum: nat, src: seq<bv8>, off: nat,
                   tot: nat, gained: set<nat>, data: set<nat>, turns: nat, addr: nat, got: set<nat>)
    requires Copied(sb, s0, s, inum, src, off, tot, gained) && tot < |src|
    requires Budget(sb, s0, s, inum, |src|, off, tot, gained, data, turns) && CrashSafety.GoodLog(sb.g, s0.lh)
    requires (off + tot) / BSIZE < MAXFILE && Ref(sb, s.v, s.ino, SlotOf(inum, (off + tot) / BSIZE)) == 0
    requires BmapFailed(sb, s, s1, outstanding, inum, (off + tot) / BSIZE, addr, got)
    ensures WriteFailed(sb, s0, s1.lh, outstanding, inum, |src|)
  {
    hide Names, BitmapBlocks, Owned, Spent, InUse, Grew, Overran, NoFree, Extends, Ref, FileBytes;
    FailsAtBoundary(sb, s, inum, off + tot, Max(s0.ino[inum].size, off + tot));
    if Good(sb, s1) && NoFree(sb, s1.v) && Grew(sb, s, s1, inum, got, {})
       && got <= NewIndex(s.ino[inum], s1.ino[inum], (off + tot) / BSIZE) {
      FailedEmpty(sb, s0, s, s1, inum, |src|, off, tot, gained, data, turns, got);
    } else {
      FailedFull(sb, s0, s, s1, outstanding, inum, |src|, off, tot, gained, data, turns, addr, got);
    }
  }

  // ----- Which blocks a write takes

  function BnOf(t: Slot): nat {
    match t
    case Direct(_, i) => i
    case Index(_) => NDIRECT
    case Leaf(_, j) => NDIRECT + j
  }

  /** The slot is for bytes off up to off + n of the file. */
  predicate SlotFor(t: Slot, inum: nat, off: nat, n: nat) {
    && t.inum == inum
    && if t.Index? then off + n > NDIRECT * BSIZE else BnOf(t) * BSIZE < off + n && (BnOf(t) + 1) * BSIZE > off
  }

  /** No block changed hands and other files' blocks are as they were; the new blocks are the lowest
      that were free, all for the bytes written, an index block before what it lists. */
  ghost predicate Took(sb: Super, s: Snap, s': Snap, inum: nat, off: nat, n: nat)
    requires Good(sb, s)
  {
    && (forall b :: b in s.owner ==> b in s'.owner && s'.owner[b] == s.owner[b])
    && (forall b :: b in s'.owner && b !in s.owner ==> SlotFor(s'.owner[b], inum, off, n))
    && Lowest(sb, s.v, s'.owner.Keys - s.owner.Keys) && IndexFirst(s, s')
    && |s'.v| == |s.v| && (forall b: nat :: b < |s.v| && b in s.owner && s.owner[b].inum != inum ==> s'.v[b] == s.v[b])
  }

  ghost predicate NewIn(s: Snap, s': Snap, b: nat) { b in s'.owner && b !in s.owner }

  ghost predicate IndexFirst(s: Snap, s': Snap) {
    forall b, c :: NewIn(s, s', b) && NewIn(s, s', c) && s'.owner[b].Index? && s'.owner[c].Leaf? ==> b < c
  }

  lemma TookNothing(sb: Super, s: Snap, inum: nat, off: nat)
    requires Good(sb, s)
    ensures Took(sb, s, s, inum, off, 0)
  {}

  /** Who owns what after bmap. */
  lemma BmapOwners(sb: Super, s: Snap, s1: Snap, inum: nat, bn: nat, addr: nat, got: set<nat>)
    requires BmapDone(sb, s, s1, inum, bn, addr, got)
    ensures got !! s.owner.Keys && s1.owner.Keys == s.owner.Keys + got && |s1.v| == |s.v|
    ensures forall b :: b in s.owner ==> b in s1.owner && s1.owner[b] == s.owner[b]
    ensures addr in s1.owner && s1.owner[addr] == SlotOf(inum, bn)
    ensures forall b :: b in got && b != addr ==> b in s1.owner && s1.owner[b] == Index(inum) && bn >= NDIRECT
    ensures forall b :: b in s.owner && b < |s.v| && (!s.owner[b].Index? || s.owner[b].inum != inum) ==>
      s1.v[b] == s.v[b]
    ensures Good(sb, s1) && Lowest(sb, s.v, got) && forall b :: b in got ==> b <= addr
  {
    hide Names, InUse, Lowest;
    SlotOfValid(sb, inum, bn);
    if s1.ino[inum].addrs[NDIRECT] != 0 { IndexIsOwned(sb, s1.v, s1.ino, s1.owner, inum); }
    hide Ref;
  }

  lemma TookTurn(sb: Super, s0: Snap, s: Snap, s1: Snap, inum: nat, src: seq<bv8>, off: nat, tot: nat, m: nat,
                 gained: set<nat>, addr: nat, got: set<nat>)
    requires Copied(sb, s0, s, inum, src, off, tot, gained) && Took(sb, s0, s, inum, off, tot) && 0 < m
    requires BmapDone(sb, s, s1, inum, (off + tot) / BSIZE, addr, got)
    ensures Took(sb, s0, s1, inum, off, tot + m)
  {
    hide Names, InUse, FileBytes, Mapped, Lowest, BmapDone, Owned, Ref, Written;
    var bn := (off + tot) / BSIZE;
    BmapOwners(sb, s, s1, inum, bn, addr, got);
    assert s.owner.Keys - s0.owner.Keys == gained && s1.owner.Keys - s0.owner.Keys == gained + got;
    LowestTrans(sb, s0, s, inum, gained, got);
    IndexStaysFirst(sb, s0, s, s1, inum, bn, addr, got);
    hide Extends, Copied, IndexFirst;
    SlotForBn(inum, bn, off, tot, m);
    forall b | b in s1.owner && b !in s0.owner ensures SlotFor(s1.owner[b], inum, off, tot + m) {
      if b in s.owner { assert SlotFor(s.owner[b], inum, off, tot); }
    }
  }

  lemma IndexStaysFirst(sb: Super, s0: Snap, s: Snap, s1: Snap, inum: nat, bn: nat, addr: nat, got: set<nat>)
    requires Good(sb, s0) && Good(sb, s) && BmapDone(sb, s, s1, inum, bn, addr, got) && IndexFirst(s0, s)
    requires (forall b :: b in s0.owner ==> b in s.owner && s.owner[b] == s0.owner[b])
    requires Lowest(sb, s0.v, s.owner.Keys - s0.owner.Keys)
    requires forall b :: b in s.owner && b !in s0.owner ==> s.owner[b].inum == inum
    ensures IndexFirst(s0, s1)
  {
    hide BmapDone, Owned, Lowest;
    BmapOwners(sb, s, s1, inum, bn, addr, got);
    forall b, c | NewIn(s0, s1, b) && NewIn(s0, s1, c) && s1.owner[b].Index? && s1.owner[c].Leaf? ensures b < c {
      if b in s.owner && c in s.owner { assert NewIn(s0, s, b) && NewIn(s0, s, c); }
      if c in got { AboveTaken(sb, s0, s, s1, b, c); }
      if b in got && c in s.owner { NoLeafYet(sb, s, s1, inum, bn, addr, got, c); }
    }
  }

  /** A block free later is free now, so it lies above the lowest ones taken in between. */
  lemma AboveTaken(sb: Super, s0: Snap, s: Snap, s1: Snap, b: nat, c: nat)
    requires Good(sb, s0) && Good(sb, s) && Good(sb, s1) && Lowest(sb, s0.v, s.owner.Keys - s0.owner.Keys)
    requires s0.owner.Keys <= s.owner.Keys && c in s1.owner && c !in s.owner
    ensures b in s.owner && b !in s0.owner ==> b < c
  {
    hide Ref, InUse;
    assert IsData(sb, c) && !InUse(sb, s0.v, c);
    var taken := s.owner.Keys - s0.owner.Keys;
    if b in s.owner && b !in s0.owner { assert b in taken && c !in taken; }
  }

  /** An index block is not new when the file has a block under it. */
  lemma NoLeafYet(sb: Super, s: Snap, s1: Snap, inum: nat, bn: nat, addr: nat, got: set<nat>, c: nat)
    requires BmapDone(sb, s, s1, inum, bn, addr, got) && c in s.owner && s.owner[c].Leaf? && s.owner[c].inum == inum
    ensures got <= {addr} && !s1.owner[addr].Index?
  {
    hide InUse, Word, Names, Lowest;
    assert ValidSlot(sb, s.owner[c]) && Ref(sb, s.v, s.ino, s.owner[c]) == c && IsData(sb, c);
    BmapOwners(sb, s, s1, inum, bn, addr, got);
  }

  lemma SlotForBn(inum: nat, bn: nat, off: nat, tot: nat, m: nat)
    requires bn == (off + tot) / BSIZE && m > 0
    ensures SlotFor(SlotOf(inum, bn), inum, off, tot + m)
    ensures bn >= NDIRECT ==> SlotFor(Index(inum), inum, off, tot + m)
  {}

  // ----- The write loop

  lemma TypeKept(sb: Super, s0: Snap, s: Snap, s1: Snap, inum: nat, src: seq<bv8>, off: nat, tot: nat,
                 gained: set<nat>, addr: nat, got: set<nat>)
    requires Copied(sb, s0, s, inum, src, off, tot, gained)
    requires BmapDone(sb, s, s1, inum, (off + tot) / BSIZE, addr, got)
    ensures s1.ino[inum].typ == s0.ino[inum].typ
  {
    hide Ref, Owned, Extends, FileBytes, Mapped, Written;
    ExtendsInode(sb, s0, s, inum, gained, inum);
    ExtendsInode(sb, s, s1, inum, got, inum);
  }

  /** Directory blocks go through the log, file blocks straight to the disk. */
  method StoreBlock(fs: FS.FileSystem, inum: nat, addr: nat, bp: Block, off: nat, len: nat) returns (ok: bool)
    requires fs.Attached() && inum < fs.sb.ninodes && IsData(fs.sb, addr) && off + len <= BSIZE
    requires forall j :: 0 <= j < BSIZE && !(off <= j < off + len) ==> bp[j] == fs.log.view[addr][j]
    modifies fs.log
    ensures fs.log.outstanding == old(fs.log.outstanding)
    ensures fs.log.view == old(fs.log.view)[addr := bp]
    ensures ok ==> fs.Attached()
    ensures fs.ino[inum].typ != T_DIR ==> ok && fs.log.lh == old(fs.log.lh)
    ensures ok ==> Names(fs.log.lh) == old(Names(fs.log.lh)) + IfDir(fs.ino[inum].typ, {addr})
    ensures !ok ==> fs.log.lh == old(fs.log.lh) && FullAt(fs.sb, fs.log.lh, fs.log.outstanding)
    ensures fs.log.disk == if fs.ino[inum].typ == T_DIR then old(fs.log.disk) else old(fs.log.disk)[addr := bp]
    ensures !ok ==> fs.Stuck()
  {
    hide CrashSafety.Absorb, CrashSafety.Ready, InodeOk, Names;
    CrashSafety.NamesAbsorb(fs.log.lh, addr, off, len);
    DataIsHome(fs.sb, addr);
    if fs.ino[inum].typ == T_DIR {
      ok := fs.log.Update(addr, bp, off, len);
    } else {
      fs.log.WriteThrough(addr, bp);
      ok := true;
    }
  }

  predicate FileBlock(owner: map<nat, Slot>, inum: nat, x: nat) {
    x in owner && owner[x].inum == inum && !owner[x].Index?
  }

  /** Since (s0, d0) nothing was freed, and on the disk itself only blocks of file inum
      changed; the data blocks files already had and those gained are on the disk as in the cache. */
  ghost predicate InPlace(s0: Snap, d0: Disk, s: Snap, d: Disk, inum: nat) {
    && |d| == |d0| == |s.v| == |s0.v|
    && (forall b :: b in s0.owner ==> b in s.owner && s.owner[b] == s0.owner[b])
    && (forall x: nat :: x < |d| && d[x] != d0[x] ==> FileBlock(s.owner, inum, x))
    && (forall b: nat :: b < |d| && b in s0.owner && !s0.owner[b].Index? && d0[b] == s0.v[b] ==> d[b] == s.v[b])
    && (forall b: nat :: b < |d| && b in s.owner && b !in s0.owner && !s.owner[b].Index? ==> d[b] == s.v[b])
  }

  lemma InPlaceTurn(sb: Super, s0: Snap, d0: Disk, s: Snap, d: Disk, s1: Snap, s2: Snap, d2: Disk, inum: nat, bn: nat,
                    addr: nat, got: set<nat>, bp: Block)
    requires InPlace(s0, d0, s, d, inum) && BmapDone(sb, s, s1, inum, bn, addr, got) && addr < |s1.v| == |d|
    requires s2.v == s1.v[addr := bp] && s2.owner == s1.owner && d2 == d[addr := bp]
    ensures InPlace(s0, d0, s2, d2, inum)
  {
    hide BmapDone, Lowest;
    BmapOwners(sb, s, s1, inum, bn, addr, got);
    forall x: nat | x < |d2| && d2[x] != d0[x] ensures FileBlock(s2.owner, inum, x) {
      if x != addr { assert FileBlock(s.owner, inum, x); }
    }
  }

  lemma InPlaceStart(s0: Snap, d0: Disk, inum: nat)
    requires |d0| == |s0.v|
    ensures InPlace(s0, d0, s0, d0, inum)
  {}

  lemma InPlaceEnd(sb: Super, s0: Snap, d0: Disk, s: Snap, s2: Snap, d: Disk, inum: nat)
    requires Good(sb, s0) && InPlace(s0, d0, s, d, inum) && s2.owner == s.owner && |s2.v| == |s.v| == sb.g.size
    requires forall x: nat :: sb.bmapstart <= x < sb.g.size ==> s2.v[x] == s.v[x]
    requires Good(sb, s)
    ensures InPlace(s0, d0, s2, d, inum)
  {
    hide Ref, InUse;
  }

  /** writei between two turns of its loop: the first tot bytes are written, nothing of the inode is
      written back yet, and on the disk itself there is what went there directly. */
  ghost predicate Midway(sb: Super, s0: Snap, d0: Disk, s: Snap, d: Disk, inum: nat, src: seq<bv8>, off: nat, tot: nat,
                         gained: set<nat>)
  {
    && Copied(sb, s0, s, inum, src, off, tot, gained) && Took(sb, s0, s, inum, off, tot)
    && (if s0.ino[inum].typ == T_DIR then d == d0 else InPlace(s0, d0, s, d, inum))
    && (off + tot <= s0.ino[inum].size ==> s.ino == s0.ino)
  }

  lemma MidwayStart(sb: Super, s: Snap, d: Disk, inum: nat, src: seq<bv8>, off: nat)
    requires Good(sb, s) && inum < sb.ninodes && FileOk(sb, s.v, s.ino, inum) && |d| == |s.v|
    requires off <= s.ino[inum].size && off + |src| <= MAXFILE * BSIZE
    ensures Midway(sb, s, d, s, d, inum, src, off, 0, {})
  {
    hide Copied, Took, InPlace, FileOk, Owned;
    CopiedStart(sb, s, inum, src, off);
    TookNothing(sb, s, inum, off);
    InPlaceStart(s, d, inum);
  }

  lemma MidwayTurn(sb: Super, s0: Snap, d0: Disk, s: Snap, d: Disk, s1: Snap, s2: Snap, d2: Disk, inum: nat,
                   src: seq<bv8>, off: nat, tot: nat, gained: set<nat>, m: nat, addr: nat, got: set<nat>, bp: Block)
    requires Midway(sb, s0, d0, s, d, inum, src, off, tot, gained) && 0 < m && tot + m <= |src|
    requires BmapDone(sb, s, s1, inum, (off + tot) / BSIZE, addr, got)
    requires m <= BSIZE - (off + tot) % BSIZE && addr < |s1.v| == |d|
    requires bp == Patch(s1.v[addr], (off + tot) % BSIZE, src[tot..tot + m])
    requires s2.v == s1.v[addr := bp] && s2.ino == s1.ino && s2.owner == s1.owner
    requires d2 == if s0.ino[inum].typ == T_DIR then d else d[addr := bp]
    ensures Midway(sb, s0, d0, s2, d2, inum, src, off, tot + m, gained + got)
  {
    hide Copied, Took, InPlace, BmapDone, Patch, Owned;
    var at := off + tot;
    TookTurn(sb, s0, s, s1, inum, src, off, tot, m, gained, addr, got);
    CopiedTurn(sb, s0, s, s1, s2, inum, src, off, tot, gained, m, addr, got);
    BmapOwners(sb, s, s1, inum, at / BSIZE, addr, got);
    CopiedGood(sb, s0, s, inum, src, off, tot, gained);
    TookSame(sb, s0, s1, s2, inum, off, tot + m);
    if s0.ino[inum].typ != T_DIR { InPlaceTurn(sb, s0, d0, s, d, s1, s2, d2, inum, at / BSIZE, addr, got, bp); }
    if at < s0.ino[inum].size { TurnInside(sb, s0, s, s1, inum, src, off, tot, gained, addr, got); }
  }

  lemma CopiedGood(sb: Super, s0: Snap, s: Snap, inum: nat, src: seq<bv8>, off: nat, tot: nat, gained: set<nat>)
    requires Copied(sb, s0, s, inum, src, off, tot, gained)
    ensures Good(sb, s0) && Good(sb, s) && inum < sb.ninodes && off + |src| <= MAXFILE * BSIZE && tot <= |src|
  {}

  /** One turn of writei's loop. */
  method WriteTurnOf(fs: FS.FileSystem, inum: nat, src: seq<bv8>, off: nat, tot: nat, ghost s0: Snap, ghost d0: Disk,
                     ghost gained: set<nat>, ghost data: set<nat>, ghost turns: nat)
      returns (m: nat, ok: bool, ghost gained': set<nat>, ghost data': set<nat>, ghost turns': nat)
    requires fs.Valid() && tot < |src|
    requires Midway(fs.sb, s0, d0, fs.Now(), fs.log.disk, inum, src, off, tot, gained)
    requires Budget(fs.sb, s0, fs.Now(), inum, |src|, off, tot, gained, data, turns)
    requires CrashSafety.GoodLog(fs.sb.g, s0.lh)
    modifies fs, fs.log
    ensures fs.log.outstanding == old(fs.log.outstanding) && |fs.log.view| == fs.sb.g.size
    ensures ok ==> fs.Valid() && 0 < m && tot + m <= |src|
    ensures ok ==> Midway(fs.sb, s0, d0, fs.Now(), fs.log.disk, inum, src, off, tot + m, gained')
    ensures ok ==> Budget(fs.sb, s0, fs.Now(), inum, |src|, off, tot + m, gained', data', turns')
    ensures ok ==> OneWrite(old(fs.log.disk), fs.log.disk)
    ensures !ok ==> fs.Stuck() && fs.log.disk == old(fs.log.disk)
    ensures !ok ==> WriteFailed(fs.sb, s0, fs.log.lh, fs.log.outstanding, inum, |src|)
  {
    hide Ref, Owned, Extends, BmapDone, Names, Copied, Patch, CrashSafety.Ready, InPlace, Took, Spent, WriteFailed,
      BmapFailed, CrashSafety.GoodLog, PartBlock, EntryBound, BlockAt;
    gained', data', turns' := gained, data, turns;
    var at := off + tot;
    ghost var s, d := fs.Now(), fs.log.disk;
    CopiedGood(fs.sb, s0, s, inum, src, off, tot, gained);
    m := if |src| - tot < BSIZE - at % BSIZE then |src| - tot else BSIZE - at % BSIZE;
    var addr;
    ghost var got;
    addr, ok, got := fs.Bmap(inum, at / BSIZE);
    ghost var s1 := fs.Now();
    if !ok {
      TurnFailed(fs.sb, s0, s, s1, fs.log.outstanding, inum, src, off, tot, gained, data, turns, addr, got);
      return;
    }
    StartOrBoundary(fs.sb, s0, s, inum, |src|, off, tot, gained, data, turns);
    TurnAtBoundary(fs.sb, s0, s, s1, inum, src, off, tot, gained, addr, got);
    TypeKept(fs.sb, s0, s, s1, inum, src, off, tot, gained, addr, got);
    ReadyLog(fs.sb.g, fs.log.disk, fs.log.view, fs.log.lh);
    var bp := Patch(fs.log.view[addr], at % BSIZE, src[tot..tot + m]);
    ok := StoreBlock(fs, inum, addr, bp, at % BSIZE, m);
    if !ok {
      StoreFailed(fs.sb, s0, s, s1, fs.log.lh, fs.log.outstanding, inum, |src|, off, tot, gained, data, turns, m, addr,
        got);
      return;
    }
    MidwayTurn(fs.sb, s0, d0, s, d, s1, fs.Now(), fs.log.disk, inum, src, off, tot, gained, m, addr, got, bp);
    CopiedGood(fs.sb, s0, fs.Now(), inum, src, off, tot + m, gained + got);
    data', turns' := BudgetTurn(fs.sb, s0, s, s1, fs.Now(), inum, |src|, off, tot, gained, data, turns, m, addr, got);
    gained' := gained + got;
  }

  /** At most one block was written. */
  ghost predicate OneWrite(d: Disk, d': Disk) {
    && |d'| == |d|
    && forall b, c :: 0 <= b < |d| && 0 <= c < |d| && d'[b] != d[b] && d'[c] != d[c] ==> b == c
  }

  lemma ReadyLog(g: CrashSafety.Geometry, d: Disk, v: Disk, lh: seq<Entry>)
    requires CrashSafety.Ready(g, d, v, lh)
    ensures CrashSafety.GoodLog(g, lh) && |d| == |v| == g.size
  {}

  /** Every turn but the first begins at a block boundary. */
  lemma StartOrBoundary(sb: Super, s0: Snap, s: Snap, inum: nat, n: nat, off: nat, tot: nat,
                        gained: set<nat>, data: set<nat>, turns: nat)
    requires Budget(sb, s0, s, inum, n, off, tot, gained, data, turns) && tot < n
    ensures tot == 0 || (off + tot) % BSIZE == 0
  {
    hide Owned, Names, PartBlock, BitmapBlocks;
  }

  lemma StoreFailed(sb: Super, s0: Snap, s: Snap, s1: Snap, lh: seq<Entry>, outstanding: nat, inum: nat, n: nat,
                    off: nat, tot: nat, gained: set<nat>, data: set<nat>, turns: nat, m: nat, addr: nat, got: set<nat>)
    requires Budget(sb, s0, s, inum, n, off, tot, gained, data, turns) && tot < n && Good(sb, s1)
    requires m == (if n - tot < BSIZE - (off + tot) % BSIZE then n - tot else BSIZE - (off + tot) % BSIZE)
    requires BmapDone(sb, s, s1, inum, (off + tot) / BSIZE, addr, got)
    requires (off + tot) % BSIZE != 0 ==> got == {} && {addr} == PartBlock(sb, s0, inum, off)
    requires lh == s1.lh && FullAt(sb, lh, outstanding)
    requires CrashSafety.GoodLog(sb.g, s0.lh) && CrashSafety.GoodLog(sb.g, lh)
    ensures WriteFailed(sb, s0, lh, outstanding, inum, n)
  {
    hide Names, Spent, BitmapBlocks, Owned, Grew, PartBlock, EntryBound;
    var data', turns' := BudgetTurn(sb, s0, s, s1, s1, inum, n, off, tot, gained, data, turns, m, addr, got);
    SpentBound(sb, s0.ino[inum], s1.ino[inum], s0.lh, s1.lh, n, off, tot + m, PartBlock(sb, s0, inum, off),
      gained + got, data', turns');
    NamesCount(s0.lh);
    NamesCount(s1.lh);
  }

  lemma TookSame(sb: Super, s0: Snap, s: Snap, s': Snap, inum: nat, off: nat, n: nat)
    requires Good(sb, s0) && Took(sb, s0, s, inum, off, n) && s'.owner == s.owner && |s'.v| == |s.v|
    requires forall b: nat :: b < |s.v| && b in s.owner && s.owner[b].inum != inum ==> s'.v[b] == s.v[b]
    ensures Took(sb, s0, s', inum, off, n)
  {
    hide Owned, Lowest;
  }

  lemma DataIsHome(sb: Super, b: nat)
    requires SuperOk(sb) && IsData(sb, b)
    ensures CrashSafety.IsHome(sb.g, b)
  {}

  /** A complete write of src at off. */
  ghost predicate WriteDone(sb: Super, s: Snap, s': Snap, inum: nat, src: seq<bv8>, off: nat) {
    && Good(sb, s) && Good(sb, s') && inum < sb.ninodes
    && FileOk(sb, s.v, s.ino, inum) && FileOk(sb, s'.v, s'.ino, inum) && off <= s.ino[inum].size
    && Content(sb, s'.v, s'.ino, inum) == Written(Content(sb, s.v, s.ino, inum), off, src)
    && s'.ino[inum] == s.ino[inum].(size := Max(s.ino[inum].size, off + |src|), addrs := s'.ino[inum].addrs)
    && OnlyFile(sb, s, s', inum)
    && (Synced(sb, s) ==> Synced(sb, s'))
  }

  /** Writing an inode back leaves every file's bytes alone. */
  lemma IupdateKeeps(sb: Super, s: Snap, s': Snap, inum: nat)
    requires Good(sb, s) && Good(sb, s') && inum < sb.ninodes && FileOk(sb, s.v, s.ino, inum)
    requires s'.ino == s.ino && s'.owner == s.owner
    requires forall x: nat :: sb.bmapstart <= x < sb.g.size ==> s'.v[x] == s.v[x]
    ensures FileOk(sb, s'.v, s'.ino, inum)
    ensures Content(sb, s'.v, s'.ino, inum) == Content(sb, s.v, s.ino, inum)
    ensures OnlyFile(sb, s, s', inum)
  {
    hide Ref, FileBytes, InUse;
    DataIsNotInode(sb, s.v, s.ino, s.owner);
    OwnedFrame(sb, s.v, s.ino, s.owner, s'.v);
    forall n: nat | n < sb.ninodes && FileOk(sb, s.v, s.ino, n)
      ensures FileOk(sb, s'.v, s'.ino, n) && Content(sb, s'.v, s'.ino, n) == Content(sb, s.v, s.ino, n)
    {
      forall bn | 0 <= bn < MAXFILE && bn * BSIZE < s.ino[n].size
        ensures Ref(sb, s'.v, s'.ino, SlotOf(n, bn)) == Ref(sb, s.v, s.ino, SlotOf(n, bn))
        ensures s'.v[Ref(sb, s.v, s.ino, SlotOf(n, bn))] == s.v[Ref(sb, s.v, s.ino, SlotOf(n, bn))]
      {
        SlotOfValid(sb, n, bn);
      }
      BytesFrame(sb, s.v, s.ino, s'.v, s'.ino, n, s.ino[n].size);
    }
  }

  lemma ExtendsDinode(sb: Super, s: Snap, s': Snap, inum: nat, gained: set<nat>, n: nat)
    requires Good(sb, s) && Good(sb, s') && inum < sb.ninodes && n < sb.ninodes
    requires Extends(sb, s.v, s.ino, s.owner, s'.v, s'.ino, s'.owner, inum, gained)
    ensures Dinode(sb, s'.v, n) == Dinode(sb, s.v, n)
  {
    hide Ref, Owned, GetInode;
    InodeBlockHome(sb, n);
  }

  /** writei ended inside the old size: no block was allocated, no inode changed. */
  lemma FinishInside(sb: Super, s0: Snap, s: Snap, inum: nat, src: seq<bv8>, off: nat, gained: set<nat>)
    requires Copied(sb, s0, s, inum, src, off, |src|, gained)
    requires s.ino == s0.ino && off + |src| <= s0.ino[inum].size
    ensures WriteDone(sb, s0, s, inum, src, off)
  {
    hide Ref, Owned, Extends, Mapped, Dinode, FileBytes;
    assert src[..|src|] == src;
    ExtendsOnlyFile(sb, s0, s, inum, gained);
    ExtendsInode(sb, s0, s, inum, gained, inum);
    if Synced(sb, s0) {
      forall n: nat | n < sb.ninodes ensures Dinode(sb, s.v, n) == s.ino[n] {
        ExtendsDinode(sb, s0, s, inum, gained, n);
      }
    }
  }

  /** writei grew the file and wrote the inode, with all new addresses, back. */
  lemma FinishGrown(sb: Super, s0: Snap, s: Snap, s1: Snap, s2: Snap, inum: nat, src: seq<bv8>, off: nat,
                    gained: set<nat>)
    requires Copied(sb, s0, s, inum, src, off, |src|, gained) && off + |src| > s0.ino[inum].size
    requires s1 == s.(ino := s.ino[inum := s.ino[inum].(size := off + |src|)])
    requires Good(sb, s1) && Good(sb, s2) && s2.ino == s1.ino && s2.owner == s1.owner
    requires forall x: nat :: sb.bmapstart <= x < sb.g.size ==> s2.v[x] == s1.v[x]
    requires forall n: nat :: n < sb.ninodes ==>
      Dinode(sb, s2.v, n) == if n == inum then s1.ino[inum] else Dinode(sb, s1.v, n)
    ensures WriteDone(sb, s0, s2, inum, src, off)
  {
    hide Ref, Owned, Extends, Mapped, Dinode, FileBytes;
    assert src[..|src|] == src;
    ExtendsOnlyFile(sb, s0, s, inum, gained);
    ExtendsInode(sb, s0, s, inum, gained, inum);
    Resize(sb, s, s1, inum, off + |src|);
    OnlyFileTrans(sb, s0, s, s1, inum);
    IupdateKeeps(sb, s1, s2, inum);
    OnlyFileTrans(sb, s0, s1, s2, inum);
    if Synced(sb, s0) {
      forall n: nat | n < sb.ninodes ensures Dinode(sb, s2.v, n) == s2.ino[n] {
        ExtendsDinode(sb, s0, s, inum, gained, n);
      }
    }
  }

  /** The volume with inode inum written back. */
  lemma WrittenBack(sb: Super, s: Snap, inum: nat) returns (s': Snap)
    requires Good(sb, s) && inum < sb.ninodes
    ensures Good(sb, s') && s'.ino == s.ino && s'.owner == s.owner
    ensures forall x: nat :: sb.bmapstart <= x < sb.g.size ==> s'.v[x] == s.v[x]
    ensures forall n: nat :: n < sb.ninodes ==>
      Dinode(sb, s'.v, n) == if n == inum then s.ino[inum] else Dinode(sb, s.v, n)
  {
    hide PutWords, Dinode, Owned;
    InodeBlockHome(sb, inum);
    var b := InodeBlock(sb, inum);
    s' := s.(v := s.v[b := PutWords(s.v[b], inum % IPB, s.ino[inum], INODE_WORDS)]);
    forall n: nat | n < sb.ninodes
      ensures Dinode(sb, s'.v, n) == if n == inum then s.ino[inum] else Dinode(sb, s.v, n)
    {
      StoreInode(sb, s.v, inum, s.ino[inum], n);
    }
    DataIsNotInode(sb, s.v, s.ino, s.owner);
    OwnedFrame(sb, s.v, s.ino, s.owner, s'.v);
  }

  lemma CopiedPart(sb: Super, s0: Snap, s: Snap, inum: nat, src: seq<bv8>, off: nat, tot: nat, gained: set<nat>)
    requires Copied(sb, s0, s, inum, src, off, tot, gained)
    ensures |src[..tot]| == tot && Copied(sb, s0, s, inum, src[..tot], off, tot, gained)
  {
    hide Owned, Ref, Extends, FileBytes, Mapped, Written;
    assert src[..tot][..tot] == src[..tot];
  }

  /** A write that got as far as tot bytes is a finished write of those bytes, as far as the disk shows. */
  lemma FinishPart(sb: Super, s0: Snap, d0: Disk, s: Snap, d: Disk, inum: nat, src: seq<bv8>, off: nat, tot: nat,
                   gained: set<nat>) returns (s': Snap)
    requires Midway(sb, s0, d0, s, d, inum, src, off, tot, gained)
    ensures Good(sb, s0) && tot <= |src| && s'.owner == s.owner
    ensures WriteDone(sb, s0, s', inum, src[..tot], off) && Took(sb, s0, s', inum, off, tot)
    ensures if s0.ino[inum].typ == T_DIR then d == d0 else InPlace(s0, d0, s', d, inum)
  {
    hide Copied, Took, InPlace, WriteDone, Owned, Dinode;
    CopiedGood(sb, s0, s, inum, src, off, tot, gained);
    CopiedPart(sb, s0, s, inum, src, off, tot, gained);
    if off + tot <= s0.ino[inum].size {
      s' := s;
      FinishInside(sb, s0, s, inum, src[..tot], off, gained);
    } else {
      ResizeCopied(sb, s0, s, inum, src[..tot], off, gained);
      var s1 := s.(ino := s.ino[inum := s.ino[inum].(size := off + tot)]);
      s' := WrittenBack(sb, s1, inum);
      FinishGrown(sb, s0, s, s1, s', inum, src[..tot], off, gained);
      DataIsNotInode(sb, s.v, s.ino, s.owner);
      TookSame(sb, s0, s, s', inum, off, tot);
      if s0.ino[inum].typ != T_DIR { InPlaceEnd(sb, s0, d0, s, s', d, inum); }
    }
  }

  /** A moment between two turns of the loop in writei. */
  datatype Moment = Moment(s: Snap, d: Disk, tot: nat, gained: set<nat>)

  /** The moments a call passes: from (s0, d0) on, a turn and at most one block written between two. */
  ghost predicate Passes(sb: Super, s0: Snap, d0: Disk, inum: nat, src: seq<bv8>, off: nat, passed: seq<Moment>) {
    && |passed| > 0 && passed[0].s == s0 && passed[0].d == d0 && passed[0].tot == 0
    && (forall i :: 0 <= i < |passed| ==>
          Midway(sb, s0, d0, passed[i].s, passed[i].d, inum, src, off, passed[i].tot, passed[i].gained))
    && (forall i :: 0 <= i < |passed| - 1 ==> OneWrite(passed[i].d, passed[i + 1].d))
  }

  lemma PassesMore(sb: Super, s0: Snap, d0: Disk, inum: nat, src: seq<bv8>, off: nat, passed: seq<Moment>, m: Moment)
    requires Passes(sb, s0, d0, inum, src, off, passed) && OneWrite(passed[|passed| - 1].d, m.d)
    requires Midway(sb, s0, d0, m.s, m.d, inum, src, off, m.tot, m.gained)
    ensures Passes(sb, s0, d0, inum, src, off, passed + [m])
  {
    hide Midway, OneWrite;
    var more := passed + [m];
    forall i | 0 <= i < |more| - 1 ensures OneWrite(more[i].d, more[i + 1].d) {
      if i < |passed| - 1 { assert OneWrite(passed[i].d, passed[i + 1].d); }
    }
  }

  /** writei on a file or directory; None is the source's -1, ok is false where the
      kernel panics.  passed holds the moments between the turns of its loop. */
  method Writei(fs: FS.FileSystem, inum: nat, src: seq<bv8>, off: nat)
      returns (r: Option<nat>, ok: bool, ghost passed: seq<Moment>)
    requires fs.Valid() && inum < fs.sb.ninodes && FileOk(fs.sb, fs.log.view, fs.ino, inum)
    requires fs.ino[inum].typ != T_DEV && off < MAX_UINT && |src| < MAX_UINT
    modifies fs, fs.log
    ensures |fs.log.view| == fs.sb.g.size && fs.log.outstanding == old(fs.log.outstanding)
    ensures ok ==> fs.Valid()
    ensures ok ==>
      (r.None? <==> off > old(fs.ino[inum].size) || off + |src| >= MAX_UINT || off + |src| > MAXFILE * BSIZE)
    ensures ok && r.None? ==> fs.Now() == old(fs.Now()) && fs.log.disk == old(fs.log.disk)
    ensures ok && r.Some? ==> r.value == |src| && WriteDone(fs.sb, old(fs.Now()), fs.Now(), inum, src, off)
    ensures ok && r.Some? ==> |fs.log.lh| <= |old(fs.log.lh)| + EntryBound(old(fs.ino[inum].typ), |src|)
    ensures ok && r.Some? && old(fs.ino[inum].typ) != T_DIR ==>
      InPlace(old(fs.Now()), old(fs.log.disk), fs.Now(), fs.log.disk, inum)
    ensures ok && r.Some? ==> Took(fs.sb, old(fs.Now()), fs.Now(), inum, off, |src|)
    ensures old(fs.ino[inum].typ) == T_DIR ==> fs.log.disk == old(fs.log.disk)
    ensures !ok || r.Some? ==> Passes(fs.sb, old(fs.Now()), old(fs.log.disk), inum, src, off, passed)
    ensures !ok || r.Some? ==> fs.log.disk == passed[|passed| - 1].d
    ensures !ok ==> fs.Stuck()
    ensures !ok ==>
      || |FreeBlocks(fs.sb, old(fs.log.view))| <= BlockCount(|src|)
      || |old(fs.log.lh)| + EntryBound(old(fs.ino[inum].typ), |src|) > Min(LOGSIZE, fs.sb.g.nlog - 1)
      || fs.log.outstanding < 1
  {
    hide Ref, Owned, Copied, Budget, WriteDone, CrashSafety.Cleared, CrashSafety.Covered, CrashSafety.GoodLog, Names,
      Dinode, FileOk, InPlace, Took, Passes, OneWrite, InodeAt;
    r, ok, passed := None, true, [];
    if off > fs.ino[inum].size || (off + |src|) % MAX_UINT < off {
      return;
    }
    if off + |src| > MAXFILE * BSIZE {
      return;
    }
    ghost var s0, d0 := fs.Now(), fs.log.disk;
    ghost var gained: set<nat>, data: set<nat>, turns: nat := {}, {}, 0;
    MidwayStart(fs.sb, s0, d0, inum, src, off);
    BudgetStart(fs.sb, s0, inum, |src|, off);
    PassesStart(fs.sb, s0, d0, inum, src, off);
    passed := [Moment(s0, d0, 0, {})];
    var tot := 0;
    while tot < |src|
      invariant 0 <= tot <= |src| && fs.Valid() && fs.log.outstanding == old(fs.log.outstanding)
      invariant Midway(fs.sb, s0, d0, fs.Now(), fs.log.disk, inum, src, off, tot, gained)
      invariant Budget(fs.sb, s0, fs.Now(), inum, |src|, off, tot, gained, data, turns)
      invariant Passes(fs.sb, s0, d0, inum, src, off, passed) && |passed| > 0 && fs.log.disk == passed[|passed| - 1].d
    {
      var m;
      m, ok, gained, data, turns := WriteTurnOf(fs, inum, src, off, tot, s0, d0, gained, data, turns);
      if !ok { return; }
      tot := tot + m;
      PassesMore(fs.sb, s0, d0, inum, src, off, passed, Moment(fs.Now(), fs.log.disk, tot, gained));
      passed := passed + [Moment(fs.Now(), fs.log.disk, tot, gained)];
    }
    ghost var s := fs.Now();
    CopiedSize(fs.sb, s0, s, inum, src, off, gained);
    if |src| > 0 && off + |src| > fs.ino[inum].size {
      ResizeCopied(fs.sb, s0, s, inum, src, off, gained);
      fs.ino := fs.ino[inum := fs.ino[inum].(size := off + |src|)];
      ghost var s1 := fs.Now();
      ok := fs.Iupdate(inum);
      if !ok {
        EntriesBefore(fs.sb, s0, s, inum, |src|, off, gained, data, turns);
        return;
      }
      DataIsNotInode(fs.sb, s.v, s.ino, s.owner);
      TookSame(fs.sb, s0, s, fs.Now(), inum, off, |src|);
      FinishGrown(fs.sb, s0, s, s1, fs.Now(), inum, src, off, gained);
      EntriesAfter(fs.sb, s0, s, fs.Now(), inum, |src|, off, gained, data, turns);
      if s0.ino[inum].typ != T_DIR { InPlaceEnd(fs.sb, s0, d0, s, fs.Now(), fs.log.disk, inum); }
    } else {
      FinishInside(fs.sb, s0, s, inum, src, off, gained);
      EntriesAfter(fs.sb, s0, s, s, inum, |src|, off, gained, data, turns);
    }
    r := Some(|src|);
  }

  lemma PassesStart(sb: Super, s: Snap, d: Disk, inum: nat, src: seq<bv8>, off: nat)
    requires Midway(sb, s, d, s, d, inum, src, off, 0, {})
    ensures Passes(sb, s, d, inum, src, off, [Moment(s, d, 0, {})])
  {
    hide Midway, OneWrite;
  }

  lemma CopiedSize(sb: Super, s0: Snap, s: Snap, inum: nat, src: seq<bv8>, off: nat, gained: set<nat>)
    requires Copied(sb, s0, s, inum, src, off, |src|, gained)
    ensures s.ino[inum].size == s0.ino[inum].size
  {
    hide Ref, Owned, Extends, FileBytes, Mapped, Written;
    ExtendsInode(sb, s0, s, inum, gained, inum);
  }

  lemma ResizeCopied(sb: Super, s0: Snap, s: Snap, inum: nat, src: seq<bv8>, off: nat, gained: set<nat>)
    requires Copied(sb, s0, s, inum, src, off, |src|, gained) && off + |src| > s0.ino[inum].size
    ensures Good(sb, s.(ino := s.ino[inum := s.ino[inum].(size := off + |src|)]))
  {
    hide Ref, Owned, Extends, FileBytes, Mapped, Written;
    Resize(sb, s, s.(ino := s.ino[inum := s.ino[inum].(size := off + |src|)]), inum, off + |src|);
  }

  lemma EntriesBefore(sb: Super, s0: Snap, s: Snap, inum: nat, n: nat, off: nat,
                      gained: set<nat>, data: set<nat>, turns: nat)
    requires Budget(sb, s0, s, inum, n, off, n, gained, data, turns)
    requires CrashSafety.GoodLog(sb.g, s0.lh) && CrashSafety.GoodLog(sb.g, s.lh)
    ensures |s.lh| < |s0.lh| + EntryBound(s0.ino[inum].typ, n)
  {
    hide Names, Spent, PartBlock;
    SpentBound(sb, s0.ino[inum], s.ino[inum], s0.lh, s.lh, n, off, n, PartBlock(sb, s0, inum, off), gained, data,
      turns);
    NamesCount(s0.lh);
    NamesCount(s.lh);
  }

  lemma EntriesAfter(sb: Super, s0: Snap, s: Snap, s2: Snap, inum: nat, n: nat, off: nat,
                     gained: set<nat>, data: set<nat>, turns: nat)
    requires Budget(sb, s0, s, inum, n, off, n, gained, data, turns)
    requires Names(s2.lh) == Names(s.lh) || Names(s2.lh) == Names(s.lh) + {InodeBlock(sb, inum)}
    requires CrashSafety.GoodLog(sb.g, s0.lh) && CrashSafety.GoodLog(sb.g, s2.lh)
    ensures |s2.lh| <= |s0.lh| + EntryBound(s0.ino[inum].typ, n)
  {
    hide Names, Spent, PartBlock;
    SpentBound(sb, s0.ino[inum], s.ino[inum], s0.lh, s.lh, n, off, n, PartBlock(sb, s0, inum, off), gained, data,
      turns);
    NamesCount(s0.lh);
    NamesCount(s2.lh);
    UnionSize(Names(s.lh), {InodeBlock(sb, inum)});
  }
}

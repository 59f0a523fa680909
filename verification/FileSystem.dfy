/** The block and inode layer of fs.c on top of the journal. */
module FileSystem {
  import opened Basics
  import opened Blocks
  import opened LogHeader
  import opened FsLayout
  import opened FsOwner
  import CrashSafety
  import opened Journal

  function Zeros(): (z: Block)
    ensures forall i :: 0 <= i < BSIZE ==> z[i] == 0
  {
    seq(BSIZE, _ => 0)
  }

  /** log_write has no room for another entry. */
  ghost predicate FullAt(sb: Super, lh: seq<Entry>, outstanding: nat) {
    |lh| >= LOGSIZE || |lh| >= sb.g.nlog - 1 || outstanding < 1
  }

  /** log_write refused an entry when the header named no blocks but these. */
  ghost predicate Overran(sb: Super, lh: seq<Entry>, outstanding: nat, names: set<nat>) {
    FullAt(sb, lh, outstanding) && CrashSafety.GeometryOk(sb.g) && CrashSafety.GoodLog(sb.g, lh) && Names(lh) <= names
  }

  /** Every bit of the bitmap is set. */
  ghost predicate NoFree(sb: Super, v: Disk)
    requires SuperOk(sb) && |v| == sb.g.size
  {
    forall c: nat :: c < sb.g.size ==> InUse(sb, v, c)
  }

  /** balloc takes the lowest free blocks: no block below one of these is free and not taken. */
  ghost predicate Lowest(sb: Super, v: Disk, taken: set<nat>)
    requires SuperOk(sb) && |v| == sb.g.size
  {
    forall b, c: nat :: b in taken && c < b && c < sb.g.size && c !in taken ==> InUse(sb, v, c)
  }

  class FileSystem {
    const sb: Super
    const log: Log
    /** The in-memory inodes, by number. */
    var ino: seq<Inode>
    ghost var owner: map<nat, Slot>

    /** Mount: the log has recovered, and the inodes are those on disk. */
    constructor (sb: Super, log: Log, ino: seq<Inode>, ghost owner: map<nat, Slot>)
      requires log.Quiet() && log.g == sb.g && TableOk(sb, log.view, ino) && Owned(sb, log.view, ino, owner)
      ensures this.sb == sb && this.log == log && this.ino == ino && this.owner == owner && Valid()
    {
      this.sb, this.log, this.ino, this.owner := sb, log, ino, owner;
    }

    ghost predicate Attached()
      reads this, log, log.table
    {
      log.Quiet() && log.g == sb.g && TableOk(sb, log.view, ino)
    }

    ghost predicate Valid()
      reads this, log, log.table
    {
      Attached() && Owned(sb, log.view, ino, owner)
    }

    ghost function Now(): Snap
      reads this, log
    {
      Snap(log.view, ino, owner, log.lh)
    }

    /** log_write would panic. */
    ghost predicate LogFull()
      reads this, log
    {
      FullAt(sb, log.lh, log.outstanding)
    }

    /** Why the kernel panics: no free block, or no room in the log. */
    ghost predicate Stuck()
      reads this, log
      requires SuperOk(sb) && |log.view| == sb.g.size
    {
      NoFree(sb, log.view) || LogFull()
    }

    /** bzero. */
    method Bzero(b: nat) returns (ok: bool)
      requires Attached() && CrashSafety.IsHome(sb.g, b)
      modifies log
      ensures log.view == old(log.view)[b := Zeros()] && log.disk == old(log.disk)
      ensures log.outstanding == old(log.outstanding)
      ensures ok ==> log.Quiet() && Names(log.lh) == old(Names(log.lh)) + {b}
      ensures !ok ==> Overran(sb, log.lh, log.outstanding, old(Names(log.lh)))
    {
      hide CrashSafety.Absorb, Names;
      ok := log.Update(b, Zeros(), 0, BSIZE);
      CrashSafety.NamesAbsorb(old(log.lh), b, 0, BSIZE);
    }

    /** The tail of balloc: mark block b used, then zero it. */
    method Take(b: nat) returns (ok: bool)
      requires Attached() && IsData(sb, b)
      modifies log
      ensures log.disk == old(log.disk) && log.outstanding == old(log.outstanding) && |log.view| == sb.g.size
      ensures ok ==> log.Quiet() && Names(log.lh) == old(Names(log.lh)) + {BitmapBlock(sb, b), b}
      ensures ok ==> log.view[b] == Zeros()
      ensures ok ==> forall c: nat :: c < sb.g.size ==>
        (InUse(sb, log.view, c) <==> InUse(sb, old(log.view), c) || c == b)
      ensures ok ==> forall x: nat :: x < sb.g.size && x != b && x != BitmapBlock(sb, b) ==>
        log.view[x] == old(log.view)[x]
      ensures !ok ==> Overran(sb, log.lh, log.outstanding, old(Names(log.lh)) + {BitmapBlock(sb, b), b})
    {
      hide CrashSafety.Absorb, Names, InUse, BitAt, SetBit, MaskOf;
      var bb := BitmapBlock(sb, b);
      BitmapBlockHome(sb, b);
      var bp := log.view[bb];
      SetBitBytes(bp, b % BPB);
      ok := log.Update(bb, SetBit(bp, b % BPB), b % BPB / 8, 1);
      CrashSafety.NamesAbsorb(old(log.lh), bb, b % BPB / 8, 1);
      if ok {
        ghost var v1 := log.view;
        ok := Bzero(b);
        if ok {
          forall c: nat | c < sb.g.size
            ensures InUse(sb, log.view, c) <==> InUse(sb, old(log.view), c) || c == b
          {
            MarkUsed(sb, old(log.view), b, c);
            SameBitmap(sb, v1, log.view, c);
          }
        }
      }
    }

    /** balloc: the first block whose bit is clear, marked used and zeroed. */
    method Balloc() returns (b: nat, ok: bool)
      requires Valid()
      modifies log
      ensures log.disk == old(log.disk) && log.outstanding == old(log.outstanding) && |log.view| == sb.g.size
      ensures ok ==> log.Quiet() && Names(log.lh) == old(Names(log.lh)) + {BitmapBlock(sb, b), b}
      ensures ok ==> IsData(sb, b) && b !in owner
      ensures ok ==> forall c: nat :: c < b ==> InUse(sb, old(log.view), c)
      ensures ok ==> log.view[b] == Zeros()
      ensures ok ==> forall c: nat :: c < sb.g.size ==>
        (InUse(sb, log.view, c) <==> InUse(sb, old(log.view), c) || c == b)
      ensures ok ==> forall x: nat :: x < sb.g.size && x != b && x != BitmapBlock(sb, b) ==>
        log.view[x] == old(log.view)[x]
      ensures !ok ==>
        || (Valid() && Now() == old(Now()) && NoFree(sb, log.view))
        || Overran(sb, log.lh, log.outstanding, old(Names(log.lh)) + {BitmapBlock(sb, b), b})
    {
      hide Names, Ref, BitAt, CrashSafety.Ready, ValidSlot, Overran;
      var found := FindFree();
      if found.None? { return 0, false; }
      b := found.value;
      ok := Take(b);
    }

    /** The search of balloc, bitmap block by bitmap block. */
    method FindFree() returns (r: Option<nat>)
      requires Valid()
      ensures r.None? ==> NoFree(sb, log.view)
      ensures r.Some? ==> r.value < sb.g.size && !InUse(sb, log.view, r.value)
      ensures r.Some? ==> forall c: nat :: c < r.value ==> InUse(sb, log.view, c)
    {
      hide BitAt, CrashSafety.Ready, Owned;
      var b := 0;
      while b < sb.g.size
        invariant b % BPB == 0
        invariant forall c: nat :: c < b && c < sb.g.size ==> InUse(sb, log.view, c)
      {
        var bp := log.view[BitmapBlock(sb, b)];
        var bi := 0;
        while bi < BPB && b + bi < sb.g.size
          invariant 0 <= bi <= BPB
          invariant forall c: nat :: c < b + bi && c < sb.g.size ==> InUse(sb, log.view, c)
        {
          assert (b + bi) / BPB == b / BPB && (b + bi) % BPB == bi;
          if !BitAt(bp, bi) { return Some(b + bi); }
          bi := bi + 1;
        }
        b := b + BPB;
      }
      return None;
    }

    /** bfree; a block that is already free is a panic. */
    method Bfree(b: nat) returns (ok: bool)
      requires Attached() && IsData(sb, b)
      modifies log
      ensures log.disk == old(log.disk) && log.outstanding == old(log.outstanding) && |log.view| == sb.g.size
      ensures ok ==> InUse(sb, old(log.view), b) && log.Quiet()
      ensures ok ==> Names(log.lh) == old(Names(log.lh)) + {BitmapBlock(sb, b)}
      ensures ok ==> forall c: nat :: c < sb.g.size ==>
        (InUse(sb, log.view, c) <==> InUse(sb, old(log.view), c) && c != b)
      ensures ok ==> forall x: nat :: x < sb.g.size && x != BitmapBlock(sb, b) ==> log.view[x] == old(log.view)[x]
      ensures !ok ==> !InUse(sb, old(log.view), b) || LogFull()
      ensures !ok ==> log.lh == old(log.lh)
    {
      hide CrashSafety.Absorb, Names, MaskOf;
      var bb := BitmapBlock(sb, b);
      BitmapBlockHome(sb, b);
      var bp := log.view[bb];
      if !BitAt(bp, b % BPB) {
        return false;
      }
      ClearBitBytes(bp, b % BPB);
      ok := log.Update(bb, ClearBit(bp, b % BPB), b % BPB / 8, 1);
      CrashSafety.NamesAbsorb(old(log.lh), bb, b % BPB / 8, 1);
      forall c: nat | c < sb.g.size
        ensures InUse(sb, log.view, c) <==> InUse(sb, old(log.view), c) && c != b
      {
        MarkFree(sb, old(log.view), b, c);
      }
    }

    /** iupdate: copy the in-memory inode into its block. */
    method Iupdate(inum: nat) returns (ok: bool)
      requires Valid() && inum < sb.ninodes
      modifies log
      ensures log.disk == old(log.disk) && log.outstanding == old(log.outstanding) && |log.view| == sb.g.size
      ensures ok ==> Valid() && Names(log.lh) == old(Names(log.lh)) + {InodeBlock(sb, inum)}
      ensures ok ==> forall n: nat :: n < sb.ninodes ==>
        Dinode(sb, log.view, n) == if n == inum then ino[inum] else Dinode(sb, old(log.view), n)
      ensures ok ==> InodeAt(sb, log.view, inum, ino[inum])
      ensures ok ==> forall x: nat :: sb.bmapstart <= x < sb.g.size ==> log.view[x] == old(log.view)[x]
      ensures !ok ==> LogFull() && log.lh == old(log.lh)
    {
      hide CrashSafety.Absorb, Names, PutWords, Dinode, Owned, InodeAt;
      var b, slot := InodeBlock(sb, inum), inum % IPB;
      InodeBlockHome(sb, inum);
      var bp := PutWords(log.view[b], slot, ino[inum], INODE_WORDS);
      forall j: nat | j < BSIZE && !(64 * slot <= j < 64 * slot + 64) ensures bp[j] == log.view[b][j] {
        PutWordsBytes(log.view[b], slot, ino[inum], INODE_WORDS, j);
      }
      ok := log.Update(b, bp, 64 * slot, 64);
      CrashSafety.NamesAbsorb(old(log.lh), b, 64 * slot, 64);
      forall n: nat | n < sb.ninodes
        ensures Dinode(sb, log.view, n) == if n == inum then ino[inum] else Dinode(sb, old(log.view), n)
      {
        StoreInode(sb, old(log.view), inum, ino[inum], n);
      }
      DinodeIs(sb, log.view, inum);
      DataIsNotInode(sb, old(log.view), ino, owner);
      OwnedFrame(sb, old(log.view), ino, owner, log.view);
    }

    /** balloc a block for slot i of the inode: a direct block, or the index block. */
    method AllocAddr(inum: nat, i: nat) returns (b: nat, ok: bool)
      requires Valid() && inum < sb.ninodes && i <= NDIRECT && ino[inum].addrs[i] == 0
      modifies this, log
      ensures log.disk == old(log.disk) && log.outstanding == old(log.outstanding) && |log.view| == sb.g.size
      ensures ok ==> Valid() && IsData(sb, b) && log.view[b] == Zeros()
      ensures ok ==> ino == old(ino)[inum := old(ino)[inum].(addrs := old(ino)[inum].addrs[i := b])]
      ensures ok ==> Grew(sb, old(Now()), Now(), inum, {b}, {})
      ensures !ok ==> ino == old(ino) && owner == old(owner)
      ensures !ok ==>
        || (Valid() && Now() == old(Now()) && NoFree(sb, log.view))
        || Overran(sb, log.lh, log.outstanding, old(Names(log.lh)) + {BitmapBlock(sb, b), b})
    {
      hide Names, InUse, Word, Owned, Ref, Overran, NoFree, Grew;
      ghost var s0 := Now();
      b, ok := Balloc();
      if ok {
        GiveAddr(sb, s0.v, ino, owner, log.view, inum, i, b);
        ino := ino[inum := ino[inum].(addrs := ino[inum].addrs[i := b])];
        owner := owner[b := AddrSlot(inum, i)];
        AddrGrew(sb, s0, Now(), inum, i, b);
      }
    }

    /** balloc a block for entry j of the index block. */
    method AllocLeaf(inum: nat, j: nat) returns (b: nat, ok: bool)
      requires Valid() && inum < sb.ninodes && j < NINDIRECT
      requires ino[inum].addrs[NDIRECT] != 0 && Word(log.view[ino[inum].addrs[NDIRECT]], j) == 0
      modifies this, log
      ensures log.disk == old(log.disk) && log.outstanding == old(log.outstanding) && |log.view| == sb.g.size
      ensures ok ==> Valid() && IsData(sb, b) && log.view[b] == Zeros()
      ensures ok ==> ino == old(ino) && Ref(sb, log.view, ino, Leaf(inum, j)) == b
      ensures ok ==> Grew(sb, old(Now()), Now(), inum, {b}, {ino[inum].addrs[NDIRECT]})
      ensures !ok ==> ino == old(ino) && owner == old(owner)
      ensures !ok ==>
        || (Valid() && Now() == old(Now()) && NoFree(sb, log.view))
        || Overran(sb, log.lh, log.outstanding, old(Names(log.lh)) + {BitmapBlock(sb, b), b})
    {
      hide Names, InUse, Word, SetWord, CrashSafety.Absorb, Owned, Ref, NoFree, Grew;
      ghost var s0 := Now();
      var a := ino[inum].addrs[NDIRECT];
      IndexIsOwned(sb, log.view, ino, owner, inum);
      b, ok := Balloc();
      if ok {
        ghost var v1, l1 := log.view, log.lh;
        BitmapBlockHome(sb, b);
        SetWordBytes(log.view[a], j, b);
        ok := log.Update(a, SetWord(log.view[a], j, b), 4 * j, 4);
        CrashSafety.NamesAbsorb(l1, a, 4 * j, 4);
        if ok {
          GiveLeaf(sb, s0.v, ino, owner, v1, log.view, inum, j, b);
          owner := owner[b := Leaf(inum, j)];
          LeafRef(sb, s0.v, ino, inum, j);
          LeafGrew(sb, s0, Now(), inum, j, b);
        }
      }
    }

    /** bmap: the block of the file's bn-th block, allocated if need be. */
    method Bmap(inum: nat, bn: nat) returns (addr: nat, ok: bool, ghost gained: set<nat>)
      requires Valid() && inum < sb.ninodes && bn < MAXFILE
      modifies this, log
      ensures log.disk == old(log.disk) && log.outstanding == old(log.outstanding) && |log.view| == sb.g.size
      ensures ok ==> Valid() && BmapDone(sb, old(Now()), Now(), inum, bn, addr, gained)
      ensures ok ==> |ino[inum].addrs| == 13 && ino[inum].addrs[12] < |log.view|
      ensures ok ==> addr == BlockAt(log.view, ino[inum], bn)
      ensures Ref(sb, old(log.view), old(ino), SlotOf(inum, bn)) != 0 ==> ok
      ensures !ok ==> Stuck() && BmapFailed(sb, old(Now()), Now(), log.outstanding, inum, bn, addr, gained)
    {
      hide Names, InUse, Word, Owned, Extends, BmapDone, Grew, NoFree, Lowest, BmapFailed, BlockAt;
      gained := {};
      ghost var s0 := Now();
      if bn >= NDIRECT {
        addr, ok, gained := BmapIndirect(inum, bn);
      } else {
        addr, ok := ino[inum].addrs[bn], true;
        if addr == 0 {
          addr, ok := AllocAddr(inum, bn);
          if !ok {
            gained := AllocFailed(sb, s0, Now(), log.outstanding, inum, bn, addr);
          } else {
            gained := {addr};
            BmapDirect(sb, s0, Now(), inum, bn, addr, gained);
          }
        } else {
          BmapPresent(sb, s0, inum, bn, addr);
        }
      }
      if ok { BmapIs(sb, s0, Now(), inum, bn, addr, gained); }
    }

    /** The index block of the inode, allocated if need be, for block bn of the file. */
    method EnsureIndex(inum: nat, bn: nat) returns (lost: nat, ok: bool, ghost gained: set<nat>)
      requires Valid() && inum < sb.ninodes && NDIRECT <= bn < MAXFILE
      modifies this, log
      ensures log.disk == old(log.disk) && log.outstanding == old(log.outstanding) && |log.view| == sb.g.size
      ensures ok ==> Valid() && Grew(sb, old(Now()), Now(), inum, gained, {}) && ino[inum].addrs[NDIRECT] != 0
      ensures ok ==> gained <= NewIndex(old(ino)[inum], ino[inum], bn)
      ensures ok ==> Now() == old(Now()) || Word(log.view[ino[inum].addrs[NDIRECT]], bn - NDIRECT) == 0
      ensures old(ino)[inum].addrs[NDIRECT] != 0 ==> ok && Now() == old(Now())
      ensures !ok ==> Stuck() && BmapFailed(sb, old(Now()), Now(), log.outstanding, inum, bn, lost, gained)
    {
      hide Names, InUse, Word, Owned, Extends, Grew, NoFree, Lowest, BmapFailed;
      ghost var s0 := Now();
      lost, ok, gained := 0, true, {};
      GrewNothing(sb, s0, inum);
      if ino[inum].addrs[NDIRECT] == 0 {
        lost, ok := AllocAddr(inum, NDIRECT);
        if ok {
          gained := {lost};
          WordOfZeros(bn - NDIRECT);
        } else {
          gained := AllocFailed(sb, s0, Now(), log.outstanding, inum, bn, lost);
        }
      }
    }

    /** The second half of bmap: a block reached through the index block. */
    method BmapIndirect(inum: nat, bn: nat) returns (addr: nat, ok: bool, ghost gained: set<nat>)
      requires Valid() && inum < sb.ninodes && NDIRECT <= bn < MAXFILE
      modifies this, log
      ensures log.disk == old(log.disk) && log.outstanding == old(log.outstanding) && |log.view| == sb.g.size
      ensures ok ==> Valid() && BmapDone(sb, old(Now()), Now(), inum, bn, addr, gained)
      ensures Ref(sb, old(log.view), old(ino), SlotOf(inum, bn)) != 0 ==> ok
      ensures !ok ==> Stuck() && BmapFailed(sb, old(Now()), Now(), log.outstanding, inum, bn, addr, gained)
    {
      hide Names, InUse, Word, Owned, Extends, BmapDone, Grew, NoFree, Lowest, BmapFailed;
      ghost var s0 := Now();
      addr, ok, gained := EnsureIndex(inum, bn);
      if !ok { return; }
      ghost var s1 := Now();
      addr := Word(log.view[ino[inum].addrs[NDIRECT]], bn - NDIRECT);
      if addr == 0 {
        addr, ok := AllocLeaf(inum, bn - NDIRECT);
        if ok {
          BmapLeaf(sb, s0, s1, Now(), inum, bn, addr, gained);
          gained := gained + {addr};
        } else {
          gained := LeafFailed(sb, s0, s1, Now(), log.outstanding, inum, bn, addr, gained);
        }
      } else {
        BmapPresent(sb, s0, inum, bn, addr);
        gained := {};
      }
    }
  }

  // ----- What bmap did, on values

  /** Cached blocks, in-memory inodes, owners and header at one moment. */
  datatype Snap = Snap(v: Disk, ino: seq<Inode>, owner: map<nat, Slot>, lh: seq<Entry>)

  ghost predicate Good(sb: Super, s: Snap) { TableOk(sb, s.v, s.ino) && Owned(sb, s.v, s.ino, s.owner) }

  /** Inode inum gained blocks; the entries this took name the new blocks, their
      bitmap blocks and the blocks in extra. */
  ghost predicate Grew(sb: Super, s: Snap, s': Snap, inum: nat, gained: set<nat>, extra: set<nat>) {
    && Good(sb, s) && Good(sb, s') && inum < sb.ninodes
    && Extends(sb, s.v, s.ino, s.owner, s'.v, s'.ino, s'.owner, inum, gained)
    && (forall b :: b in s.owner && b < |s.v| && !s.owner[b].Index? ==> s'.v[b] == s.v[b])
    && Lowest(sb, s.v, gained)
    && Names(s'.lh) <= Names(s.lh) + gained + BitmapBlocks(sb, gained) + extra
  }

  ghost predicate BmapDone(sb: Super, s: Snap, s': Snap, inum: nat, bn: nat, addr: nat, gained: set<nat>) {
    && bn < MAXFILE && Good(sb, s) && Good(sb, s') && inum < sb.ninodes
    && Grew(sb, s, s', inum, gained, IndexOf(s'.ino[inum], bn))
    && addr == Ref(sb, s'.v, s'.ino, SlotOf(inum, bn)) && addr != 0
    && (Ref(sb, s.v, s.ino, SlotOf(inum, bn)) != 0 ==> gained == {} && s' == s)
    && (Ref(sb, s.v, s.ino, SlotOf(inum, bn)) == 0 ==> addr in gained && addr < |s'.v| && s'.v[addr] == Zeros())
    && gained <= {addr} + NewIndex(s.ino[inum], s'.ino[inum], bn) && (forall b :: b in gained ==> b <= addr)
  }

  /** Why bmap panics: every block is taken, with at most the index block taken by this call,
      or the header is full, naming only what one allocation needs. */
  ghost predicate BmapFailed(sb: Super, s: Snap, s': Snap, outstanding: nat, inum: nat, bn: nat, addr: nat,
                             gained: set<nat>) {
    && Good(sb, s) && inum < sb.ninodes && |s'.ino| == |s.ino| && |s'.ino[inum].addrs| == NDIRECT + 1
    && (s.ino[inum].addrs[NDIRECT] != 0 ==> s'.ino[inum].addrs[NDIRECT] == s.ino[inum].addrs[NDIRECT])
    && s'.ino[inum].typ == s.ino[inum].typ
    && (|| (&& Good(sb, s') && NoFree(sb, s'.v) && Grew(sb, s, s', inum, gained, {})
            && gained <= NewIndex(s.ino[inum], s'.ino[inum], bn))
        || (&& gained <= {addr} + NewIndex(s.ino[inum], s'.ino[inum], bn)
            && Overran(sb, s'.lh, outstanding,
                       Names(s.lh) + gained + BitmapBlocks(sb, gained) + IndexOf(s'.ino[inum], bn))))
  }

  lemma GrewNothing(sb: Super, s: Snap, inum: nat)
    requires Good(sb, s) && inum < sb.ninodes
    ensures Grew(sb, s, s, inum, {}, {})
  {
    hide Owned, Names, InUse;
    ExtendsNothing(sb, s.v, s.ino, s.owner, inum);
  }

  lemma AddrGrew(sb: Super, s: Snap, s': Snap, inum: nat, i: nat, b: nat)
    requires Good(sb, s) && Good(sb, s') && inum < sb.ninodes && i <= NDIRECT && s.ino[inum].addrs[i] == 0
    requires IsData(sb, b) && b !in s.owner && s'.owner == s.owner[b := AddrSlot(inum, i)]
    requires s'.ino == s.ino[inum := s.ino[inum].(addrs := s.ino[inum].addrs[i := b])]
    requires forall t :: ValidSlot(sb, t) && t != AddrSlot(inum, i) ==>
      Ref(sb, s'.v, s'.ino, t) == Ref(sb, s.v, s.ino, t)
    requires forall x: nat :: x < sb.g.size && x != b && x != BitmapBlock(sb, b) ==> s'.v[x] == s.v[x]
    requires Names(s'.lh) == Names(s.lh) + {BitmapBlock(sb, b), b} && Lowest(sb, s.v, {b})
    ensures Grew(sb, s, s', inum, {b}, {})
  {
    hide Names, InUse, Word;
    BitmapBlockHome(sb, b);
    ExtendsByOne(sb, s.v, s.ino, s.owner, s'.v, s'.ino, s'.owner, inum, b, AddrSlot(inum, i));
    assert BitmapBlocks(sb, {b}) == {BitmapBlock(sb, b)};
  }

  lemma LeafGrew(sb: Super, s: Snap, s': Snap, inum: nat, j: nat, b: nat)
    requires Good(sb, s) && Good(sb, s') && inum < sb.ninodes && j < NINDIRECT && s.ino[inum].addrs[NDIRECT] != 0
    requires Ref(sb, s.v, s.ino, Leaf(inum, j)) == 0
    requires IsData(sb, b) && b !in s.owner && s'.owner == s.owner[b := Leaf(inum, j)] && s'.ino == s.ino
    requires forall t :: ValidSlot(sb, t) && t != Leaf(inum, j) ==> Ref(sb, s'.v, s'.ino, t) == Ref(sb, s.v, s.ino, t)
    requires forall x: nat :: x < sb.g.size && x != b && x != BitmapBlock(sb, b) && x != s.ino[inum].addrs[NDIRECT] ==>
      s'.v[x] == s.v[x]
    requires Names(s'.lh) == Names(s.lh) + {BitmapBlock(sb, b), b, s.ino[inum].addrs[NDIRECT]}
    requires Lowest(sb, s.v, {b})
    ensures Grew(sb, s, s', inum, {b}, {s.ino[inum].addrs[NDIRECT]})
  {
    hide Names, InUse, Word;
    BitmapBlockHome(sb, b);
    IndexIsOwned(sb, s.v, s.ino, s.owner, inum);
    ExtendsByOne(sb, s.v, s.ino, s.owner, s'.v, s'.ino, s'.owner, inum, b, Leaf(inum, j));
    assert BitmapBlocks(sb, {b}) == {BitmapBlock(sb, b)};
  }

  lemma LowestTrans(sb: Super, s0: Snap, s1: Snap, inum: nat, f: set<nat>, f': set<nat>)
    requires Good(sb, s0) && Good(sb, s1) && inum < sb.ninodes
    requires Extends(sb, s0.v, s0.ino, s0.owner, s1.v, s1.ino, s1.owner, inum, f)
    requires Lowest(sb, s0.v, f) && Lowest(sb, s1.v, f')
    ensures Lowest(sb, s0.v, f + f')
  {
    hide InUse, Ref;
  }

  lemma GrewTrans(sb: Super, s0: Snap, s1: Snap, s2: Snap, inum: nat, f: set<nat>, f': set<nat>, e: set<nat>,
                  e': set<nat>)
    requires Grew(sb, s0, s1, inum, f, e) && Grew(sb, s1, s2, inum, f', e')
    ensures Grew(sb, s0, s2, inum, f + f', e + e')
  {
    hide Names, InUse, Ref, Owned, Lowest;
    ExtendsTrans(sb, s0.v, s0.ino, s0.owner, s1.v, s1.ino, s1.owner, s2.v, s2.ino, s2.owner, inum, f, f');
    LowestTrans(sb, s0, s1, inum, f, f');
    assert BitmapBlocks(sb, f + f') == BitmapBlocks(sb, f) + BitmapBlocks(sb, f');
  }

  lemma AllocFailed(sb: Super, s: Snap, s': Snap, outstanding: nat, inum: nat, bn: nat, b: nat)
      returns (gained: set<nat>)
    requires Good(sb, s) && inum < sb.ninodes && s'.ino == s.ino
    requires (s' == s && NoFree(sb, s.v)) || Overran(sb, s'.lh, outstanding, Names(s.lh) + {BitmapBlock(sb, b), b})
    ensures BmapFailed(sb, s, s', outstanding, inum, bn, b, gained)
  {
    hide Names, InUse, Ref, Owned, Extends;
    if s' == s && NoFree(sb, s.v) {
      gained := {};
      GrewNothing(sb, s, inum);
    } else {
      gained := {b};
      assert BitmapBlocks(sb, {b}) == {BitmapBlock(sb, b)};
    }
  }

  lemma LeafFailed(sb: Super, s0: Snap, s1: Snap, s2: Snap, outstanding: nat, inum: nat, bn: nat, b: nat, got: set<nat>)
      returns (gained: set<nat>)
    requires Grew(sb, s0, s1, inum, got, {}) && s2.ino == s1.ino && got <= NewIndex(s0.ino[inum], s1.ino[inum], bn)
    requires (s2 == s1 && NoFree(sb, s1.v)) || Overran(sb, s2.lh, outstanding, Names(s1.lh) + {BitmapBlock(sb, b), b})
    ensures BmapFailed(sb, s0, s2, outstanding, inum, bn, b, gained)
  {
    hide Names, InUse, Owned, NoFree, Lowest;
    assert ValidSlot(sb, Index(inum)) && s1.ino[inum].typ == s0.ino[inum].typ;
    assert Ref(sb, s0.v, s0.ino, Index(inum)) == s0.ino[inum].addrs[NDIRECT];
    assert Ref(sb, s1.v, s1.ino, Index(inum)) == s1.ino[inum].addrs[NDIRECT];
    if s2 == s1 && NoFree(sb, s1.v) {
      gained := got;
    } else {
      gained := got + {b};
      assert BitmapBlocks(sb, got + {b}) == BitmapBlocks(sb, got) + {BitmapBlock(sb, b)};
    }
  }

  lemma BmapPresent(sb: Super, s: Snap, inum: nat, bn: nat, addr: nat)
    requires Good(sb, s) && inum < sb.ninodes && bn < MAXFILE
    requires addr == Ref(sb, s.v, s.ino, SlotOf(inum, bn)) && addr != 0
    ensures BmapDone(sb, s, s, inum, bn, addr, {})
  {
    hide Names, Ref, Owned, Extends;
    GrewNothing(sb, s, inum);
  }

  lemma BmapDirect(sb: Super, s: Snap, s': Snap, inum: nat, bn: nat, addr: nat, gained: set<nat>)
    requires bn < NDIRECT && Grew(sb, s, s', inum, gained, {}) && gained == {addr} && addr != 0
    requires s.ino[inum].addrs[bn] == 0 && s'.ino[inum].addrs[bn] == addr && addr < |s'.v| && s'.v[addr] == Zeros()
    ensures BmapDone(sb, s, s', inum, bn, addr, gained)
  {
    hide Names, Owned, Extends;
  }

  lemma BmapLeaf(sb: Super, s0: Snap, s1: Snap, s2: Snap, inum: nat, bn: nat, addr: nat, gained: set<nat>)
    requires NDIRECT <= bn < MAXFILE && Grew(sb, s0, s1, inum, gained, {})
    requires s1.ino[inum].addrs[NDIRECT] != 0 && s2.ino == s1.ino
    requires Grew(sb, s1, s2, inum, {addr}, {s1.ino[inum].addrs[NDIRECT]})
    requires gained <= NewIndex(s0.ino[inum], s1.ino[inum], bn)
    requires Ref(sb, s1.v, s1.ino, SlotOf(inum, bn)) == 0 && Ref(sb, s2.v, s2.ino, SlotOf(inum, bn)) == addr
    requires addr != 0 && addr < |s2.v| && s2.v[addr] == Zeros()
    ensures BmapDone(sb, s0, s2, inum, bn, addr, gained + {addr})
  {
    hide Names, Owned, Ref, Lowest;
    SlotOfValid(sb, inum, bn);
    GrewTrans(sb, s0, s1, s2, inum, gained, {addr}, {}, {s1.ino[inum].addrs[NDIRECT]});
    TakenInOrder(sb, s0, s1, s2, inum, gained, addr);
  }

  /** A block taken later lies above those taken before. */
  lemma TakenInOrder(sb: Super, s0: Snap, s1: Snap, s2: Snap, inum: nat, gained: set<nat>, addr: nat)
    requires Grew(sb, s0, s1, inum, gained, {}) && Good(sb, s2)
    requires Extends(sb, s1.v, s1.ino, s1.owner, s2.v, s2.ino, s2.owner, inum, {addr})
    ensures forall b :: b in gained ==> b < addr
  {
    hide Names, Ref, InUse;
    assert addr !in s1.owner && IsData(sb, addr);
    assert !InUse(sb, s0.v, addr);
  }

  lemma BmapIs(sb: Super, s: Snap, s': Snap, inum: nat, bn: nat, addr: nat, gained: set<nat>)
    requires BmapDone(sb, s, s', inum, bn, addr, gained)
    ensures |s'.ino[inum].addrs| == 13 && s'.ino[inum].addrs[12] < |s'.v| && addr == BlockAt(s'.v, s'.ino[inum], bn)
  {
    hide Names, Ref, Owned, BlockAt, Grew;
    RefIs(sb, s'.v, s'.ino, inum, bn);
  }

  /** The bitmap blocks with the bits of a set of blocks. */
  ghost function BitmapBlocks(sb: Super, s: set<nat>): set<nat> { set b | b in s :: BitmapBlock(sb, b) }

  /** The index block, when block bn of the file is reached through it. */
  ghost function IndexOf(ip: Inode, bn: nat): set<nat>
    requires |ip.addrs| == NDIRECT + 1
  {
    if bn < NDIRECT || ip.addrs[NDIRECT] == 0 then {} else {ip.addrs[NDIRECT]}
  }

  /** The index block, when it is new. */
  ghost function NewIndex(was: Inode, ip: Inode, bn: nat): set<nat>
    requires |was.addrs| == |ip.addrs| == NDIRECT + 1
  {
    if was.addrs[NDIRECT] == 0 then IndexOf(ip, bn) else {}
  }

  lemma ExtendsNothing(sb: Super, v: Disk, ino: seq<Inode>, owner: map<nat, Slot>, inum: nat)
    requires TableOk(sb, v, ino) && inum < sb.ninodes
    ensures Extends(sb, v, ino, owner, v, ino, owner, inum, {})
  {}

  lemma ExtendsByOne(sb: Super, v: Disk, ino: seq<Inode>, owner: map<nat, Slot>,
                     v': Disk, ino': seq<Inode>, owner': map<nat, Slot>, inum: nat, b: nat, s: Slot)
    requires TableOk(sb, v, ino) && TableOk(sb, v', ino') && Owned(sb, v, ino, owner) && inum < sb.ninodes
    requires IsData(sb, b) && b !in owner && ValidSlot(sb, s) && s.inum == inum && owner' == owner[b := s]
    requires Ref(sb, v, ino, s) == 0 && (s.Leaf? ==> ino[inum].addrs[NDIRECT] != 0)
    requires forall t :: ValidSlot(sb, t) && t != s ==> Ref(sb, v', ino', t) == Ref(sb, v, ino, t)
    requires forall n :: 0 <= n < |ino| && n != inum ==> ino'[n] == ino[n]
    requires ino'[inum] == ino[inum].(addrs := ino'[inum].addrs)
    requires forall x: nat :: (x < sb.g.size && x != b && x != BitmapBlock(sb, b)
                               && !(s.Leaf? && x == ino[inum].addrs[NDIRECT])) ==> v'[x] == v[x]
    ensures Extends(sb, v, ino, owner, v', ino', owner', inum, {b})
  {
    hide Ref, InUse;
    BitmapBlockHome(sb, b);
    if ino[inum].addrs[NDIRECT] != 0 { IndexIsOwned(sb, v, ino, owner, inum); }
  }

  /** A zeroed new block b put into slot i of an inode. */
  lemma GiveAddr(sb: Super, v: Disk, ino: seq<Inode>, owner: map<nat, Slot>, v': Disk, inum: nat, i: nat, b: nat)
    requires TableOk(sb, v, ino) && Owned(sb, v, ino, owner) && |v'| == |v| && inum < sb.ninodes
    requires i <= NDIRECT && ino[inum].addrs[i] == 0 && IsData(sb, b) && b !in owner && v'[b] == Zeros()
    requires forall c: nat :: c < sb.g.size ==> (InUse(sb, v', c) <==> InUse(sb, v, c) || c == b)
    requires forall x: nat :: x < sb.g.size && x != b && x != BitmapBlock(sb, b) ==> v'[x] == v[x]
    ensures var ino', s := ino[inum := ino[inum].(addrs := ino[inum].addrs[i := b])], AddrSlot(inum, i);
      && TableOk(sb, v', ino') && Owned(sb, v', ino', owner[b := s])
      && forall t :: ValidSlot(sb, t) && t != s ==> Ref(sb, v', ino', t) == Ref(sb, v, ino, t)
  {
    hide InUse, Word;
    var ino', s := ino[inum := ino[inum].(addrs := ino[inum].addrs[i := b])], AddrSlot(inum, i);
    BitmapBlockHome(sb, b);
    forall t | ValidSlot(sb, t) && t != s
      ensures Ref(sb, v', ino', t) == Ref(sb, v, ino, t)
    {
      if t.Leaf? && t.inum == inum && i == NDIRECT { WordOfZeros(t.j); }
      else if t.Leaf? && ino[t.inum].addrs[NDIRECT] != 0 { IndexIsOwned(sb, v, ino, owner, t.inum); }
    }
    OwnedGrows(sb, v, ino, owner, v', ino', b, s);
  }

  /** A zeroed new block b put into entry j of an index block. */
  lemma GiveLeaf(sb: Super, v: Disk, ino: seq<Inode>, owner: map<nat, Slot>, v1: Disk, v': Disk, inum: nat, j: nat,
                 b: nat)
    requires TableOk(sb, v, ino) && Owned(sb, v, ino, owner) && |v1| == |v| && inum < sb.ninodes && j < NINDIRECT
    requires IsData(sb, b) && b !in owner && ino[inum].addrs[NDIRECT] != 0
    requires Word(v[ino[inum].addrs[NDIRECT]], j) == 0
    requires forall c: nat :: c < sb.g.size ==> (InUse(sb, v1, c) <==> InUse(sb, v, c) || c == b)
    requires forall x: nat :: x < sb.g.size && x != b && x != BitmapBlock(sb, b) ==> v1[x] == v[x]
    requires v' == v1[ino[inum].addrs[NDIRECT] := SetWord(v1[ino[inum].addrs[NDIRECT]], j, b)]
    ensures TableOk(sb, v', ino) && Owned(sb, v', ino, owner[b := Leaf(inum, j)])
    ensures Ref(sb, v', ino, Leaf(inum, j)) == b
    ensures forall t :: ValidSlot(sb, t) && t != Leaf(inum, j) ==> Ref(sb, v', ino, t) == Ref(sb, v, ino, t)
  {
    hide InUse, Word, SetWord;
    var a := ino[inum].addrs[NDIRECT];
    BitmapBlockHome(sb, b);
    IndexIsOwned(sb, v, ino, owner, inum);
    forall t | ValidSlot(sb, t)
      ensures Ref(sb, v', ino, t) == if t == Leaf(inum, j) then b else Ref(sb, v, ino, t)
    {
      if t.Leaf? && ino[t.inum].addrs[NDIRECT] != 0 {
        IndexIsOwned(sb, v, ino, owner, t.inum);
        SetWordAt(v1[a], j, b, t.j);
      }
    }
    forall c: nat | c < sb.g.size
      ensures InUse(sb, v', c) <==> InUse(sb, v, c) || c == b
    {
      SameBitmap(sb, v1, v', c);
    }
    OwnedGrows(sb, v, ino, owner, v', ino, b, Leaf(inum, j));
  }

  lemma SetWordBytes(blk: Block, j: nat, w: nat)
    requires j < WORDS && w < MAX_UINT
    ensures forall k :: 0 <= k < BSIZE && !(4 * j <= k < 4 * j + 4) ==> SetWord(blk, j, w)[k] == blk[k]
  {}

  /** The slot of ip->addrs[i]. */
  ghost function AddrSlot(inum: nat, i: nat): Slot {
    if i < NDIRECT then Direct(inum, i) else Index(inum)
  }

  lemma WordOfZeros(j: nat)
    requires j < WORDS
    ensures Word(Zeros(), j) == 0
  {}

  lemma LeafRef(sb: Super, v: Disk, ino: seq<Inode>, n: nat, j: nat)
    requires TableOk(sb, v, ino) && n < sb.ninodes && j < NINDIRECT && ino[n].addrs[NDIRECT] != 0
    ensures Ref(sb, v, ino, Leaf(n, j)) == Word(v[ino[n].addrs[NDIRECT]], j)
  {}

  lemma IndexIsOwned(sb: Super, v: Disk, ino: seq<Inode>, owner: map<nat, Slot>, n: nat)
    requires TableOk(sb, v, ino) && Owned(sb, v, ino, owner) && n < sb.ninodes && ino[n].addrs[NDIRECT] != 0
    ensures ino[n].addrs[NDIRECT] in owner && owner[ino[n].addrs[NDIRECT]] == Index(n)
    ensures IsData(sb, ino[n].addrs[NDIRECT])
  {
    assert Ref(sb, v, ino, Index(n)) == ino[n].addrs[NDIRECT] && ValidSlot(sb, Index(n));
  }

  lemma DataIsNotInode(sb: Super, v: Disk, ino: seq<Inode>, owner: map<nat, Slot>)
    requires TableOk(sb, v, ino) && Owned(sb, v, ino, owner)
    ensures forall b :: b in owner ==> IsData(sb, b) && sb.bmapstart < b
  {}

  /** The bitmap updates report the one byte they change. */
  lemma SetBitBytes(blk: Block, bi: nat)
    requires bi < BPB
    ensures forall j :: 0 <= j < BSIZE && !(bi / 8 <= j < bi / 8 + 1) ==> SetBit(blk, bi)[j] == blk[j]
  {}

  lemma ClearBitBytes(blk: Block, bi: nat)
    requires bi < BPB
    ensures forall j :: 0 <= j < BSIZE && !(bi / 8 <= j < bi / 8 + 1) ==> ClearBit(blk, bi)[j] == blk[j]
  {}
}

/** Which block belongs to which file: the slots of inodes and index blocks, the
    bitmap that must agree with them, and the bytes a file is made of. */
module FsOwner {
  import opened Blocks
  import opened FsLayout

  /** A place that can hold a block number. */
  datatype Slot = Direct(inum: nat, i: nat) | Index(inum: nat) | Leaf(inum: nat, j: nat)

  ghost predicate ValidSlot(sb: Super, s: Slot) {
    s.inum < sb.ninodes && (s.Direct? ==> s.i < NDIRECT) && (s.Leaf? ==> s.j < NINDIRECT)
  }

  /** Cached blocks and in-memory inodes of the right shape. */
  ghost predicate TableOk(sb: Super, v: Disk, ino: seq<Inode>) {
    && SuperOk(sb) && |v| == sb.g.size && |ino| == sb.ninodes
    && forall n :: 0 <= n < |ino| ==> InodeOk(ino[n]) && ino[n].addrs[NDIRECT] < sb.g.size
  }

  /** The block number in a slot, 0 if none. */
  ghost function Ref(sb: Super, v: Disk, ino: seq<Inode>, s: Slot): nat
    requires TableOk(sb, v, ino) && ValidSlot(sb, s)
  {
    var ip := ino[s.inum];
    match s
    case Direct(_, i) => ip.addrs[i]
    case Index(_) => ip.addrs[NDIRECT]
    case Leaf(_, j) => if ip.addrs[NDIRECT] == 0 then 0 else Word(v[ip.addrs[NDIRECT]], j)
  }

  ghost predicate IsData(sb: Super, b: nat) { sb.dataStart <= b < sb.g.size }

  /** A block is marked in use exactly when it is metadata or sits in one slot. */
  ghost predicate Owned(sb: Super, v: Disk, ino: seq<Inode>, owner: map<nat, Slot>)
    requires TableOk(sb, v, ino)
  {
    && (forall s :: ValidSlot(sb, s) && Ref(sb, v, ino, s) != 0 ==>
          Ref(sb, v, ino, s) in owner && owner[Ref(sb, v, ino, s)] == s)
    && (forall b :: b in owner ==> IsData(sb, b) && ValidSlot(sb, owner[b]) && Ref(sb, v, ino, owner[b]) == b)
    && (forall b: nat :: b < sb.g.size ==> (InUse(sb, v, b) <==> b < sb.dataStart || b in owner))
  }

  /** The slot is the only thing that changed, and it now holds the new block b. */
  lemma OwnedGrows(sb: Super, v: Disk, ino: seq<Inode>, owner: map<nat, Slot>,
                   v': Disk, ino': seq<Inode>, b: nat, s: Slot)
    requires TableOk(sb, v, ino) && TableOk(sb, v', ino') && Owned(sb, v, ino, owner)
    requires IsData(sb, b) && b !in owner && ValidSlot(sb, s)
    requires Ref(sb, v', ino', s) == b && Ref(sb, v, ino, s) == 0
    requires forall t :: ValidSlot(sb, t) && t != s ==> Ref(sb, v', ino', t) == Ref(sb, v, ino, t)
    requires forall c: nat :: c < sb.g.size ==> (InUse(sb, v', c) <==> InUse(sb, v, c) || c == b)
    ensures Owned(sb, v', ino', owner[b := s])
  {
    hide Ref, InUse;
  }

  /** The slots of inode n are now empty and their blocks free; nothing else changed. */
  lemma OwnedShrinks(sb: Super, v: Disk, ino: seq<Inode>, owner: map<nat, Slot>,
                     v': Disk, ino': seq<Inode>, n: nat)
    requires TableOk(sb, v, ino) && TableOk(sb, v', ino') && Owned(sb, v, ino, owner) && n < sb.ninodes
    requires forall t :: ValidSlot(sb, t) ==>
      Ref(sb, v', ino', t) == if t.inum == n then 0 else Ref(sb, v, ino, t)
    requires forall c: nat :: c < sb.g.size ==>
      (InUse(sb, v', c) <==> InUse(sb, v, c) && !(c in owner && owner[c].inum == n))
    ensures Owned(sb, v', ino', map c | c in owner && owner[c].inum != n :: owner[c])
  {
    hide Ref, InUse;
  }

  /** Ownership reads only the bitmap and the index blocks. */
  lemma OwnedFrame(sb: Super, v: Disk, ino: seq<Inode>, owner: map<nat, Slot>, v': Disk)
    requires TableOk(sb, v, ino) && Owned(sb, v, ino, owner) && |v'| == |v|
    requires forall x: nat :: sb.bmapstart <= x < sb.dataStart ==> v'[x] == v[x]
    requires forall b :: b in owner && owner[b].Index? ==> v'[b] == v[b]
    ensures TableOk(sb, v', ino) && Owned(sb, v', ino, owner)
    ensures forall s :: ValidSlot(sb, s) ==> Ref(sb, v', ino, s) == Ref(sb, v, ino, s)
  {
    hide InUse, Word;
    forall s | ValidSlot(sb, s) ensures Ref(sb, v', ino, s) == Ref(sb, v, ino, s) {
      if s.Leaf? && ino[s.inum].addrs[NDIRECT] != 0 {
        assert Ref(sb, v, ino, Index(s.inum)) == ino[s.inum].addrs[NDIRECT];
        assert ValidSlot(sb, Index(s.inum));
      }
    }
    forall c: nat | c < sb.g.size ensures InUse(sb, v', c) == InUse(sb, v, c) {
      SameBitmap(sb, v, v', c);
    }
  }

  lemma SameBitmap(sb: Super, v: Disk, v': Disk, c: nat)
    requires SuperOk(sb) && |v| == |v'| == sb.g.size && c < sb.g.size
    requires forall x: nat :: sb.bmapstart <= x < sb.dataStart ==> v'[x] == v[x]
    ensures InUse(sb, v', c) == InUse(sb, v, c)
  {
    BitmapBlockHome(sb, c);
  }

  // ----- File contents

  function SlotOf(inum: nat, bn: nat): Slot {
    if bn < NDIRECT then Direct(inum, bn) else Leaf(inum, bn - NDIRECT)
  }

  lemma SlotOfValid(sb: Super, inum: nat, bn: nat)
    requires inum < sb.ninodes && bn < MAXFILE
    ensures ValidSlot(sb, SlotOf(inum, bn))
  {}

  /** Every block below byte len of the file is allocated. */
  ghost predicate Mapped(sb: Super, v: Disk, ino: seq<Inode>, inum: nat, len: nat)
    requires TableOk(sb, v, ino) && inum < sb.ninodes
  {
    && len <= MAXFILE * BSIZE
    && forall bn :: 0 <= bn < MAXFILE && bn * BSIZE < len ==> 0 < Ref(sb, v, ino, SlotOf(inum, bn)) < |v|
  }

  /** The first len bytes of the file, wherever their blocks lie. */
  ghost function FileBytes(sb: Super, v: Disk, ino: seq<Inode>, inum: nat, len: nat): (r: seq<bv8>)
    requires TableOk(sb, v, ino) && inum < sb.ninodes && Mapped(sb, v, ino, inum, len)
    ensures |r| == len
  {
    seq(len, p requires 0 <= p < len => v[Ref(sb, v, ino, SlotOf(inum, p / BSIZE))][p % BSIZE])
  }

  /** No holes: everything below the size is allocated. */
  ghost predicate FileOk(sb: Super, v: Disk, ino: seq<Inode>, inum: nat)
    requires TableOk(sb, v, ino) && inum < sb.ninodes
  {
    Mapped(sb, v, ino, inum, ino[inum].size)
  }

  ghost function Content(sb: Super, v: Disk, ino: seq<Inode>, inum: nat): (r: seq<bv8>)
    requires TableOk(sb, v, ino) && inum < sb.ninodes && FileOk(sb, v, ino, inum)
    ensures |r| == ino[inum].size
  {
    FileBytes(sb, v, ino, inum, ino[inum].size)
  }

  /** Block bn of a file, from the bytes of its inode and of its index block. */
  ghost function BlockAt(v: Disk, ip: Inode, bn: nat): nat
    requires |ip.addrs| == 13 && ip.addrs[12] < |v| && bn < 140
  {
    if bn < 12 then ip.addrs[bn]
    else if ip.addrs[12] == 0 then 0
    else Little(v[ip.addrs[12]], 4 * (bn - 12), 4)
  }

  lemma RefIs(sb: Super, v: Disk, ino: seq<Inode>, inum: nat, bn: nat)
    requires TableOk(sb, v, ino) && inum < sb.ninodes && bn < MAXFILE
    ensures ValidSlot(sb, SlotOf(inum, bn)) && Ref(sb, v, ino, SlotOf(inum, bn)) == BlockAt(v, ino[inum], bn)
  {
    hide Word, Little;
    if bn >= NDIRECT && ino[inum].addrs[NDIRECT] != 0 { WordIsLittle(v[ino[inum].addrs[NDIRECT]], bn - NDIRECT); }
  }

  /** Where byte p of a file lies on the volume. */
  lemma ByteIs(sb: Super, v: Disk, ino: seq<Inode>, inum: nat, p: nat)
    requires TableOk(sb, v, ino) && inum < sb.ninodes && FileOk(sb, v, ino, inum) && p < ino[inum].size
    ensures p / 512 < 140 && 0 < BlockAt(v, ino[inum], p / 512) < |v|
    ensures Content(sb, v, ino, inum)[p] == v[BlockAt(v, ino[inum], p / 512)][p % 512]
  {
    hide Ref, BlockAt;
    assert p / BSIZE < MAXFILE;
    RefIs(sb, v, ino, inum, p / BSIZE);
  }

  /** A file keeps its bytes when its slots and the blocks in them are the same. */
  lemma BytesFrame(sb: Super, v: Disk, ino: seq<Inode>, v': Disk, ino': seq<Inode>, inum: nat, len: nat)
    requires TableOk(sb, v, ino) && TableOk(sb, v', ino') && inum < sb.ninodes && Mapped(sb, v, ino, inum, len)
    requires forall bn :: 0 <= bn < MAXFILE && bn * BSIZE < len ==>
      && Ref(sb, v', ino', SlotOf(inum, bn)) == Ref(sb, v, ino, SlotOf(inum, bn))
      && v'[Ref(sb, v, ino, SlotOf(inum, bn))] == v[Ref(sb, v, ino, SlotOf(inum, bn))]
    ensures Mapped(sb, v', ino', inum, len)
    ensures FileBytes(sb, v', ino', inum, len) == FileBytes(sb, v, ino, inum, len)
  {
    hide Ref;
    forall p | 0 <= p < len
      ensures FileBytes(sb, v', ino', inum, len)[p] == FileBytes(sb, v, ino, inum, len)[p]
    {
      assert p / BSIZE * BSIZE < len && p / BSIZE < MAXFILE;
    }
  }

  // ----- Growth of one file

  /** From (v, ino, owner) to (v', ino', owner') inode inum gained the blocks gained
      and nothing that another inode or a slot already in use refers to changed. */
  ghost predicate Extends(sb: Super, v: Disk, ino: seq<Inode>, owner: map<nat, Slot>,
                          v': Disk, ino': seq<Inode>, owner': map<nat, Slot>, inum: nat, gained: set<nat>)
    requires TableOk(sb, v, ino) && TableOk(sb, v', ino') && inum < sb.ninodes
  {
    && gained !! owner.Keys && owner'.Keys == owner.Keys + gained
    && (forall b :: b in owner ==> owner'[b] == owner[b])
    && (forall b :: b in gained ==> owner'[b].inum == inum)
    && (forall b :: b in owner && b < |v| && owner[b].inum != inum ==> v'[b] == v[b])
    && (forall x: nat :: x < sb.bmapstart ==> v'[x] == v[x])
    && (forall s :: ValidSlot(sb, s) && (Ref(sb, v, ino, s) != 0 || s.inum != inum) ==>
          Ref(sb, v', ino', s) == Ref(sb, v, ino, s))
    && (forall n :: 0 <= n < |ino| && n != inum ==> ino'[n] == ino[n])
    && ino'[inum] == ino[inum].(addrs := ino'[inum].addrs)
  }

  lemma ExtendsTrans(sb: Super, v0: Disk, i0: seq<Inode>, o0: map<nat, Slot>, v1: Disk, i1: seq<Inode>,
                     o1: map<nat, Slot>, v2: Disk, i2: seq<Inode>, o2: map<nat, Slot>, inum: nat, f: set<nat>,
                     f': set<nat>)
    requires TableOk(sb, v0, i0) && TableOk(sb, v1, i1) && TableOk(sb, v2, i2) && inum < sb.ninodes
    requires Owned(sb, v0, i0, o0)
    requires Extends(sb, v0, i0, o0, v1, i1, o1, inum, f) && Extends(sb, v1, i1, o1, v2, i2, o2, inum, f')
    ensures Extends(sb, v0, i0, o0, v2, i2, o2, inum, f + f')
  {
    hide Ref;
  }

  /** Other files keep all their bytes. */
  lemma ExtendsOthers(sb: Super, v: Disk, ino: seq<Inode>, owner: map<nat, Slot>,
                      v': Disk, ino': seq<Inode>, owner': map<nat, Slot>, inum: nat, gained: set<nat>, n: nat, len: nat)
    requires TableOk(sb, v, ino) && TableOk(sb, v', ino') && inum < sb.ninodes && n < sb.ninodes && n != inum
    requires Owned(sb, v, ino, owner) && Extends(sb, v, ino, owner, v', ino', owner', inum, gained)
    requires Mapped(sb, v, ino, n, len)
    ensures Mapped(sb, v', ino', n, len)
    ensures FileBytes(sb, v', ino', n, len) == FileBytes(sb, v, ino, n, len)
  {
    hide Ref, FileBytes;
    forall bn | 0 <= bn < MAXFILE && bn * BSIZE < len
      ensures Ref(sb, v', ino', SlotOf(n, bn)) == Ref(sb, v, ino, SlotOf(n, bn))
      ensures v'[Ref(sb, v, ino, SlotOf(n, bn))] == v[Ref(sb, v, ino, SlotOf(n, bn))]
    {
      SlotOfValid(sb, n, bn);
    }
    BytesFrame(sb, v, ino, v', ino', n, len);
  }
}

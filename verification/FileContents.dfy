/** Reading and writing files as flat byte sequences: what one turn of the loops
    in readi and writei does to the bytes of a file. */
module FileContents {
  import opened Basics
  import opened Blocks
  import opened LogHeader
  import opened FsLayout
  import opened FsOwner
  import opened FileSystem

  /** File contents c with w written over them from off on. */
  function Written(c: seq<bv8>, off: nat, w: seq<bv8>): (r: seq<bv8>)
    requires off <= |c|
    ensures |r| == Max(|c|, off + |w|)
    ensures forall p :: 0 <= p < |r| ==> r[p] == if off <= p < off + |w| then w[p - off] else c[p]
  {
    c[..off] + w + (if off + |w| < |c| then c[off + |w|..] else [])
  }

  lemma WrittenTwice(c: seq<bv8>, off: nat, a: seq<bv8>, b: seq<bv8>)
    requires off <= |c|
    ensures Written(Written(c, off, a), off + |a|, b) == Written(c, off, a + b)
  {}

  /** memmove of w into a buffer at off. */
  function Patch(blk: Block, off: nat, w: seq<bv8>): (r: Block)
    requires off + |w| <= BSIZE
    ensures forall j :: 0 <= j < BSIZE ==> r[j] == if off <= j < off + |w| then w[j - off] else blk[j]
  {
    blk[..off] + w + blk[off + |w|..]
  }

  /** bmap for inode inum changes no byte that any file n already had. */
  lemma BmapKeepsBytes(sb: Super, s: Snap, s': Snap, inum: nat, bn: nat, addr: nat, gained: set<nat>, n: nat, len: nat)
    requires BmapDone(sb, s, s', inum, bn, addr, gained) && n < sb.ninodes && Mapped(sb, s.v, s.ino, n, len)
    ensures Mapped(sb, s'.v, s'.ino, n, len)
    ensures FileBytes(sb, s'.v, s'.ino, n, len) == FileBytes(sb, s.v, s.ino, n, len)
  {
    hide Ref, FileBytes, Names;
    forall k | 0 <= k < MAXFILE && k * BSIZE < len
      ensures Ref(sb, s'.v, s'.ino, SlotOf(n, k)) == Ref(sb, s.v, s.ino, SlotOf(n, k))
      ensures s'.v[Ref(sb, s.v, s.ino, SlotOf(n, k))] == s.v[Ref(sb, s.v, s.ino, SlotOf(n, k))]
    {
      SlotOfValid(sb, n, k);
    }
    BytesFrame(sb, s.v, s.ino, s'.v, s'.ino, n, len);
  }

  /** Writing one data block of a file touches no other slot and no other file. */
  lemma StoreExtends(sb: Super, s: Snap, inum: nat, bn: nat, addr: nat, data: Block, s': Snap)
    requires Good(sb, s) && inum < sb.ninodes && bn < MAXFILE
    requires addr == Ref(sb, s.v, s.ino, SlotOf(inum, bn)) && addr != 0 && addr < |s.v|
    requires s'.v == s.v[addr := data] && s'.ino == s.ino && s'.owner == s.owner
    ensures Good(sb, s') && Extends(sb, s.v, s.ino, s.owner, s'.v, s'.ino, s'.owner, inum, {})
    ensures forall t :: ValidSlot(sb, t) ==> Ref(sb, s'.v, s'.ino, t) == Ref(sb, s.v, s.ino, t)
    ensures addr in s.owner && s.owner[addr] == SlotOf(inum, bn) && IsData(sb, addr)
  {
    hide Ref, InUse, Names;
    SlotOfValid(sb, inum, bn);
    OwnedFrame(sb, s.v, s.ino, s.owner, s'.v);
  }

  /** Byte p after block bn of the file was overwritten with data. */
  lemma StoreByte(sb: Super, s: Snap, inum: nat, bn: nat, addr: nat, data: Block, s': Snap, len: nat, p: nat)
    requires Good(sb, s) && Good(sb, s') && inum < sb.ninodes && bn < MAXFILE && p < len
    requires addr == Ref(sb, s.v, s.ino, SlotOf(inum, bn)) && addr != 0 && addr < |s.v|
    requires s'.v == s.v[addr := data]
    requires forall t :: ValidSlot(sb, t) ==> Ref(sb, s'.v, s'.ino, t) == Ref(sb, s.v, s.ino, t)
    requires Mapped(sb, s.v, s.ino, inum, len) && Mapped(sb, s'.v, s'.ino, inum, len)
    ensures FileBytes(sb, s'.v, s'.ino, inum, len)[p]
         == if p / BSIZE == bn then data[p % BSIZE] else FileBytes(sb, s.v, s.ino, inum, len)[p]
  {
    hide Ref, InUse;
    var k := p / BSIZE;
    assert k * BSIZE < len && k < MAXFILE;
    SlotOfValid(sb, inum, bn);
    SlotOfValid(sb, inum, k);
  }

  /** One turn of writei's loop: bmap, then chunk copied into the block. */
  lemma WriteTurn(sb: Super, s: Snap, s1: Snap, s2: Snap, inum: nat, off: nat, chunk: seq<bv8>, len: nat,
                  addr: nat, gained: set<nat>)
    requires BmapDone(sb, s, s1, inum, off / BSIZE, addr, gained)
    requires Mapped(sb, s.v, s.ino, inum, len) && off <= len
    requires 0 < |chunk| <= BSIZE - off % BSIZE && off + |chunk| <= MAXFILE * BSIZE && addr < |s1.v|
    requires s2.v == s1.v[addr := Patch(s1.v[addr], off % BSIZE, chunk)] && s2.ino == s1.ino && s2.owner == s1.owner
    ensures Good(sb, s2) && Extends(sb, s.v, s.ino, s.owner, s2.v, s2.ino, s2.owner, inum, gained)
    ensures addr in s1.owner && s1.owner[addr] == SlotOf(inum, off / BSIZE) && IsData(sb, addr)
    ensures Mapped(sb, s2.v, s2.ino, inum, Max(len, off + |chunk|))
    ensures FileBytes(sb, s2.v, s2.ino, inum, Max(len, off + |chunk|))
         == Written(FileBytes(sb, s.v, s.ino, inum, len), off, chunk)
  {
    hide Ref, InUse, Names, FileBytes;
    var bn, len' := off / BSIZE, Max(len, off + |chunk|);
    var data := Patch(s1.v[addr], off % BSIZE, chunk);
    BmapKeepsBytes(sb, s, s1, inum, bn, addr, gained, inum, len);
    StoreExtends(sb, s1, inum, bn, addr, data, s2);
    ExtendsTrans(sb, s.v, s.ino, s.owner, s1.v, s1.ino, s1.owner, s2.v, s2.ino, s2.owner, inum, gained, {});
    assert gained + {} == gained;
    MappedFurther(sb, s1, inum, off, len, addr, off + |chunk|);
    MappedSame(sb, s1, s2, inum, len');
    WriteBytes(sb, s1, s2, inum, off, chunk, len, addr);
  }

  lemma MappedFurther(sb: Super, s: Snap, inum: nat, off: nat, len: nat, addr: nat, end: nat)
    requires Good(sb, s) && inum < sb.ninodes && off / BSIZE < MAXFILE && Mapped(sb, s.v, s.ino, inum, len)
    requires off <= len
    requires addr == Ref(sb, s.v, s.ino, SlotOf(inum, off / BSIZE)) && 0 < addr < |s.v|
    requires off < end <= off - off % BSIZE + BSIZE && end <= MAXFILE * BSIZE
    ensures Mapped(sb, s.v, s.ino, inum, Max(len, end))
  {
    hide Ref, InUse, Owned;
    forall k | 0 <= k < MAXFILE && k * BSIZE < Max(len, end)
      ensures 0 < Ref(sb, s.v, s.ino, SlotOf(inum, k)) < |s.v|
    {
      if k * BSIZE >= len { assert k == off / BSIZE; }
    }
  }

  lemma MappedSame(sb: Super, s: Snap, s': Snap, inum: nat, len: nat)
    requires Good(sb, s) && Good(sb, s') && inum < sb.ninodes && Mapped(sb, s.v, s.ino, inum, len) && |s'.v| == |s.v|
    requires forall t :: ValidSlot(sb, t) ==> Ref(sb, s'.v, s'.ino, t) == Ref(sb, s.v, s.ino, t)
    ensures Mapped(sb, s'.v, s'.ino, inum, len)
  {
    hide Ref, InUse, Owned;
    forall k | 0 <= k < MAXFILE && k * BSIZE < len
      ensures 0 < Ref(sb, s'.v, s'.ino, SlotOf(inum, k)) < |s'.v|
    {
      SlotOfValid(sb, inum, k);
    }
  }

  lemma WriteBytes(sb: Super, s1: Snap, s2: Snap, inum: nat, off: nat, chunk: seq<bv8>, len: nat, addr: nat)
    requires Good(sb, s1) && Good(sb, s2) && inum < sb.ninodes && off / BSIZE < MAXFILE && off <= len
    requires addr == Ref(sb, s1.v, s1.ino, SlotOf(inum, off / BSIZE)) && 0 < addr < |s1.v|
    requires 0 < |chunk| <= BSIZE - off % BSIZE
    requires s2.v == s1.v[addr := Patch(s1.v[addr], off % BSIZE, chunk)]
    requires forall t :: ValidSlot(sb, t) ==> Ref(sb, s2.v, s2.ino, t) == Ref(sb, s1.v, s1.ino, t)
    requires Mapped(sb, s1.v, s1.ino, inum, len)
    requires Mapped(sb, s1.v, s1.ino, inum, Max(len, off + |chunk|))
    requires Mapped(sb, s2.v, s2.ino, inum, Max(len, off + |chunk|))
    ensures FileBytes(sb, s2.v, s2.ino, inum, Max(len, off + |chunk|))
         == Written(FileBytes(sb, s1.v, s1.ino, inum, len), off, chunk)
  {
    hide Ref, InUse, Owned, Mapped;
    var len' := Max(len, off + |chunk|);
    var data := Patch(s1.v[addr], off % BSIZE, chunk);
    var f1, f2 := FileBytes(sb, s1.v, s1.ino, inum, len), FileBytes(sb, s2.v, s2.ino, inum, len');
    var w := Written(f1, off, chunk);
    forall p | 0 <= p < len' ensures f2[p] == w[p] {
      StoreByte(sb, s1, inum, off / BSIZE, addr, data, s2, len', p);
      if p / BSIZE == off / BSIZE {
        assert p == off - off % BSIZE + p % BSIZE;
      }
    }
  }
}

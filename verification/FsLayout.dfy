/** The on-disk layout of fs.h: superblock, free bitmap, inode blocks. */
module FsLayout {
  import opened Blocks
  import opened LogHeader
  import CrashSafety

  const BPB: nat := 4096       // bitmap bits per block
  const IPB: nat := 8          // inodes per block
  const INODE_WORDS: nat := 16 // words per dinode
  const NDIRECT: nat := 12
  const NINDIRECT: nat := 128
  const MAXFILE: nat := 140
  const T_DIR: nat := 1
  const T_FILE: nat := 2
  const T_DEV: nat := 3

  /** The superblock fields; the data blocks run from dataStart to the end. */
  datatype Super = Super(g: CrashSafety.Geometry, ninodes: nat, inodestart: nat, bmapstart: nat, dataStart: nat)

  /** mkfs lays out log, inode blocks, bitmap and data in this order. */
  ghost predicate SuperOk(sb: Super) {
    && CrashSafety.GeometryOk(sb.g) && 0 < sb.ninodes
    && sb.g.start + sb.g.nlog <= sb.inodestart
    && sb.inodestart + (sb.ninodes - 1) / IPB < sb.bmapstart
    && sb.bmapstart + (sb.g.size - 1) / BPB < sb.dataStart <= sb.g.size
  }

  // ----- The free bitmap

  function MaskOf(k: nat): bv8
    requires k < 8
  {
    if k == 0 then 1 else if k == 1 then 2 else if k == 2 then 4 else if k == 3 then 8
    else if k == 4 then 16 else if k == 5 then 32 else if k == 6 then 64 else 128
  }

  predicate BitAt(blk: Block, bi: nat)
    requires bi < BPB
  {
    blk[bi / 8] & MaskOf(bi % 8) != 0
  }

  function SetBit(blk: Block, bi: nat): Block
    requires bi < BPB
  {
    blk[bi / 8 := blk[bi / 8] | MaskOf(bi % 8)]
  }

  function ClearBit(blk: Block, bi: nat): Block
    requires bi < BPB
  {
    blk[bi / 8 := blk[bi / 8] & !MaskOf(bi % 8)]
  }

  lemma MaskSet(x: bv8, j: nat, k: nat)
    requires j < 8 && k < 8
    ensures (x | MaskOf(j)) & MaskOf(k) != 0 <==> x & MaskOf(k) != 0 || j == k
  {}

  lemma MaskClear(x: bv8, j: nat, k: nat)
    requires j < 8 && k < 8
    ensures (x & !MaskOf(j)) & MaskOf(k) != 0 <==> x & MaskOf(k) != 0 && j != k
  {}

  lemma SetBitAt(blk: Block, bi: nat, c: nat)
    requires bi < BPB && c < BPB
    ensures BitAt(SetBit(blk, bi), c) <==> BitAt(blk, c) || c == bi
  {
    hide MaskOf;
    if bi / 8 == c / 8 { MaskSet(blk[bi / 8], bi % 8, c % 8); }
  }

  lemma ClearBitAt(blk: Block, bi: nat, c: nat)
    requires bi < BPB && c < BPB
    ensures BitAt(ClearBit(blk, bi), c) <==> BitAt(blk, c) && c != bi
  {
    hide MaskOf;
    assert bi / 8 == c / 8 && bi % 8 == c % 8 ==> bi == c;
    if bi / 8 == c / 8 { MaskClear(blk[bi / 8], bi % 8, c % 8); }
  }

  /** BBLOCK: the bitmap block with the bit of block b. */
  function BitmapBlock(sb: Super, b: nat): nat { b / BPB + sb.bmapstart }

  ghost predicate InUse(sb: Super, v: Disk, b: nat)
    requires SuperOk(sb) && |v| == sb.g.size && b < sb.g.size
  {
    BitAt(v[BitmapBlock(sb, b)], b % BPB)
  }

  lemma BitmapBlockHome(sb: Super, b: nat)
    requires SuperOk(sb) && b < sb.g.size
    ensures CrashSafety.IsHome(sb.g, BitmapBlock(sb, b)) && sb.bmapstart <= BitmapBlock(sb, b) < sb.dataStart
  {
    assert b / BPB <= (sb.g.size - 1) / BPB;
  }

  lemma MaskIsShift(k: nat)
    requires k < 8
    ensures MaskOf(k) == (1 as bv8) << k
  {}

  /** Where the bit of block b is. */
  lemma BitIs(sb: Super, v: Disk, b: nat)
    requires SuperOk(sb) && |v| == sb.g.size && b < sb.g.size
    ensures sb.bmapstart + b / 4096 < |v|
    ensures InUse(sb, v, b) <==> v[sb.bmapstart + b / 4096][b % 4096 / 8] & ((1 as bv8) << (b % 8)) != 0
  {
    BitmapBlockHome(sb, b);
    assert b % 4096 % 8 == b % 8;
    MaskIsShift(b % 8);
  }

  /** Setting one bit marks one block. */
  lemma MarkUsed(sb: Super, v: Disk, b: nat, c: nat)
    requires SuperOk(sb) && |v| == sb.g.size && b < sb.g.size && c < sb.g.size
    ensures BitmapBlock(sb, b) < |v|
    ensures InUse(sb, v[BitmapBlock(sb, b) := SetBit(v[BitmapBlock(sb, b)], b % BPB)], c)
            <==> InUse(sb, v, c) || c == b
  {
    hide SetBit, BitAt;
    BitmapBlockHome(sb, b);
    BitmapBlockHome(sb, c);
    if b / BPB == c / BPB {
      SetBitAt(v[BitmapBlock(sb, b)], b % BPB, c % BPB);
    }
  }

  lemma MarkFree(sb: Super, v: Disk, b: nat, c: nat)
    requires SuperOk(sb) && |v| == sb.g.size && b < sb.g.size && c < sb.g.size
    ensures BitmapBlock(sb, b) < |v|
    ensures InUse(sb, v[BitmapBlock(sb, b) := ClearBit(v[BitmapBlock(sb, b)], b % BPB)], c)
            <==> InUse(sb, v, c) && c != b
  {
    hide ClearBit, BitAt;
    BitmapBlockHome(sb, b);
    BitmapBlockHome(sb, c);
    if b / BPB == c / BPB {
      ClearBitAt(v[BitmapBlock(sb, b)], b % BPB, c % BPB);
    }
  }

  // ----- Inodes

  datatype Inode = Inode(typ: nat, major: nat, minor: nat, nlink: nat, size: nat, addrs: seq<nat>)

  ghost predicate InodeOk(ip: Inode) {
    && ip.typ < 0x1_0000 && ip.major < 0x1_0000 && ip.minor < 0x1_0000 && ip.nlink < 0x1_0000
    && ip.size < MAX_UINT && |ip.addrs| == NDIRECT + 1
    && forall i :: 0 <= i <= NDIRECT ==> ip.addrs[i] < MAX_UINT
  }

  /** Word k of struct dinode. */
  function DinodeWord(ip: Inode, k: nat): (w: nat)
    requires InodeOk(ip) && k < INODE_WORDS
    ensures w < MAX_UINT
  {
    if k == 0 then ip.typ + 0x1_0000 * ip.major
    else if k == 1 then ip.minor + 0x1_0000 * ip.nlink
    else if k == 2 then ip.size
    else ip.addrs[k - 3]
  }

  /** The inode in slot n of an inode block. */
  function GetInode(blk: Block, n: nat): Inode
    requires n < IPB
  {
    var base := INODE_WORDS * n;
    Inode(Word(blk, base) % 0x1_0000, Word(blk, base) / 0x1_0000,
          Word(blk, base + 1) % 0x1_0000, Word(blk, base + 1) / 0x1_0000,
          Word(blk, base + 2), seq<nat>(NDIRECT + 1, i requires 0 <= i <= NDIRECT => Word(blk, base + 3 + i)))
  }

  /** An inode block with the first k words of ip stored in slot n. */
  function PutWords(blk: Block, n: nat, ip: Inode, k: nat): Block
    requires n < IPB && InodeOk(ip) && k <= INODE_WORDS
  {
    if k == 0 then blk else SetWord(PutWords(blk, n, ip, k - 1), INODE_WORDS * n + (k - 1), DinodeWord(ip, k - 1))
  }

  lemma {:induction false} PutWordsAt(blk: Block, n: nat, ip: Inode, k: nat, w: nat)
    requires n < IPB && InodeOk(ip) && k <= INODE_WORDS && w < WORDS
    ensures Word(PutWords(blk, n, ip, k), w)
         == if INODE_WORDS * n <= w < INODE_WORDS * n + k then DinodeWord(ip, w - INODE_WORDS * n) else Word(blk, w)
  {
    hide Word, SetWord, DinodeWord;
    if k > 0 {
      PutWordsAt(blk, n, ip, k - 1, w);
      SetWordAt(PutWords(blk, n, ip, k - 1), INODE_WORDS * n + (k - 1), DinodeWord(ip, k - 1), w);
    }
  }

  lemma {:induction false} PutWordsBytes(blk: Block, n: nat, ip: Inode, k: nat, j: nat)
    requires n < IPB && InodeOk(ip) && k <= INODE_WORDS && j < BSIZE
    requires !(64 * n <= j < 64 * n + 64)
    ensures PutWords(blk, n, ip, k)[j] == blk[j]
  {
    hide ByteOf, DinodeWord;
    if k > 0 { PutWordsBytes(blk, n, ip, k - 1, j); }
  }

  lemma GetOfPut(blk: Block, n: nat, ip: Inode, m: nat)
    requires n < IPB && m < IPB && InodeOk(ip)
    ensures GetInode(PutWords(blk, n, ip, INODE_WORDS), m) == if m == n then ip else GetInode(blk, m)
  {
    hide Word, PutWords;
    var p := PutWords(blk, n, ip, INODE_WORDS);
    forall w | INODE_WORDS * m <= w < INODE_WORDS * m + INODE_WORDS
      ensures Word(p, w) == if m == n then DinodeWord(ip, w - INODE_WORDS * n) else Word(blk, w)
    {
      PutWordsAt(blk, n, ip, INODE_WORDS, w);
    }
    if m == n {
      assert GetInode(p, m).addrs == ip.addrs;
    } else {
      assert GetInode(p, m).addrs == GetInode(blk, m).addrs;
    }
  }

  /** The bytes of struct dinode at byte at of a block. */
  ghost predicate InodeBytes(blk: Block, at: nat, ip: Inode)
    requires at + 64 <= BSIZE
  {
    && ip.typ == Little(blk, at, 2) && ip.major == Little(blk, at + 2, 2)
    && ip.minor == Little(blk, at + 4, 2) && ip.nlink == Little(blk, at + 6, 2)
    && ip.size == Little(blk, at + 8, 4) && |ip.addrs| == 13
    && forall i :: 0 <= i < 13 ==> ip.addrs[i] == Little(blk, at + 12 + 4 * i, 4)
  }

  lemma InodeIs(blk: Block, n: nat)
    requires n < IPB
    ensures InodeBytes(blk, 64 * n, GetInode(blk, n))
  {
    hide Word, Little;
    HalvesAreLittle(blk, 16 * n);
    HalvesAreLittle(blk, 16 * n + 1);
    WordIsLittle(blk, 16 * n + 2);
    forall i | 0 <= i < 13 ensures Word(blk, 16 * n + 3 + i) == Little(blk, 64 * n + 12 + 4 * i, 4) {
      WordIsLittle(blk, 16 * n + 3 + i);
    }
  }

  /** IBLOCK. */
  function InodeBlock(sb: Super, inum: nat): nat { inum / IPB + sb.inodestart }

  ghost function Dinode(sb: Super, v: Disk, inum: nat): Inode
    requires SuperOk(sb) && |v| == sb.g.size && inum < sb.ninodes
  {
    InodeBlockHome(sb, inum);
    GetInode(v[InodeBlock(sb, inum)], inum % IPB)
  }

  lemma InodeBlockHome(sb: Super, inum: nat)
    requires SuperOk(sb) && inum < sb.ninodes
    ensures CrashSafety.IsHome(sb.g, InodeBlock(sb, inum)) && InodeBlock(sb, inum) < sb.bmapstart
  {
    assert inum / IPB <= (sb.ninodes - 1) / IPB;
  }

  /** Inode inum is on the disk as ip. */
  ghost predicate InodeAt(sb: Super, v: Disk, inum: nat, ip: Inode) {
    sb.inodestart + inum / 8 < |v| && InodeBytes(v[sb.inodestart + inum / 8], 64 * (inum % 8), ip)
  }

  lemma DinodeIs(sb: Super, v: Disk, inum: nat)
    requires SuperOk(sb) && |v| == sb.g.size && inum < sb.ninodes
    ensures InodeAt(sb, v, inum, Dinode(sb, v, inum))
  {
    hide GetInode, InodeBytes;
    InodeBlockHome(sb, inum);
    InodeIs(v[InodeBlock(sb, inum)], inum % IPB);
  }

  /** Writing one inode back changes one inode. */
  lemma StoreInode(sb: Super, v: Disk, inum: nat, ip: Inode, other: nat)
    requires SuperOk(sb) && |v| == sb.g.size && inum < sb.ninodes && other < sb.ninodes && InodeOk(ip)
    ensures InodeBlock(sb, inum) < |v|
    ensures var b := InodeBlock(sb, inum);
      Dinode(sb, v[b := PutWords(v[b], inum % IPB, ip, INODE_WORDS)], other)
      == if other == inum then ip else Dinode(sb, v, other)
  {
    hide GetInode, PutWords;
    InodeBlockHome(sb, inum);
    InodeBlockHome(sb, other);
    var b := InodeBlock(sb, inum);
    if other / IPB == inum / IPB {
      GetOfPut(v[b], inum % IPB, ip, other % IPB);
    }
  }
}

/** itrunc of fs.c: a file gives back exactly the blocks it owns. */
module Truncate {
  import opened Basics
  import opened Blocks
  import opened LogHeader
  import opened FsLayout
  import opened FsOwner
  import CrashSafety
  import FS = FileSystem
  import opened FileSystem
  import opened FileIo

  /** Since s0 only bits of the bitmap were cleared, those of the blocks in freed. */
  ghost predicate Clearing(sb: Super, s0: Snap, v: Disk, inum: nat, freed: set<nat>) {
    && Good(sb, s0) && |v| == |s0.v| && inum < sb.ninodes
    && (forall b :: b in freed ==> b in s0.owner && s0.owner[b].inum == inum)
    && (forall c: nat :: c < sb.g.size ==> (InUse(sb, v, c) <==> InUse(sb, s0.v, c) && c !in freed))
    && (forall x: nat :: x < sb.g.size && !(sb.bmapstart <= x < sb.dataStart) ==> v[x] == s0.v[x])
  }

  /** The blocks of an inode. */
  ghost function Own(owner: map<nat, Slot>, inum: nat): set<nat> { set b | b in owner && owner[b].inum == inum }

  /** The header names no more than before but for the bitmap blocks of the inode's own blocks. */
  ghost predicate Noted(sb: Super, s0: Snap, lh: seq<Entry>, inum: nat) {
    && CrashSafety.GeometryOk(sb.g) && CrashSafety.GoodLog(sb.g, lh)
    && Names(lh) <= Names(s0.lh) + BitmapBlocks(sb, Own(s0.owner, inum))
  }

  lemma NoteOne(sb: Super, s0: Snap, lh: seq<Entry>, lh': seq<Entry>, inum: nat, b: nat)
    requires Noted(sb, s0, lh, inum) && CrashSafety.GoodLog(sb.g, lh') && Names(lh') == Names(lh) + {BitmapBlock(sb, b)}
    requires b in s0.owner && s0.owner[b].inum == inum
    ensures Noted(sb, s0, lh', inum)
  {
    hide Names;
    assert b in Own(s0.owner, inum);
  }

  /** The block in slot t was in use, and still is unless it has been freed. */
  lemma SlotInUse(sb: Super, s0: Snap, v: Disk, inum: nat, freed: set<nat>, t: Slot)
    requires Clearing(sb, s0, v, inum, freed) && ValidSlot(sb, t) && Ref(sb, s0.v, s0.ino, t) != 0
    ensures var b := Ref(sb, s0.v, s0.ino, t);
      && IsData(sb, b) && b in s0.owner && s0.owner[b] == t
      && (InUse(sb, v, b) <==> b !in freed)
  {
    hide Ref, InUse;
  }

  lemma ClearMore(sb: Super, s0: Snap, v: Disk, v': Disk, inum: nat, freed: set<nat>, b: nat)
    requires Clearing(sb, s0, v, inum, freed) && |v'| == |v| && IsData(sb, b)
    requires b in s0.owner && s0.owner[b].inum == inum
    requires forall c: nat :: c < sb.g.size ==> (InUse(sb, v', c) <==> InUse(sb, v, c) && c != b)
    requires forall x: nat :: x < sb.g.size && x != BitmapBlock(sb, b) ==> v'[x] == v[x]
    ensures Clearing(sb, s0, v', inum, freed + {b})
  {
    hide InUse, Owned;
    BitmapBlockHome(sb, b);
  }

  /** bfree on a block of the inode: it cannot be a free block. */
  method FreeOwn(fs: FS.FileSystem, inum: nat, b: nat, t: Slot, ghost s0: Snap, ghost freed: set<nat>)
      returns (ok: bool)
    requires fs.Attached() && Clearing(fs.sb, s0, fs.log.view, inum, freed)
    requires ValidSlot(fs.sb, t) && t.inum == inum && Ref(fs.sb, s0.v, s0.ino, t) == b && b != 0 && b !in freed
    requires Noted(fs.sb, s0, fs.log.lh, inum)
    modifies fs.log
    ensures |fs.log.view| == fs.sb.g.size && fs.log.disk == old(fs.log.disk)
    ensures fs.log.outstanding == old(fs.log.outstanding)
    ensures Noted(fs.sb, s0, fs.log.lh, inum)
    ensures ok ==> fs.Attached() && Clearing(fs.sb, s0, fs.log.view, inum, freed + {b})
    ensures ok ==> b in s0.owner && s0.owner[b] == t
    ensures !ok ==> fs.LogFull()
  {
    hide Ref, InUse, Owned, Clearing, CrashSafety.Covered, CrashSafety.Cleared, CrashSafety.GoodLog, Names, Noted;
    SlotInUse(fs.sb, s0, fs.log.view, inum, freed, t);
    ok := fs.Bfree(b);
    if ok { NoteOne(fs.sb, s0, old(fs.log.lh), fs.log.lh, inum, b); }
    if ok { ClearMore(fs.sb, s0, old(fs.log.view), fs.log.view, inum, freed, b); }
  }

  /** The first loop of itrunc. */
  method FreeDirect(fs: FS.FileSystem, inum: nat, ghost s0: Snap) returns (ok: bool, ghost freed: set<nat>)
    requires fs.Valid() && inum < fs.sb.ninodes && s0 == fs.Now()
    modifies fs, fs.log
    ensures |fs.log.view| == fs.sb.g.size && fs.log.disk == old(fs.log.disk) && fs.owner == old(fs.owner)
    ensures fs.log.outstanding == old(fs.log.outstanding) && Noted(fs.sb, s0, fs.log.lh, inum)
    ensures ok ==> fs.Attached() && Clearing(fs.sb, s0, fs.log.view, inum, freed)
    ensures ok ==> fs.ino == s0.ino[inum := s0.ino[inum].(addrs := fs.ino[inum].addrs)]
    ensures ok ==> forall k :: 0 <= k < NDIRECT ==>
      fs.ino[inum].addrs[k] == 0 && (s0.ino[inum].addrs[k] != 0 ==> s0.ino[inum].addrs[k] in freed)
    ensures ok ==> fs.ino[inum].addrs[NDIRECT] == s0.ino[inum].addrs[NDIRECT]
    ensures ok ==> forall b :: b in freed ==> b in s0.owner && s0.owner[b].Direct?
    ensures !ok ==> fs.LogFull()
  {
    hide InUse, Owned, Clearing, CrashSafety.Ready, Word, Noted;
    ok, freed := true, {};
    ClearNothing(fs.sb, s0, inum);
    NoteNothing(fs, s0, inum);
    var i := 0;
    while i < NDIRECT
      invariant 0 <= i <= NDIRECT && fs.Attached() && Clearing(fs.sb, s0, fs.log.view, inum, freed)
      invariant fs.log.disk == old(fs.log.disk) && fs.owner == old(fs.owner)
      invariant fs.log.outstanding == old(fs.log.outstanding) && Noted(fs.sb, s0, fs.log.lh, inum)
      invariant fs.ino == s0.ino[inum := s0.ino[inum].(addrs := fs.ino[inum].addrs)]
      invariant forall k :: 0 <= k < i ==>
        fs.ino[inum].addrs[k] == 0 && (s0.ino[inum].addrs[k] != 0 ==> s0.ino[inum].addrs[k] in freed)
      invariant forall k :: i <= k <= NDIRECT ==> fs.ino[inum].addrs[k] == s0.ino[inum].addrs[k]
      invariant forall b :: b in freed ==> b in s0.owner && s0.owner[b].Direct? && s0.owner[b].i < i
    {
      var b := fs.ino[inum].addrs[i];
      if b != 0 {
        SlotOwner(fs.sb, s0, Direct(inum, i));
        ok := FreeOwn(fs, inum, b, Direct(inum, i), s0, freed);
        if !ok { return; }
        freed := freed + {b};
        fs.ino := fs.ino[inum := fs.ino[inum].(addrs := fs.ino[inum].addrs[i := 0])];
      }
      i := i + 1;
    }
  }

  lemma NoteNothing(fs: FS.FileSystem, s0: Snap, inum: nat)
    requires fs.Valid() && s0 == fs.Now()
    ensures Noted(fs.sb, s0, fs.log.lh, inum)
  {
    hide Owned, Names, CrashSafety.Covered, CrashSafety.Cleared;
  }

  lemma ClearNothing(sb: Super, s: Snap, inum: nat)
    requires Good(sb, s) && inum < sb.ninodes
    ensures Clearing(sb, s, s.v, inum, {})
  {}

  lemma SlotOwner(sb: Super, s: Snap, t: Slot)
    requires Good(sb, s) && ValidSlot(sb, t) && Ref(sb, s.v, s.ino, t) != 0
    ensures Ref(sb, s.v, s.ino, t) in s.owner && s.owner[Ref(sb, s.v, s.ino, t)] == t
    ensures IsData(sb, Ref(sb, s.v, s.ino, t))
  {
    hide Ref;
  }

  /** The second half of itrunc: the blocks named in the index block, then itself. */
  method FreeIndirect(fs: FS.FileSystem, inum: nat, ghost s0: Snap, ghost direct: set<nat>)
      returns (ok: bool, ghost freed: set<nat>)
    requires fs.Attached() && Good(fs.sb, s0) && inum < fs.sb.ninodes && Clearing(fs.sb, s0, fs.log.view, inum, direct)
    requires fs.ino[inum].addrs[NDIRECT] == s0.ino[inum].addrs[NDIRECT] != 0
    requires forall b :: b in direct ==> b in s0.owner && s0.owner[b].Direct?
    requires Noted(fs.sb, s0, fs.log.lh, inum)
    modifies fs.log
    ensures |fs.log.view| == fs.sb.g.size && fs.log.disk == old(fs.log.disk)
    ensures fs.log.outstanding == old(fs.log.outstanding) && Noted(fs.sb, s0, fs.log.lh, inum)
    ensures ok ==> fs.Attached() && Clearing(fs.sb, s0, fs.log.view, inum, freed) && direct <= freed
    ensures ok ==> s0.ino[inum].addrs[NDIRECT] in freed
    ensures ok ==> forall j: nat :: j < NINDIRECT && Ref(fs.sb, s0.v, s0.ino, Leaf(inum, j)) != 0 ==>
      Ref(fs.sb, s0.v, s0.ino, Leaf(inum, j)) in freed
    ensures !ok ==> fs.LogFull()
  {
    hide InUse, Owned, CrashSafety.Ready, Word, Clearing, Noted;
    ok, freed := true, direct;
    var x := fs.ino[inum].addrs[NDIRECT];
    IndexUnchanged(fs.sb, s0, fs.log.view, inum, freed);
    var j := 0;
    while j < NINDIRECT
      invariant 0 <= j <= NINDIRECT && fs.Attached() && Clearing(fs.sb, s0, fs.log.view, inum, freed)
      invariant direct <= freed && fs.log.disk == old(fs.log.disk) && fs.log.view[x] == s0.v[x]
      invariant fs.log.outstanding == old(fs.log.outstanding) && Noted(fs.sb, s0, fs.log.lh, inum)
      invariant forall k: nat :: k < j && Ref(fs.sb, s0.v, s0.ino, Leaf(inum, k)) != 0 ==>
        Ref(fs.sb, s0.v, s0.ino, Leaf(inum, k)) in freed
      invariant forall b :: b in freed ==>
        b in s0.owner && !s0.owner[b].Index? && (s0.owner[b].Leaf? ==> s0.owner[b].j < j)
    {
      var b := Word(fs.log.view[x], j);
      if b != 0 {
        SlotOwner(fs.sb, s0, Leaf(inum, j));
        ok := FreeOwn(fs, inum, b, Leaf(inum, j), s0, freed);
        if !ok { return; }
        freed := freed + {b};
        IndexUnchanged(fs.sb, s0, fs.log.view, inum, freed);
      }
      j := j + 1;
    }
    SlotOwner(fs.sb, s0, Index(inum));
    ok := FreeOwn(fs, inum, x, Index(inum), s0, freed);
    if ok { freed := freed + {x}; }
  }

  lemma IndexUnchanged(sb: Super, s0: Snap, v: Disk, inum: nat, freed: set<nat>)
    requires Clearing(sb, s0, v, inum, freed) && s0.ino[inum].addrs[NDIRECT] != 0
    ensures v[s0.ino[inum].addrs[NDIRECT]] == s0.v[s0.ino[inum].addrs[NDIRECT]]
  {
    IndexIsOwned(sb, s0.v, s0.ino, s0.owner, inum);
  }

  /** All slots of the inode are empty and all its blocks have been freed. */
  lemma Emptied(sb: Super, s0: Snap, v: Disk, ino: seq<Inode>, inum: nat, freed: set<nat>)
    requires Clearing(sb, s0, v, inum, freed) && TableOk(sb, v, ino)
    requires forall n :: 0 <= n < sb.ninodes && n != inum ==> ino[n] == s0.ino[n]
    requires forall k :: 0 <= k <= NDIRECT ==> ino[inum].addrs[k] == 0
    requires forall t :: ValidSlot(sb, t) && t.inum == inum && Ref(sb, s0.v, s0.ino, t) != 0 ==>
      Ref(sb, s0.v, s0.ino, t) in freed
    ensures Owned(sb, v, ino, map c | c in s0.owner && s0.owner[c].inum != inum :: s0.owner[c])
    ensures forall t :: ValidSlot(sb, t) && t.inum != inum ==> Ref(sb, v, ino, t) == Ref(sb, s0.v, s0.ino, t)
  {
    hide InUse, Word;
    forall t | ValidSlot(sb, t)
      ensures Ref(sb, v, ino, t) == if t.inum == inum then 0 else Ref(sb, s0.v, s0.ino, t)
    {
      if t.Leaf? && t.inum != inum && s0.ino[t.inum].addrs[NDIRECT] != 0 {
        IndexIsOwned(sb, s0.v, s0.ino, s0.owner, t.inum);
      }
    }
    AllFreed(sb, s0, v, inum, freed);
    OwnedShrinks(sb, s0.v, s0.ino, s0.owner, v, ino, inum);
  }

  lemma AllFreed(sb: Super, s0: Snap, v: Disk, inum: nat, freed: set<nat>)
    requires Clearing(sb, s0, v, inum, freed)
    requires forall t :: ValidSlot(sb, t) && t.inum == inum && Ref(sb, s0.v, s0.ino, t) != 0 ==>
      Ref(sb, s0.v, s0.ino, t) in freed
    ensures forall c: nat :: c < sb.g.size ==>
      (InUse(sb, v, c) <==> InUse(sb, s0.v, c) && !(c in s0.owner && s0.owner[c].inum == inum))
  {
    hide InUse, Ref;
    forall c: nat | c in s0.owner && s0.owner[c].inum == inum ensures c in freed {
      assert Ref(sb, s0.v, s0.ino, s0.owner[c]) == c;
    }
  }

  /** Other files keep their bytes while this one is emptied. */
  lemma EmptiedOthers(sb: Super, s0: Snap, s: Snap, inum: nat, freed: set<nat>)
    requires Clearing(sb, s0, s.v, inum, freed) && Good(sb, s)
    requires forall n :: 0 <= n < sb.ninodes && n != inum ==> s.ino[n] == s0.ino[n]
    requires forall t :: ValidSlot(sb, t) && t.inum != inum ==> Ref(sb, s.v, s.ino, t) == Ref(sb, s0.v, s0.ino, t)
    ensures OnlyFile(sb, s0, s, inum)
  {
    hide InUse, Ref, FileBytes;
    forall n: nat | n < sb.ninodes && n != inum && FileOk(sb, s0.v, s0.ino, n)
      ensures FileOk(sb, s.v, s.ino, n) && Content(sb, s.v, s.ino, n) == Content(sb, s0.v, s0.ino, n)
    {
      forall bn | 0 <= bn < MAXFILE && bn * BSIZE < s0.ino[n].size
        ensures Ref(sb, s.v, s.ino, SlotOf(n, bn)) == Ref(sb, s0.v, s0.ino, SlotOf(n, bn))
        ensures s.v[Ref(sb, s0.v, s0.ino, SlotOf(n, bn))] == s0.v[Ref(sb, s0.v, s0.ino, SlotOf(n, bn))]
      {
        SlotOfValid(sb, n, bn);
      }
      BytesFrame(sb, s0.v, s0.ino, s.v, s.ino, n, s0.ino[n].size);
    }
  }

  /** After a completed itrunc. */
  ghost predicate TruncDone(sb: Super, s: Snap, s': Snap, inum: nat) {
    && Good(sb, s) && Good(sb, s') && inum < sb.ninodes
    && s'.ino[inum] == s.ino[inum].(size := 0, addrs := s'.ino[inum].addrs)
    && (forall t :: ValidSlot(sb, t) && t.inum == inum ==> Ref(sb, s'.v, s'.ino, t) == 0)
    && (forall c: nat :: c < sb.g.size ==>
          (InUse(sb, s'.v, c) <==> InUse(sb, s.v, c) && !(c in s.owner && s.owner[c].inum == inum)))
    && s'.owner == (map c | c in s.owner && s.owner[c].inum != inum :: s.owner[c])
    && (forall x: nat :: sb.dataStart <= x < sb.g.size ==> s'.v[x] == s.v[x])
    && OnlyFile(sb, s, s', inum)
    && (Synced(sb, s) ==> Synced(sb, s'))
  }

  /** The entries an itrunc can add: the bitmap blocks of the file's own blocks, and its inode block. */
  ghost function TruncBound(sb: Super, owner: map<nat, Slot>, inum: nat): nat {
    |BitmapBlocks(sb, Own(owner, inum))| + 1
  }

  lemma NotedCount(sb: Super, s0: Snap, lh: seq<Entry>, inum: nat)
    requires Noted(sb, s0, lh, inum) && CrashSafety.GoodLog(sb.g, s0.lh)
    ensures |lh| < |s0.lh| + TruncBound(sb, s0.owner, inum)
  {
    hide Names, BitmapBlocks;
    NamesCount(s0.lh);
    NamesCount(lh);
    Smaller(Names(lh), Names(s0.lh) + BitmapBlocks(sb, Own(s0.owner, inum)));
    UnionSize(Names(s0.lh), BitmapBlocks(sb, Own(s0.owner, inum)));
  }

  lemma NotedInode(sb: Super, s0: Snap, lh: seq<Entry>, lh': seq<Entry>, inum: nat)
    requires Noted(sb, s0, lh, inum) && CrashSafety.GoodLog(sb.g, s0.lh) && CrashSafety.GoodLog(sb.g, lh')
    requires Names(lh') == Names(lh) + {InodeBlock(sb, inum)}
    ensures |lh'| <= |s0.lh| + TruncBound(sb, s0.owner, inum)
  {
    hide Names, Noted;
    NotedCount(sb, s0, lh, inum);
    assert CrashSafety.GoodLog(sb.g, lh) by { NotedGood(sb, s0, lh, inum); }
    NamesCount(lh);
    NamesCount(lh');
    UnionSize(Names(lh), {InodeBlock(sb, inum)});
  }

  lemma NotedGood(sb: Super, s0: Snap, lh: seq<Entry>, inum: nat)
    requires Noted(sb, s0, lh, inum)
    ensures CrashSafety.GoodLog(sb.g, lh)
  {}

  /** Every slot of the inode emptied, its blocks freed, its size set to 0 in memory. */
  method FreeAll(fs: FS.FileSystem, inum: nat, ghost s0: Snap) returns (ok: bool, ghost freed: set<nat>)
    requires fs.Valid() && inum < fs.sb.ninodes && s0 == fs.Now()
    modifies fs, fs.log
    ensures |fs.log.view| == fs.sb.g.size && fs.log.disk == old(fs.log.disk)
    ensures fs.log.outstanding == old(fs.log.outstanding)
    ensures Noted(fs.sb, s0, fs.log.lh, inum)
    ensures ok ==> fs.Valid() && Clearing(fs.sb, s0, fs.log.view, inum, freed)
    ensures ok ==> fs.ino == s0.ino[inum := s0.ino[inum].(size := 0, addrs := fs.ino[inum].addrs)]
    ensures ok ==> forall k :: 0 <= k <= NDIRECT ==> fs.ino[inum].addrs[k] == 0
    ensures ok ==> forall t :: ValidSlot(fs.sb, t) && t.inum != inum ==>
      Ref(fs.sb, fs.log.view, fs.ino, t) == Ref(fs.sb, s0.v, s0.ino, t)
    ensures ok ==> forall t :: ValidSlot(fs.sb, t) && t.inum == inum && Ref(fs.sb, s0.v, s0.ino, t) != 0 ==>
      Ref(fs.sb, s0.v, s0.ino, t) in freed
    ensures ok ==> fs.owner == map c | c in s0.owner && s0.owner[c].inum != inum :: s0.owner[c]
    ensures !ok ==> fs.LogFull()
  {
    hide InUse, Owned, CrashSafety.Ready, Word, Clearing, Ref, Noted;
    ok, freed := FreeDirect(fs, inum, s0);
    if !ok { return; }
    if fs.ino[inum].addrs[NDIRECT] != 0 {
      ok, freed := FreeIndirect(fs, inum, s0, freed);
      if !ok { return; }
      fs.ino := fs.ino[inum := fs.ino[inum].(addrs := fs.ino[inum].addrs[NDIRECT := 0])];
    }
    fs.ino := fs.ino[inum := fs.ino[inum].(size := 0)];
    SlotsFreed(fs.sb, s0, inum, freed);
    Emptied(fs.sb, s0, fs.log.view, fs.ino, inum, freed);
    fs.owner := map c | c in s0.owner && s0.owner[c].inum != inum :: s0.owner[c];
  }

  /** itrunc; ok is false where the kernel panics, which only a log too full for its entries can cause. */
  method Itrunc(fs: FS.FileSystem, inum: nat) returns (ok: bool)
    requires fs.Valid() && inum < fs.sb.ninodes
    modifies fs, fs.log
    ensures |fs.log.view| == fs.sb.g.size && fs.log.disk == old(fs.log.disk)
    ensures fs.log.outstanding == old(fs.log.outstanding)
    ensures ok ==> fs.Valid() && TruncDone(fs.sb, old(fs.Now()), fs.Now(), inum)
    ensures |fs.log.lh| <= |old(fs.log.lh)| + TruncBound(fs.sb, old(fs.owner), inum)
    ensures !ok ==>
      || |old(fs.log.lh)| + TruncBound(fs.sb, old(fs.owner), inum) > Min(LOGSIZE, fs.sb.g.nlog - 1)
      || fs.log.outstanding < 1
  {
    hide InUse, Owned, CrashSafety.Covered, CrashSafety.Cleared, CrashSafety.GoodLog, Word, Clearing, TruncDone, Ref,
      Names, Dinode, SuperOk, Noted, TruncBound;
    ghost var s0 := fs.Now();
    ghost var freed;
    ok, freed := FreeAll(fs, inum, s0);
    ghost var s1 := fs.Now();
    NotedCount(fs.sb, s0, s1.lh, inum);
    if !ok { return; }
    ok := fs.Iupdate(inum);
    if ok {
      TruncFinish(fs.sb, s0, s1, fs.Now(), inum, freed);
      NotedInode(fs.sb, s0, s1.lh, fs.log.lh, inum);
    }
  }

  lemma SlotsFreed(sb: Super, s0: Snap, inum: nat, freed: set<nat>)
    requires Good(sb, s0) && inum < sb.ninodes
    requires forall k :: 0 <= k < NDIRECT && s0.ino[inum].addrs[k] != 0 ==> s0.ino[inum].addrs[k] in freed
    requires s0.ino[inum].addrs[NDIRECT] != 0 ==> s0.ino[inum].addrs[NDIRECT] in freed
    requires s0.ino[inum].addrs[NDIRECT] != 0 ==>
      forall j: nat :: j < NINDIRECT && Ref(sb, s0.v, s0.ino, Leaf(inum, j)) != 0 ==>
        Ref(sb, s0.v, s0.ino, Leaf(inum, j)) in freed
    ensures forall t :: ValidSlot(sb, t) && t.inum == inum && Ref(sb, s0.v, s0.ino, t) != 0 ==>
      Ref(sb, s0.v, s0.ino, t) in freed
  {
    hide Owned, Word;
  }

  lemma TruncFinish(sb: Super, s0: Snap, s1: Snap, s2: Snap, inum: nat, freed: set<nat>)
    requires Good(sb, s0) && inum < sb.ninodes && Clearing(sb, s0, s1.v, inum, freed) && Good(sb, s1) && Good(sb, s2)
    requires s1.ino == s0.ino[inum := s0.ino[inum].(size := 0, addrs := s1.ino[inum].addrs)]
    requires forall k :: 0 <= k <= NDIRECT ==> s1.ino[inum].addrs[k] == 0
    requires forall t :: ValidSlot(sb, t) && t.inum != inum ==> Ref(sb, s1.v, s1.ino, t) == Ref(sb, s0.v, s0.ino, t)
    requires forall t :: ValidSlot(sb, t) && t.inum == inum && Ref(sb, s0.v, s0.ino, t) != 0 ==>
      Ref(sb, s0.v, s0.ino, t) in freed
    requires s2.ino == s1.ino
    requires s2.owner == s1.owner == map c | c in s0.owner && s0.owner[c].inum != inum :: s0.owner[c]
    requires forall x: nat :: sb.bmapstart <= x < sb.g.size ==> s2.v[x] == s1.v[x]
    requires forall n: nat :: n < sb.ninodes ==>
      Dinode(sb, s2.v, n) == if n == inum then s1.ino[inum] else Dinode(sb, s1.v, n)
    ensures TruncDone(sb, s0, s2, inum)
  {
    hide InUse, Word, Dinode, Owned, FileBytes, Clearing, OnlyFile;
    EmptiedOthers(sb, s0, s1, inum, freed);
    AllFreed(sb, s0, s1.v, inum, freed);
    IupdateKeeps(sb, s1, s2, inum);
    OnlyFileTrans(sb, s0, s1, s2, inum);
    ClearingData(sb, s0, s1.v, inum, freed);
    forall c: nat | c < sb.g.size ensures InUse(sb, s2.v, c) == InUse(sb, s1.v, c) {
      SameBitmap(sb, s1.v, s2.v, c);
    }
    if Synced(sb, s0) {
      forall n: nat | n < sb.ninodes ensures Dinode(sb, s2.v, n) == s2.ino[n] {
        ClearingDinode(sb, s0, s1.v, inum, freed, n);
      }
    }
  }

  lemma ClearingData(sb: Super, s0: Snap, v: Disk, inum: nat, freed: set<nat>)
    requires Clearing(sb, s0, v, inum, freed)
    ensures forall x: nat :: sb.dataStart <= x < sb.g.size ==> v[x] == s0.v[x]
  {}

  lemma ClearingDinode(sb: Super, s0: Snap, v: Disk, inum: nat, freed: set<nat>, n: nat)
    requires Clearing(sb, s0, v, inum, freed) && n < sb.ninodes
    ensures Dinode(sb, v, n) == Dinode(sb, s0.v, n)
  {
    hide InUse, Owned, GetInode;
    InodeBlockHome(sb, n);
  }
}

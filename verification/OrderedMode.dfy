/** What a crash during a commit leaves of the file system, and filewrite, which
    commits a long write chunk by chunk. */
module OrderedMode {
  import opened Basics
  import opened Blocks
  import opened LogHeader
  import opened FsLayout
  import opened FsOwner
  import opened CrashSafety
  import FS = FileSystem
  import opened FileSystem
  import opened FileContents
  import opened FileIo

  /** The log region plays no part in the file system: equal home blocks mean the
      same owners, the same inodes and the same files. */
  lemma HomeKeeps(sb: Super, s: Snap, v': Disk)
    requires Good(sb, s) && |v'| == |s.v| && HomeEqual(sb.g, v', s.v)
    ensures Good(sb, s.(v := v'))
    ensures forall n: nat :: n < sb.ninodes ==> Dinode(sb, v', n) == Dinode(sb, s.v, n)
    ensures forall n: nat :: n < sb.ninodes && FileOk(sb, s.v, s.ino, n) ==>
      FileOk(sb, v', s.ino, n) && Content(sb, v', s.ino, n) == Content(sb, s.v, s.ino, n)
  {
    hide Ref, InUse, FileBytes, GetInode;
    DataIsNotInode(sb, s.v, s.ino, s.owner);
    OwnedFrame(sb, s.v, s.ino, s.owner, v');
    forall n: nat | n < sb.ninodes ensures Dinode(sb, v', n) == Dinode(sb, s.v, n) {
      InodeBlockHome(sb, n);
    }
    forall n: nat | n < sb.ninodes && FileOk(sb, s.v, s.ino, n)
      ensures FileOk(sb, v', s.ino, n) && Content(sb, v', s.ino, n) == Content(sb, s.v, s.ino, n)
    {
      forall bn | 0 <= bn < MAXFILE && bn * BSIZE < s.ino[n].size
        ensures Ref(sb, v', s.ino, SlotOf(n, bn)) == Ref(sb, s.v, s.ino, SlotOf(n, bn))
        ensures v'[Ref(sb, s.v, s.ino, SlotOf(n, bn))] == s.v[Ref(sb, s.v, s.ino, SlotOf(n, bn))]
      {
        SlotOfValid(sb, n, bn);
      }
      BytesFrame(sb, s.v, s.ino, v', s.ino, n, s.ino[n].size);
    }
  }

  /** A volume that recovered from a crash during commit: either nothing of the
      transaction happened, or all inodes and all files are as they were cached. */
  lemma RecoveredVolume(sb: Super, d: Disk, s: Snap, tr: seq<Io>, k: nat, boots: seq<Disk>, final: Disk)
    requires Good(sb, s) && Synced(sb, s) && Ready(sb.g, d, s.v, s.lh)
    requires CommitTrace(sb.g, s.v, s.lh, tr) && k <= |tr|
    requires RecoveryChain(sb.g, boots) && boots[0] == ApplyAll(d, tr[..k])
    requires FullRecovery(sb.g, boots[|boots| - 1], final)
    ensures |final| == sb.g.size
    ensures k <= |s.lh| + 1 ==> forall n: nat :: n < sb.ninodes ==> Dinode(sb, final, n) == Dinode(sb, d, n)
    ensures k > |s.lh| + 1 ==> Good(sb, s.(v := final)) && Synced(sb, s.(v := final))
    ensures k > |s.lh| + 1 ==> forall n: nat :: n < sb.ninodes && FileOk(sb, s.v, s.ino, n) ==>
      FileOk(sb, final, s.ino, n) && Content(sb, final, s.ino, n) == Content(sb, s.v, s.ino, n)
  {
    assert |d| == sb.g.size;
    hide Owned, Ready, CommitTrace, RecoveryChain, FullRecovery, FileOk, Content, Cleared, GetInode, PartialRecovery;
    CrashAtomic(sb.g, d, s.v, s.lh, tr, k, boots, final);
    if k <= |s.lh| + 1 {
      forall n: nat | n < sb.ninodes ensures Dinode(sb, final, n) == Dinode(sb, d, n) {
        InodeBlockHome(sb, n);
      }
    } else {
      HomeKeeps(sb, s, final);
    }
  }

  // ----- filewrite

  /** The most bytes filewrite hands to one call of writei. */
  const CHUNK: nat := (MAXOPBLOCKS - 1 - 1 - 2) / 2 * 512

  /** For every value of MAXOPBLOCKS, a chunk fits the budget of one operation. */
  lemma ChunkFits(maxOpBlocks: nat, n: nat)
    requires maxOpBlocks >= 4 && n <= (maxOpBlocks - 1 - 1 - 2) / 2 * BSIZE
    ensures EntryBound(T_FILE, n) < maxOpBlocks
  {
    var h := (maxOpBlocks - 4) / 2;
    assert (n + BSIZE - 1) / BSIZE <= h by {
      assert n + BSIZE - 1 < (h + 1) * BSIZE;
    }
  }

  /** No longer chunk would be sure to stay below it. */
  lemma ChunkIsLargest(maxOpBlocks: nat)
    requires maxOpBlocks >= 4
    ensures EntryBound(T_FILE, (maxOpBlocks - 1 - 1 - 2) / 2 * BSIZE + 1) >= maxOpBlocks
    ensures CHUNK == 1536
  {
    var h := (maxOpBlocks - 4) / 2;
    assert (h * BSIZE + 1 + BSIZE - 1) / BSIZE == h + 1;
  }

  /** No transaction open, everything committed, inodes written back. */
  ghost predicate Settled(fs: FS.FileSystem)
    reads fs, fs.log, fs.log.table
  {
    && fs.Valid() && fs.log.outstanding == 0 && fs.log.lh == []
    && Synced(fs.sb, fs.Now()) && HomeEqual(fs.sb.g, fs.log.disk, fs.log.view)
  }

  /** begin_op lets one more operation in. */
  ghost predicate Admits(lh: seq<Entry>, outstanding: nat) { |lh| + (outstanding + 1) * MAXOPBLOCKS <= LOGSIZE }

  /** One turn of filewrite's loop: begin_op, writei, end_op.  entries counts what it added to the
      header.  Not admitted, the process sleeps in begin_op and nothing has happened. */
  method WriteChunk(fs: FS.FileSystem, inum: nat, src: seq<bv8>, off: nat)
      returns (admitted: bool, r: Option<nat>, ok: bool, ghost entries: nat)
    requires fs.Valid() && inum < fs.sb.ninodes && FileOk(fs.sb, fs.log.view, fs.ino, inum)
    requires fs.ino[inum].typ == T_FILE && off < MAX_UINT && |src| <= CHUNK
    modifies fs, fs.log
    ensures |fs.log.view| == fs.sb.g.size && (admitted <==> Admits(old(fs.log.lh), old(fs.log.outstanding)))
    ensures !admitted ==> ok && fs.Valid() && fs.Now() == old(fs.Now()) && fs.log.disk == old(fs.log.disk)
    ensures ok ==> fs.Valid() && fs.log.outstanding == old(fs.log.outstanding)
    ensures admitted && ok ==> entries < MAXOPBLOCKS
    ensures admitted && ok && fs.log.outstanding > 0 ==> |fs.log.lh| <= |old(fs.log.lh)| + entries
    ensures admitted && ok && fs.log.outstanding == 0 ==>
      fs.log.lh == [] && HomeEqual(fs.sb.g, fs.log.disk, fs.log.view)
    ensures admitted && ok ==> (r.None? <==> TooFar(old(fs.ino[inum].size), off, |src|))
    ensures admitted && ok && r.None? ==>
      fs.ino == old(fs.ino) && WriteDone(fs.sb, old(fs.Now()), fs.Now(), inum, [], 0)
    ensures admitted && ok && r.Some? ==> r.value == |src| && WriteDone(fs.sb, old(fs.Now()), fs.Now(), inum, src, off)
    ensures admitted && ok && r.Some? ==> Took(fs.sb, old(fs.Now()), fs.Now(), inum, off, |src|)
    ensures !ok ==> ChunkFailed(fs.sb, old(fs.Now()), |src|)
  {
    hide Owned, Ready, FileOk, WriteDone, Dinode, OnlyFile, FileBytes, Names, EntryBound, InPlace, Took, FreeBlocks;
    ghost var s0 := fs.Now();
    entries, r, ok := 0, None, true;
    admitted := fs.log.BeginOp();
    if !admitted { return; }
    ChunkFits(MAXOPBLOCKS, |src|);
    ghost var passed;
    r, ok, passed := Writei(fs, inum, src, off);
    if !ok { return; }
    ghost var s1 := fs.Now();
    entries := if |s1.lh| <= |s0.lh| then 0 else |s1.lh| - |s0.lh|;
    fs.log.EndOp();
    CommitKeeps(fs.sb, s0, s1, fs.Now(), inum, src, off, r);
    if r.Some? { TookHome(fs.sb, s0, s1, fs.Now(), inum, off, |src|); }
  }

  lemma TookHome(sb: Super, s0: Snap, s1: Snap, s2: Snap, inum: nat, off: nat, n: nat)
    requires Good(sb, s0) && Good(sb, s1) && Took(sb, s0, s1, inum, off, n)
    requires s2.owner == s1.owner && |s2.v| == |s1.v| && HomeEqual(sb.g, s2.v, s1.v)
    ensures Took(sb, s0, s2, inum, off, n)
  {
    hide Took, InUse, Ref;
    DataIsNotInode(sb, s1.v, s1.ino, s1.owner);
    TookSame(sb, s0, s1, s2, inum, off, n);
  }

  /** writei's checks refuse the range. */
  predicate TooFar(size: nat, off: nat, n: nat) { off > size || off + n >= MAX_UINT || off + n > MAXFILE * BSIZE }

  /** Why a chunk panics: hardly a free block is left, or the log region is too small for the budget. */
  ghost predicate ChunkFailed(sb: Super, s: Snap, n: nat) {
    Good(sb, s) && (|FreeBlocks(sb, s.v)| <= BlockCount(n) || |s.lh| + MAXOPBLOCKS > sb.g.nlog)
  }

  lemma CommitKeeps(sb: Super, s0: Snap, s1: Snap, s2: Snap, inum: nat, src: seq<bv8>, off: nat, r: Option<nat>)
    requires Good(sb, s0) && Good(sb, s1) && inum < sb.ninodes
    requires |s2.v| == |s1.v| && HomeEqual(sb.g, s2.v, s1.v) && s2.ino == s1.ino && s2.owner == s1.owner
    requires FileOk(sb, s0.v, s0.ino, inum)
    requires r.None? ==> s1 == s0
    requires r.Some? ==> WriteDone(sb, s0, s1, inum, src, off)
    ensures Good(sb, s2) && (Synced(sb, s0) ==> Synced(sb, s2))
    ensures r.None? ==> WriteDone(sb, s0, s2, inum, [], 0)
    ensures r.Some? ==> WriteDone(sb, s0, s2, inum, src, off)
  {
    hide Owned, Dinode, FileBytes, Mapped, Written;
    HomeKeeps(sb, s1, s2.v);
    assert s1.(v := s2.v).v == s2.v && s1.(v := s2.v).ino == s2.ino && s1.(v := s2.v).owner == s2.owner;
  }

  /** Two writes in a row, the second where the first ended. */
  lemma WriteDoneTrans(sb: Super, s0: Snap, s1: Snap, s2: Snap, inum: nat, a: seq<bv8>, b: seq<bv8>, off: nat)
    requires WriteDone(sb, s0, s1, inum, a, off) && WriteDone(sb, s1, s2, inum, b, off + |a|)
    ensures WriteDone(sb, s0, s2, inum, a + b, off)
  {
    hide Owned, Dinode, FileBytes, Mapped, Written, OnlyFile;
    WrittenTwice(Content(sb, s0.v, s0.ino, inum), off, a, b);
    OnlyFileTrans(sb, s0, s1, s2, inum);
  }

  /** A write of nothing is a write of nothing anywhere. */
  lemma WriteNothing(sb: Super, s0: Snap, s1: Snap, s2: Snap, inum: nat, a: seq<bv8>, off: nat)
    requires WriteDone(sb, s0, s1, inum, a, off) && WriteDone(sb, s1, s2, inum, [], 0) && s2.ino == s1.ino
    ensures WriteDone(sb, s0, s2, inum, a, off)
  {
    hide Owned, Dinode, FileBytes, Mapped, OnlyFile;
    var c := Content(sb, s1.v, s1.ino, inum);
    assert Written(c, 0, []) == c;
    OnlyFileTrans(sb, s0, s1, s2, inum);
  }

  lemma WriteStart(sb: Super, s: Snap, inum: nat, off: nat)
    requires Good(sb, s) && inum < sb.ninodes && FileOk(sb, s.v, s.ino, inum) && off <= s.ino[inum].size
    ensures WriteDone(sb, s, s, inum, [], off)
  {
    hide Owned, Dinode, FileBytes, Mapped;
    var c := Content(sb, s.v, s.ino, inum);
    assert Written(c, off, []) == c;
  }

  /** filewrite on a regular file, up to the first begin_op that has to wait: None is the source's -1.
      done counts the bytes that were written, whatever is returned; at is the state before the last
      chunk, if that one panicked. */
  method Filewrite(fs: FS.FileSystem, inum: nat, src: seq<bv8>, off: nat)
      returns (r: Option<nat>, newOff: nat, waits: bool, ok: bool, ghost done: nat, ghost at: Snap)
    requires fs.Valid() && inum < fs.sb.ninodes && FileOk(fs.sb, fs.log.view, fs.ino, inum)
    requires fs.ino[inum].typ == T_FILE && off <= fs.ino[inum].size
    modifies fs, fs.log
    ensures |fs.log.view| == fs.sb.g.size && done <= |src|
    ensures ok ==> fs.Valid() && fs.log.outstanding == old(fs.log.outstanding) && newOff == off + done
    ensures ok ==> WriteDone(fs.sb, old(fs.Now()), fs.Now(), inum, src[..done], off)
    ensures ok && !waits ==> r == if done == |src| then Some(|src|) else None
    ensures ok && !waits && done < |src| ==>
      off + done + (if |src| - done < CHUNK then |src| - done else CHUNK) > MAXFILE * BSIZE
    ensures ok && waits ==> done < |src| && !Admits(fs.log.lh, fs.log.outstanding)
    ensures ok && old(Settled(fs)) ==> Settled(fs) && !waits
    ensures !ok ==> WriteDone(fs.sb, old(fs.Now()), at, inum, src[..done], off)
    ensures !ok ==> ChunkFailed(fs.sb, at, Min(|src| - done, CHUNK)) && (old(Settled(fs)) ==> at.lh == [])
  {
    hide Owned, Ready, FileOk, WriteDone, Dinode, OnlyFile, FileBytes, Names, ChunkFailed;
    ghost var s0 := fs.Now();
    r, waits, ok, newOff, done, at := None, false, true, off, 0, s0;
    WriteStart(fs.sb, s0, inum, off);
    assert src[..0] == [];
    var i := 0;
    while i < |src|
      invariant 0 <= i <= |src| && done == i && newOff == off + i && fs.Valid()
      invariant fs.log.outstanding == old(fs.log.outstanding)
      invariant WriteDone(fs.sb, s0, fs.Now(), inum, src[..i], off)
      invariant ok && r.None? && !waits && (old(Settled(fs)) ==> Settled(fs))
    {
      var n1 := |src| - i;
      if n1 > CHUNK { n1 := CHUNK; }
      ghost var s1 := fs.Now();
      at := s1;
      WriteDoneFacts(fs.sb, s0, s1, inum, src[..i], off);
      var w, admitted;
      ghost var entries;
      admitted, w, ok, entries := WriteChunk(fs, inum, src[i..i + n1], newOff);
      if !ok { return; }
      if !admitted { waits := true; return; }
      if w.None? {
        WriteNothing(fs.sb, s0, s1, fs.Now(), inum, src[..i], off);
        SettledAgain(fs.sb, s1, fs.Now(), inum, [], 0);
        return;
      }
      WriteDoneTrans(fs.sb, s0, s1, fs.Now(), inum, src[..i], src[i..i + n1], off);
      SettledAgain(fs.sb, s1, fs.Now(), inum, src[i..i + n1], newOff);
      assert src[..i] + src[i..i + n1] == src[..i + n1];
      newOff := newOff + n1;
      i := i + n1;
      done := i;
    }
    r := Some(|src|);
  }

  lemma SettledAgain(sb: Super, s: Snap, s': Snap, inum: nat, src: seq<bv8>, off: nat)
    requires WriteDone(sb, s, s', inum, src, off)
    ensures Good(sb, s) && Good(sb, s') && (Synced(sb, s) ==> Synced(sb, s'))
  {
    hide Owned, Dinode, OnlyFile, FileBytes, Written;
  }

  lemma WriteDoneFacts(sb: Super, s: Snap, s': Snap, inum: nat, src: seq<bv8>, off: nat)
    requires WriteDone(sb, s, s', inum, src, off)
    ensures FileOk(sb, s'.v, s'.ino, inum) && s'.ino[inum].typ == s.ino[inum].typ
    ensures off + |src| <= s'.ino[inum].size <= MAXFILE * BSIZE
  {
    hide Owned, Dinode, OnlyFile, FileBytes;
  }
}

/** Runs in which a block that was freed is reused at once for file data: a crash then gives a
    committed file other data, or makes file data into block numbers. */
module Reuse {
  import opened Basics
  import opened Blocks
  import opened LogHeader
  import opened FsLayout
  import opened FsOwner
  import opened CrashSafety
  import FS = FileSystem
  import opened FileSystem
  import opened FileContents
  import opened FileIo
  import opened Truncate
  import opened OrderedMode
  import opened Journal
  import opened Transaction

  /** Block x of file a is lower than its other blocks, and no block below it is free; b is empty. */
  ghost predicate Ripe(sb: Super, s0: Snap, a: nat, b: nat, x: nat) {
    && Good(sb, s0) && a < sb.ninodes && b < sb.ninodes && a != b && s0.ino[b].typ == T_FILE
    && x in s0.owner && s0.owner[x].inum == a && x < sb.g.size
    && (forall c: nat :: c < x ==> InUse(sb, s0.v, c) && !(c in s0.owner && s0.owner[c].inum == a))
    && s0.ino[b].size == 0 && (forall k :: 0 <= k <= NDIRECT ==> s0.ino[b].addrs[k] == 0)
  }

  lemma EmptyHasNothing(sb: Super, s: Snap, b: nat, y: nat)
    requires Good(sb, s) && b < sb.ninodes && (forall k :: 0 <= k <= NDIRECT ==> s.ino[b].addrs[k] == 0) && y in s.owner
    ensures s.owner[y].inum != b
  {
    hide InUse, Word;
    assert ValidSlot(sb, s.owner[y]) && Ref(sb, s.v, s.ino, s.owner[y]) == y && IsData(sb, y);
  }

  /** A one-block write to an empty file takes one block. */
  lemma TakesOne(sb: Super, s1: Snap, s2: Snap, b: nat, src: seq<bv8>) returns (y: nat)
    requires Good(sb, s1) && Good(sb, s2) && b < sb.ninodes && |src| == BSIZE
    requires WriteDone(sb, s1, s2, b, src, 0) && Took(sb, s1, s2, b, 0, BSIZE)
    requires s1.ino[b].size == 0 && (forall k :: 0 <= k <= NDIRECT ==> s1.ino[b].addrs[k] == 0)
    ensures s2.owner.Keys - s1.owner.Keys == {y} && s2.owner[y] == Direct(b, 0) && !InUse(sb, s1.v, y)
    ensures y == Ref(sb, s2.v, s2.ino, SlotOf(b, 0)) && y < |s2.v| && IsData(sb, y)
  {
    hide InUse, FileBytes, Word, Synced, Lowest, OnlyFile;
    SlotOfValid(sb, b, 0);
    y := Ref(sb, s2.v, s2.ino, SlotOf(b, 0));
    assert s2.ino[b].size == BSIZE && y != 0;
    if y in s1.owner { EmptyHasNothing(sb, s1, b, y); assert false; }
    hide Ref;
    forall z | z in s2.owner && z !in s1.owner ensures z == y { OneBlock(sb, s2, b, z); }
  }

  lemma Freed(sb: Super, s0: Snap, s1: Snap, a: nat, b: nat, x: nat)
    requires Ripe(sb, s0, a, b, x) && TruncDone(sb, s0, s1, a)
    ensures Good(sb, s1) && s1.ino[b] == s0.ino[b] && x < sb.g.size && x !in s1.owner
    ensures !InUse(sb, s1.v, x)
    ensures forall c: nat :: c < x ==> InUse(sb, s1.v, c)
  {
    hide InUse, Ref, FileBytes, Synced;
  }

  lemma WriteGood(sb: Super, s1: Snap, s2: Snap, b: nat, src: seq<bv8>)
    requires WriteDone(sb, s1, s2, b, src, 0)
    ensures Good(sb, s1) && Good(sb, s2) && b < sb.ninodes
  {
    hide Owned, FileBytes, Mapped, Written, Synced, OnlyFile;
  }

  /** The first block of b is the block that a gave up. */
  lemma TakesIt(sb: Super, s0: Snap, s1: Snap, s2: Snap, a: nat, b: nat, x: nat, src: seq<bv8>)
    requires Ripe(sb, s0, a, b, x) && TruncDone(sb, s0, s1, a) && |src| == BSIZE
    requires WriteDone(sb, s1, s2, b, src, 0) && Took(sb, s1, s2, b, 0, BSIZE)
    ensures x !in s1.owner && s2.owner.Keys - s1.owner.Keys == {x} && s2.owner[x] == Direct(b, 0)
    ensures Ref(sb, s2.v, s2.ino, SlotOf(b, 0)) == x && x < |s2.v|
  {
    hide InUse, TruncDone, Ref, WriteDone, Owned, Ripe;
    RipeFile(sb, s0, a, b, x);
    RipeEmpty(sb, s0, a, b, x);
    Freed(sb, s0, s1, a, b, x);
    WriteGood(sb, s1, s2, b, src);
    var y := TakesOne(sb, s1, s2, b, src);
    assert Lowest(sb, s1.v, {y});
  }

  lemma OneBlock(sb: Super, s2: Snap, b: nat, z: nat)
    requires Good(sb, s2) && b < sb.ninodes && z in s2.owner && SlotFor(s2.owner[z], b, 0, BSIZE)
    ensures z == Ref(sb, s2.v, s2.ino, SlotOf(b, 0))
  {
    hide InUse, Ref;
    assert s2.owner[z] == SlotOf(b, 0);
  }

  lemma TwoFree(sb: Super, s0: Snap, s1: Snap, a: nat, b: nat, x: nat)
    requires Ripe(sb, s0, a, b, x) && TruncDone(sb, s0, s1, a) && FreeBlocks(sb, s0.v) != {}
    ensures Good(sb, s1) && |FreeBlocks(sb, s1.v)| >= 2
  {
    hide InUse, Ref, FileBytes, Synced, OnlyFile;
    var y :| y in FreeBlocks(sb, s0.v);
    assert !InUse(sb, s1.v, y) && !InUse(sb, s1.v, x) && InUse(sb, s0.v, x);
    Smaller({x, y}, FreeBlocks(sb, s1.v));
  }

  /** On the disk only block x has changed, and it holds what was written to b. */
  lemma OnlyThatBlock(sb: Super, s0: Snap, d: Disk, s1: Snap, s2: Snap, d2: Disk, a: nat, b: nat, x: nat, src: Block)
    requires Ripe(sb, s0, a, b, x) && TruncDone(sb, s0, s1, a) && |d| == sb.g.size && HomeEqual(sb.g, d, s0.v)
    requires WriteDone(sb, s1, s2, b, src, 0) && Took(sb, s1, s2, b, 0, BSIZE) && InPlace(s1, d, s2, d2, b)
    ensures |d2| == sb.g.size && x < sb.g.size && d2[x] == src
    ensures forall y: nat :: IsHome(sb.g, y) && y != x ==> d2[y] == s0.v[y]
  {
    hide InUse, Ref, TruncDone, WriteDone, Owned, Took, HomeEqual, InPlace, Ripe;
    RipeFile(sb, s0, a, b, x);
    Freed(sb, s0, s1, a, b, x);
    RipeEmpty(sb, s0, a, b, x);
    TakesIt(sb, s0, s1, s2, a, b, x, src);
    FirstBlock(sb, s1, s2, b, x, src);
    NewOnDisk(s1, d, s2, d2, b, x);
    forall y: nat | IsHome(sb.g, y) && y != x ensures d2[y] == s0.v[y] {
      HomeAt(sb.g, d, s0.v, y);
      OtherBlock(sb, s1, d, s2, d2, b, x, y);
    }
  }

  lemma RipeEmpty(sb: Super, s: Snap, a: nat, b: nat, x: nat)
    requires Ripe(sb, s, a, b, x)
    ensures Good(sb, s) && forall k :: 0 <= k <= NDIRECT ==> s.ino[b].addrs[k] == 0
  {
    hide Owned;
  }

  lemma NewOnDisk(s1: Snap, d: Disk, s2: Snap, d2: Disk, b: nat, x: nat)
    requires InPlace(s1, d, s2, d2, b) && x in s2.owner && x !in s1.owner && !s2.owner[x].Index? && x < |s2.v|
    ensures |d2| == |d| == |s2.v| && d2[x] == s2.v[x]
  {}

  lemma OtherBlock(sb: Super, s1: Snap, d: Disk, s2: Snap, d2: Disk, b: nat, x: nat, y: nat)
    requires Good(sb, s1) && Took(sb, s1, s2, b, 0, BSIZE) && InPlace(s1, d, s2, d2, b) && b < sb.ninodes
    requires (forall k :: 0 <= k <= NDIRECT ==> s1.ino[b].addrs[k] == 0) && s2.owner.Keys - s1.owner.Keys == {x}
    requires y < |d| && y != x
    ensures y < |d2| && d2[y] == d[y]
  {
    hide Owned, Lowest;
    if d2[y] != d[y] {
      assert FileBlock(s2.owner, b, y) && (y in s1.owner || y in s2.owner.Keys - s1.owner.Keys);
      EmptyHasNothing(sb, s1, b, y);
      assert false;
    }
  }

  lemma HomeAt(g: Geometry, x: Disk, y: Disk, b: nat)
    requires |x| == |y| == g.size && HomeEqual(g, x, y) && IsHome(g, b)
    ensures x[b] == y[b]
  {}

  lemma FirstBlock(sb: Super, s1: Snap, s2: Snap, b: nat, x: nat, src: Block)
    requires WriteDone(sb, s1, s2, b, src, 0) && s1.ino[b].size == 0 && x == Ref(sb, s2.v, s2.ino, SlotOf(b, 0))
    requires x < |s2.v|
    ensures s2.v[x] == src
  {
    hide Ref, Owned, OnlyFile, Synced;
    var c := Content(sb, s2.v, s2.ino, b);
    assert c == Written([], 0, src);
    forall j | 0 <= j < BSIZE ensures s2.v[x][j] == src[j] { assert c[j] == src[j]; }
  }

  /** A boot on a disk with a cleared header reads every home block as it is. */
  lemma RebootHome(g: Geometry, d: Disk, tr: seq<Io>)
    requires GeometryOk(g) && |d| == g.size && Cleared(g, d) && RecoverTrace(g, d, tr)
    ensures |ApplyAll(d, tr)| == g.size && HomeEqual(g, ApplyAll(d, tr), d)
  {
    hide Cleared, RecoverTrace;
    RecoverCleared(g, d, d, tr, |tr|);
    assert tr[..|tr|] == tr;
  }

  lemma ClearedReplays(g: Geometry, d: Disk)
    requires GeometryOk(g) && |d| == g.size && Cleared(g, d)
    ensures Replayable(g, d)
  {}

  /** One operation truncates a and writes a block to b; then the machine stops, before anything is
      committed, and boots again.  The boot finds block x, a's at the last commit, with b's data. */
  method TruncateWriteCrash(fs: FS.FileSystem, a: nat, b: nat, ghost x: nat, src: Block) returns (booted: Log)
    requires Settled(fs) && Ripe(fs.sb, fs.Now(), a, b, x) && FreeBlocks(fs.sb, fs.log.view) != {}
    requires TruncBound(fs.sb, fs.owner, a) + EntryBound(T_FILE, BSIZE) <= Min(LOGSIZE, fs.sb.g.nlog - 1)
    modifies fs, fs.log
    ensures fresh(booted) && booted.Quiet() && booted.g == fs.sb.g && |booted.view| == fs.sb.g.size && x < fs.sb.g.size
    ensures booted.view[x] == src
    ensures forall y: nat :: IsHome(fs.sb.g, y) && y != x ==> booted.view[y] == old(fs.log.view)[y]
  {
    hide Owned, Ripe, TruncDone, WriteDone, Took, InPlace, TruncBound, EntryBound, FreeBlocks, Synced, HomeEqual,
      Covered, Cleared, GoodLog, RecoverTrace, Replayable, ApplyAll;
    ghost var s0, d0 := fs.Now(), fs.log.disk;
    RipeFile(fs.sb, s0, a, b, x);
    var admitted := fs.log.BeginOp();
    var ok := Itrunc(fs, a);
    ghost var s1 := fs.Now();
    TwoFree(fs.sb, s0, s1, a, b, x);
    Freed(fs.sb, s0, s1, a, b, x);
    EmptyOk(fs.sb, s1, b);
    var r;
    ghost var passed;
    r, ok, passed := Writei(fs, b, src, 0);
    OnlyThatBlock(fs.sb, s0, d0, s1, fs.Now(), fs.log.disk, a, b, x, src);
    ClearedReplays(fs.sb.g, fs.log.disk);
    booted := new Log(fs.sb.g, fs.log.disk);
    RebootHome(fs.sb.g, fs.log.disk, booted.ios);
    XIsHome(fs.sb, s0, a, b, x);
    forall y: nat | IsHome(fs.sb.g, y) ensures booted.view[y] == fs.log.disk[y] {
      HomeAt(fs.sb.g, booted.view, fs.log.disk, y);
    }
  }

  lemma RipeFile(sb: Super, s: Snap, a: nat, b: nat, x: nat)
    requires Ripe(sb, s, a, b, x)
    ensures Good(sb, s) && x in s.owner && x < sb.g.size
    ensures a < sb.ninodes && b < sb.ninodes && a != b && s.ino[b].typ == T_FILE && s.ino[b].size == 0
  {}

  lemma EmptyOk(sb: Super, s: Snap, b: nat)
    requires Good(sb, s) && b < sb.ninodes && s.ino[b].size == 0
    ensures FileOk(sb, s.v, s.ino, b)
  {}

  lemma XIsHome(sb: Super, s: Snap, a: nat, b: nat, x: nat)
    requires Ripe(sb, s, a, b, x)
    ensures IsHome(sb.g, x)
  {
    DataIsNotInode(sb, s.v, s.ino, s.owner);
  }

  /** A run that spoils a file: after the boot, a has its old inode, and its first block shows what was
      written to b. */
  method ReusedData(fs: FS.FileSystem, a: nat, b: nat, src: Block) returns (booted: Log)
    requires Settled(fs) && a < fs.sb.ninodes && FileOk(fs.sb, fs.log.view, fs.ino, a) && fs.ino[a].size > 0
    requires Ripe(fs.sb, fs.Now(), a, b, fs.ino[a].addrs[0]) && FreeBlocks(fs.sb, fs.log.view) != {}
    requires TruncBound(fs.sb, fs.owner, a) + EntryBound(T_FILE, BSIZE) <= Min(LOGSIZE, fs.sb.g.nlog - 1)
    requires src[0] != Content(fs.sb, fs.log.view, fs.ino, a)[0]
    modifies fs, fs.log
    ensures |booted.view| == fs.sb.g.size && Good(fs.sb, old(fs.Now()).(v := booted.view))
    ensures Dinode(fs.sb, booted.view, a) == old(fs.ino)[a] && FileOk(fs.sb, booted.view, old(fs.ino), a)
    ensures forall j: nat :: j < BSIZE && j < old(fs.ino)[a].size ==>
      Content(fs.sb, booted.view, old(fs.ino), a)[j] == src[j]
    ensures Content(fs.sb, booted.view, old(fs.ino), a) != old(Content(fs.sb, fs.log.view, fs.ino, a))
  {
    hide Owned, Ripe, TruncBound, EntryBound, FreeBlocks, HomeEqual, Ready, Dinode, FileOk, Content;
    ghost var s0 := fs.Now();
    ghost var x := fs.ino[a].addrs[0];
    booted := TruncateWriteCrash(fs, a, b, x, src);
    SpoiltFile(fs.sb, s0, booted.view, a, b, x, src);
  }

  lemma SpoiltFile(sb: Super, s0: Snap, v: Disk, a: nat, b: nat, x: nat, src: Block)
    requires Ripe(sb, s0, a, b, x) && Synced(sb, s0) && FileOk(sb, s0.v, s0.ino, a) && x == s0.ino[a].addrs[0]
    requires s0.ino[a].size > 0 && |v| == sb.g.size && x < sb.g.size && v[x] == src
    requires forall y: nat :: IsHome(sb.g, y) && y != x ==> v[y] == s0.v[y]
    ensures Good(sb, s0.(v := v)) && Dinode(sb, v, a) == s0.ino[a] && FileOk(sb, v, s0.ino, a)
    ensures forall j: nat :: j < BSIZE && j < s0.ino[a].size ==> Content(sb, v, s0.ino, a)[j] == src[j]
    ensures src[0] != Content(sb, s0.v, s0.ino, a)[0] ==> Content(sb, v, s0.ino, a) != Content(sb, s0.v, s0.ino, a)
  {
    hide Owned, Ripe, Kept, Dinode, Ref, Content, FileOk, FileBytes, InUse;
    RipeFile(sb, s0, a, b, x);
    XIsHome(sb, s0, a, b, x);
    SpoiltKept(sb, s0, v, a, x);
    KeptGood(sb, s0, v);
    DirectRef(sb, s0, a);
    OverwriteShows(sb, s0, v, a, 0, 0);
    forall j: nat | j < BSIZE && j < s0.ino[a].size ensures Content(sb, v, s0.ino, a)[j] == src[j] {
      OverwriteShows(sb, s0, v, a, 0, j);
    }
  }

  lemma SpoiltKept(sb: Super, s0: Snap, v: Disk, a: nat, x: nat)
    requires Good(sb, s0) && a < sb.ninodes && x == s0.ino[a].addrs[0] && x in s0.owner && |v| == sb.g.size
    requires forall y: nat :: IsHome(sb.g, y) && y != x ==> v[y] == s0.v[y]
    ensures Kept(sb, s0, v)
  {
    hide InUse, Word;
    assert ValidSlot(sb, Direct(a, 0)) && Ref(sb, s0.v, s0.ino, Direct(a, 0)) == x;
    DataIsNotInode(sb, s0.v, s0.ino, s0.owner);
    hide Ref, Owned;
  }

  /** A run that breaks the volume: the block reused was a's index block, so its old inode now takes
      file data for block numbers, and no assignment of owners fits. */
  method ReusedIndex(fs: FS.FileSystem, a: nat, b: nat) returns (booted: Log)
    requires Settled(fs) && a < fs.sb.ninodes && FreeBlocks(fs.sb, fs.log.view) != {}
    requires Ripe(fs.sb, fs.Now(), a, b, fs.ino[a].addrs[NDIRECT])
    requires TruncBound(fs.sb, fs.owner, a) + EntryBound(T_FILE, BSIZE) <= Min(LOGSIZE, fs.sb.g.nlog - 1)
    modifies fs, fs.log
    ensures |booted.view| == fs.sb.g.size && Dinode(fs.sb, booted.view, a) == old(fs.ino)[a]
    ensures forall owner :: !Good(fs.sb, Snap(booted.view, old(fs.ino), owner, []))
  {
    hide Owned, Ripe, TruncBound, EntryBound, FreeBlocks, HomeEqual, Ready, Dinode, Word, SetWord;
    ghost var s0 := fs.Now();
    ghost var x := fs.ino[a].addrs[NDIRECT];
    var src := SetWord(Zeros(), 0, 1);
    WordOfSet(Zeros(), 0, 1);
    booted := TruncateWriteCrash(fs, a, b, x, src);
    SpoiltIndex(fs.sb, s0, booted.view, a, b, x);
  }

  lemma SpoiltIndex(sb: Super, s0: Snap, v: Disk, a: nat, b: nat, x: nat)
    requires Ripe(sb, s0, a, b, x) && Synced(sb, s0) && x == s0.ino[a].addrs[NDIRECT]
    requires |v| == sb.g.size && x < sb.g.size && Word(v[x], 0) == 1
    requires forall y: nat :: IsHome(sb.g, y) && y != x ==> v[y] == s0.v[y]
    ensures Dinode(sb, v, a) == s0.ino[a]
    ensures forall owner :: !Good(sb, Snap(v, s0.ino, owner, []))
  {
    hide InUse, Word, GetInode;
    InodeBlockHome(sb, a);
    DataIsNotInode(sb, s0.v, s0.ino, s0.owner);
    assert Dinode(sb, s0.v, a) == s0.ino[a];
    forall owner ensures !Good(sb, Snap(v, s0.ino, owner, [])) { BadIndex(sb, v, s0.ino, a, owner); }
  }

  ghost predicate EmptyFile(sb: Super, s: Snap, n: nat) {
    && n < sb.ninodes && n < |s.ino| && s.ino[n].typ == T_FILE && s.ino[n].size == 0 && |s.ino[n].addrs| == NDIRECT + 1
    && forall k :: 0 <= k <= NDIRECT ==> s.ino[n].addrs[k] == 0
  }

  /** After one block was written to the empty file a, the way is clear for the run above. */
  lemma OneBlockIsRipe(sb: Super, s0: Snap, s1: Snap, a: nat, b: nat, one: Block) returns (x: nat)
    requires Good(sb, s0) && EmptyFile(sb, s0, a) && EmptyFile(sb, s0, b) && a != b && |FreeBlocks(sb, s0.v)| >= 2
    requires WriteDone(sb, s0, s1, a, one, 0) && Took(sb, s0, s1, a, 0, BSIZE)
    ensures x == s1.ino[a].addrs[0] && Ripe(sb, s1, a, b, x) && FreeBlocks(sb, s1.v) != {}
    ensures TruncBound(sb, s1.owner, a) == 2 && s1.ino[a].size == BSIZE
  {
    hide InUse, Ref, WriteDone, Took, Owned, FreeBlocks;
    WriteInodes(sb, s0, s1, a, b, one);
    x := TakesOne(sb, s0, s1, a, one);
    DirectRef(sb, s1, a);
    TookLowest(sb, s0, s1, a);
    forall y | y in s1.owner && s1.owner[y].inum == a ensures y == x { OwnedByOne(sb, s0, s1, a, x, y); }
    forall c: nat | c < x ensures InUse(sb, s1.v, c) { StillInUse(sb, s0, s1, x, c); }
    assert Own(s1.owner, a) == {x};
    assert BitmapBlocks(sb, {x}) == {BitmapBlock(sb, x)};
    AnotherFree(sb, s0, s1, x);
    EmptyStays(sb, s0, s1, b);
  }

  lemma WriteInodes(sb: Super, s0: Snap, s1: Snap, a: nat, b: nat, one: Block)
    requires WriteDone(sb, s0, s1, a, one, 0) && s0.ino[a].size == 0 && b < sb.ninodes && a != b
    ensures Good(sb, s0) && Good(sb, s1) && a < sb.ninodes && s1.ino[b] == s0.ino[b] && s1.ino[a].size == BSIZE
  {
    hide Owned, FileBytes, Mapped, Written, Synced;
  }

  lemma DirectRef(sb: Super, s: Snap, a: nat)
    requires Good(sb, s) && a < sb.ninodes
    ensures Ref(sb, s.v, s.ino, SlotOf(a, 0)) == s.ino[a].addrs[0]
  {
    hide Owned;
  }

  lemma EmptyStays(sb: Super, s0: Snap, s1: Snap, b: nat)
    requires EmptyFile(sb, s0, b) && b < |s1.ino| && s1.ino[b] == s0.ino[b]
    ensures EmptyFile(sb, s1, b)
  {}

  lemma TookLowest(sb: Super, s0: Snap, s1: Snap, a: nat)
    requires Good(sb, s0) && Took(sb, s0, s1, a, 0, BSIZE)
    ensures Lowest(sb, s0.v, s1.owner.Keys - s0.owner.Keys)
    ensures forall b :: b in s0.owner ==> b in s1.owner && s1.owner[b] == s0.owner[b]
  {}

  lemma OwnedByOne(sb: Super, s0: Snap, s1: Snap, a: nat, x: nat, y: nat)
    requires Good(sb, s0) && Took(sb, s0, s1, a, 0, BSIZE) && EmptyFile(sb, s0, a)
    requires s1.owner.Keys - s0.owner.Keys == {x} && y in s1.owner && s1.owner[y].inum == a
    ensures y == x
  {
    hide Owned, Lowest;
    if y in s0.owner {
      EmptyHasNothing(sb, s0, a, y);
      assert false;
    } else {
      assert y in s1.owner.Keys - s0.owner.Keys;
    }
  }

  lemma StillInUse(sb: Super, s0: Snap, s1: Snap, x: nat, c: nat)
    requires Good(sb, s0) && Good(sb, s1) && Lowest(sb, s0.v, {x}) && c < x && IsData(sb, x)
    requires s1.owner.Keys - s0.owner.Keys == {x} && s0.owner.Keys <= s1.owner.Keys
    ensures InUse(sb, s1.v, c)
  {
    hide InUse, Ref;
    assert InUse(sb, s0.v, c);
  }

  lemma AnotherFree(sb: Super, s0: Snap, s1: Snap, x: nat)
    requires Good(sb, s0) && Good(sb, s1) && |FreeBlocks(sb, s0.v)| >= 2 && s1.owner.Keys - s0.owner.Keys == {x}
    ensures FreeBlocks(sb, s1.v) != {}
  {
    hide InUse, Ref;
    if FreeBlocks(sb, s0.v) <= {x} { Smaller(FreeBlocks(sb, s0.v), {x}); }
    var y :| y in FreeBlocks(sb, s0.v) && y != x;
    assert y !in s1.owner.Keys - s0.owner.Keys;
    assert y in FreeBlocks(sb, s1.v);
  }

  lemma SameBits(sb: Super, v: Disk, v': Disk)
    requires SuperOk(sb) && |v| == |v'| == sb.g.size && HomeEqual(sb.g, v', v)
    ensures forall c: nat :: c < sb.g.size ==> InUse(sb, v', c) == InUse(sb, v, c)
    ensures FreeBlocks(sb, v') == FreeBlocks(sb, v)
  {
    hide BitAt;
    forall c: nat | c < sb.g.size ensures InUse(sb, v', c) == InUse(sb, v, c) { BitmapBlockHome(sb, c); }
  }

  lemma RipeHome(sb: Super, s: Snap, s': Snap, a: nat, b: nat, x: nat)
    requires Ripe(sb, s, a, b, x) && s'.ino == s.ino && s'.owner == s.owner && Good(sb, s')
    requires |s'.v| == |s.v| == sb.g.size && HomeEqual(sb.g, s'.v, s.v)
    ensures Ripe(sb, s', a, b, x) && FreeBlocks(sb, s'.v) == FreeBlocks(sb, s.v)
  {
    hide Owned, InUse;
    SameBits(sb, s.v, s'.v);
    forall c: nat | c < x ensures InUse(sb, s'.v, c) && !(c in s'.owner && s'.owner[c].inum == a) {
      assert InUse(sb, s.v, c);
    }
  }

  lemma WrittenOne(sb: Super, s0: Snap, s: Snap, a: nat, one: Block)
    requires WriteDone(sb, s0, s, a, one, 0) && s0.ino[a].size == 0
    ensures FileOk(sb, s.v, s.ino, a) && Content(sb, s.v, s.ino, a) == one && s.ino[a].size == BSIZE
    ensures Good(sb, s) && (Synced(sb, s0) ==> Synced(sb, s))
  {
    hide Owned, OnlyFile, FileBytes, Mapped, Dinode;
    var c := Content(sb, s.v, s.ino, a);
    assert c == Written([], 0, one);
  }

  lemma ContentIs(sb: Super, v: Disk, ino: seq<Inode>, a: nat, two: Block)
    requires TableOk(sb, v, ino) && a < sb.ninodes && FileOk(sb, v, ino, a) && ino[a].size == BSIZE
    requires forall j: nat :: j < BSIZE ==> Content(sb, v, ino, a)[j] == two[j]
    ensures Content(sb, v, ino, a) == two
  {}

  /** The whole story, from any settled volume with two empty files and three free blocks: one block is
      written to a and committed; then a is truncated and one block written to b, and the machine stops
      before the commit.  After the boot, a, with its committed inode, reads as b's data. */
  method ReuseFromEmpty(fs: FS.FileSystem, a: nat, b: nat, one: Block, two: Block)
      returns (booted: Log, ghost committed: Snap)
    requires Settled(fs) && EmptyFile(fs.sb, fs.Now(), a) && EmptyFile(fs.sb, fs.Now(), b) && a != b
    requires |FreeBlocks(fs.sb, fs.log.view)| >= 3 && fs.sb.g.nlog > 7 && one[0] != two[0]
    modifies fs, fs.log
    ensures Good(fs.sb, committed) && FileOk(fs.sb, committed.v, committed.ino, a)
    ensures Content(fs.sb, committed.v, committed.ino, a) == one
    ensures |booted.view| == fs.sb.g.size && Good(fs.sb, committed.(v := booted.view))
    ensures Dinode(fs.sb, booted.view, a) == committed.ino[a] && FileOk(fs.sb, booted.view, committed.ino, a)
    ensures Content(fs.sb, booted.view, committed.ino, a) == two
  {
    hide Owned, Ready, Ripe, WriteDone, Took, InPlace, TruncBound, FreeBlocks, Dinode, FileOk, Content, OnlyFile;
    ghost var s0 := fs.Now();
    EmptyOk(fs.sb, s0, a);
    var admitted := fs.log.BeginOp();
    var r, ok, passed := Writei(fs, a, one, 0);
    ghost var s1 := fs.Now();
    ghost var x := OneBlockIsRipe(fs.sb, s0, s1, a, b, one);
    fs.log.EndOp();
    committed := fs.Now();
    CommitKeeps(fs.sb, s0, s1, committed, a, one, 0, Some(BSIZE));
    RipeHome(fs.sb, s1, committed, a, b, x);
    WrittenOne(fs.sb, s0, committed, a, one);
    booted := ReusedData(fs, a, b, two);
    ContentIs(fs.sb, booted.view, committed.ino, a, two);
  }

  // ----- The same with an index block

  /** Every block below x is in use, by others than a. */
  ghost predicate NoneBelow(sb: Super, s: Snap, a: nat, x: nat)
    requires Good(sb, s)
  {
    x < sb.g.size && forall y: nat :: y < x ==> InUse(sb, s.v, y) && !(y in s.owner && s.owner[y].inum == a)
  }

  /** Regular file a has its first k blocks and no index block; b is empty. */
  ghost predicate Growing(sb: Super, s: Snap, a: nat, b: nat, k: nat) {
    && Good(sb, s) && a < sb.ninodes && a != b && EmptyFile(sb, s, b) && s.ino[a].typ == T_FILE
    && s.ino[a].size == k * BSIZE && FileOk(sb, s.v, s.ino, a) && s.ino[a].addrs[NDIRECT] == 0
    && |Own(s.owner, a)| <= k
  }

  /** File c has the block x below all of a's. */
  ghost predicate Stage(sb: Super, s: Snap, a: nat, b: nat, c: nat, x: nat, k: nat) {
    && Growing(sb, s, a, b, k) && NoneBelow(sb, s, a, x)
    && c < sb.ninodes && c != a && c != b && x in s.owner && Own(s.owner, c) == {x}
  }

  /** Block x is free, the lowest free one. */
  ghost predicate Hole(sb: Super, s: Snap, a: nat, b: nat, x: nat, k: nat) {
    Growing(sb, s, a, b, k) && NoneBelow(sb, s, a, x) && !InUse(sb, s.v, x)
  }

  /** filewrite of one block at the end of a file, with nothing else going on. */
  method Append(fs: FS.FileSystem, n: nat, blk: Block)
    requires Settled(fs) && n < fs.sb.ninodes && FileOk(fs.sb, fs.log.view, fs.ino, n) && fs.ino[n].typ == T_FILE
    requires fs.ino[n].size + BSIZE <= MAXFILE * BSIZE
    requires |FreeBlocks(fs.sb, fs.log.view)| >= 2 && fs.sb.g.nlog >= MAXOPBLOCKS
    modifies fs, fs.log
    ensures Settled(fs) && WriteDone(fs.sb, old(fs.Now()), fs.Now(), n, blk, old(fs.ino)[n].size)
    ensures Took(fs.sb, old(fs.Now()), fs.Now(), n, old(fs.ino)[n].size, BSIZE)
  {
    hide Owned, Ready, FileOk, WriteDone, Took, FreeBlocks, Synced, HomeEqual, Dinode;
    ghost var s0 := fs.Now();
    var admitted, r, ok, entries := WriteChunk(fs, n, blk, fs.ino[n].size);
    SettledAgain(fs.sb, s0, fs.Now(), n, blk, s0.ino[n].size);
  }

  /** itrunc as a transaction of its own. */
  method TruncateFile(fs: FS.FileSystem, n: nat)
    requires Settled(fs) && n < fs.sb.ninodes && TruncBound(fs.sb, fs.owner, n) <= Min(LOGSIZE, fs.sb.g.nlog - 1)
    modifies fs, fs.log
    ensures Settled(fs) && TruncDone(fs.sb, old(fs.Now()), fs.Now(), n)
  {
    hide Owned, Ready, TruncDone, TruncBound, Synced, Dinode;
    ghost var s0 := fs.Now();
    var admitted := fs.log.BeginOp();
    var ok := Itrunc(fs, n);
    ghost var s1 := fs.Now();
    fs.log.EndOp();
    TruncHome(fs.sb, s0, s1, fs.Now(), n);
  }

  lemma TruncHome(sb: Super, s0: Snap, s1: Snap, s2: Snap, n: nat)
    requires TruncDone(sb, s0, s1, n) && s2.ino == s1.ino && s2.owner == s1.owner
    requires |s2.v| == |s1.v| && HomeEqual(sb.g, s2.v, s1.v)
    ensures TruncDone(sb, s0, s2, n) && Good(sb, s0) && Good(sb, s2) && (Synced(sb, s0) ==> Synced(sb, s2))
  {
    hide Owned, InUse, Ref, FileBytes, Mapped, Dinode;
    HomeKeeps(sb, s1, s2.v);
    assert s1.(v := s2.v).ino == s2.ino && s1.(v := s2.v).owner == s2.owner;
    SameBits(sb, s1.v, s2.v);
    SameRefs(sb, s1, s2);
    forall x: nat | sb.dataStart <= x < sb.g.size ensures s2.v[x] == s1.v[x] { DataIsHome(sb, x); }
  }

  lemma SameRefs(sb: Super, s1: Snap, s2: Snap)
    requires Good(sb, s1) && s2.ino == s1.ino && s2.owner == s1.owner && |s2.v| == |s1.v| && HomeEqual(sb.g, s2.v, s1.v)
    ensures Good(sb, s2) && forall t :: ValidSlot(sb, t) ==> Ref(sb, s2.v, s2.ino, t) == Ref(sb, s1.v, s1.ino, t)
  {
    hide InUse, Ref;
    DataIsNotInode(sb, s1.v, s1.ino, s1.owner);
    OwnedFrame(sb, s1.v, s1.ino, s1.owner, s2.v);
  }

  // What appending a block does

  /** Before the index is needed, the one new block, if any, is for the block written. */
  lemma NewIsDirect(sb: Super, s: Snap, s': Snap, a: nat, k: nat, z: nat)
    requires Good(sb, s) && Good(sb, s') && Took(sb, s, s', a, k * BSIZE, BSIZE) && k < NDIRECT && a < sb.ninodes
    requires NewIn(s, s', z)
    ensures s'.owner[z] == SlotOf(a, k) && z == Ref(sb, s'.v, s'.ino, SlotOf(a, k))
  {
    hide InUse, Ref, Lowest, IndexFirst;
    assert SlotFor(s'.owner[z], a, k * BSIZE, BSIZE) && ValidSlot(sb, s'.owner[z]);
  }

  /** Taking at most the blocks of taken leaves the others free. */
  lemma FreeLeft(sb: Super, s: Snap, s': Snap, taken: set<nat>)
    requires Good(sb, s) && Good(sb, s') && s'.owner.Keys <= s.owner.Keys + taken
    ensures |FreeBlocks(sb, s.v)| <= |FreeBlocks(sb, s'.v)| + |taken|
  {
    hide InUse, Ref;
    forall y | y in FreeBlocks(sb, s.v) ensures y in FreeBlocks(sb, s'.v) + taken {}
    Smaller(FreeBlocks(sb, s.v), FreeBlocks(sb, s'.v) + taken);
    UnionSize(FreeBlocks(sb, s'.v), taken);
  }

  lemma OwnGrows(owner: map<nat, Slot>, owner': map<nat, Slot>, a: nat, taken: set<nat>)
    requires owner'.Keys <= owner.Keys + taken
    requires forall b :: b in owner ==> b in owner' && owner'[b] == owner[b]
    ensures |Own(owner', a)| <= |Own(owner, a)| + |taken|
  {
    Smaller(Own(owner', a), Own(owner, a) + taken);
    UnionSize(Own(owner, a), taken);
  }

  /** Blocks taken were free, so they do not lie below x. */
  lemma StillNoneBelow(sb: Super, s: Snap, s': Snap, a: nat, x: nat)
    requires Good(sb, s) && Good(sb, s') && NoneBelow(sb, s, a, x)
    requires forall b :: b in s.owner ==> b in s'.owner && s'.owner[b] == s.owner[b]
    ensures NoneBelow(sb, s', a, x)
  {
    hide InUse, Ref;
    forall y: nat | y < x ensures InUse(sb, s'.v, y) && !(y in s'.owner && s'.owner[y].inum == a) {
      assert InUse(sb, s.v, y);
    }
  }

  lemma AppendInodes(sb: Super, s: Snap, s': Snap, a: nat, b: nat, k: nat, blk: Block)
    requires WriteDone(sb, s, s', a, blk, k * BSIZE) && s.ino[a].size == k * BSIZE && b < sb.ninodes && a != b
    ensures Good(sb, s) && Good(sb, s') && a < sb.ninodes && s'.ino[b] == s.ino[b] && s'.ino[a].size == (k + 1) * BSIZE
    ensures s'.ino[a].typ == s.ino[a].typ && FileOk(sb, s'.v, s'.ino, a)
  {
    hide Owned, FileBytes, Mapped, Written, Synced;
  }

  lemma NoIndexYet(sb: Super, s: Snap, s': Snap, a: nat, k: nat)
    requires Good(sb, s) && Good(sb, s') && a < sb.ninodes && k < NDIRECT && s.ino[a].addrs[NDIRECT] == 0
    requires Took(sb, s, s', a, k * BSIZE, BSIZE)
    ensures s'.ino[a].addrs[NDIRECT] == 0
  {
    hide InUse, Word, Lowest, IndexFirst;
    var z := s'.ino[a].addrs[NDIRECT];
    if z != 0 {
      IndexIsOwned(sb, s'.v, s'.ino, s'.owner, a);
      NotBefore(sb, s, a, z, Index(a));
      NewIsDirect(sb, s, s', a, k, z);
      assert false;
    }
  }

  lemma AppendKeeps(sb: Super, s: Snap, s': Snap, a: nat, b: nat, k: nat, blk: Block) returns (taken: set<nat>)
    requires Growing(sb, s, a, b, k) && k < NDIRECT
    requires WriteDone(sb, s, s', a, blk, k * BSIZE) && Took(sb, s, s', a, k * BSIZE, BSIZE)
    ensures Growing(sb, s', a, b, k + 1) && |FreeBlocks(sb, s.v)| <= |FreeBlocks(sb, s'.v)| + 1
    ensures forall z :: z in s.owner ==> z in s'.owner && s'.owner[z] == s.owner[z]
    ensures forall z :: NewIn(s, s', z) ==> s'.owner[z].inum == a
  {
    hide InUse, Ref, WriteDone, Took, Owned, FreeBlocks, FileOk;
    AppendInodes(sb, s, s', a, b, k, blk);
    EmptyStays(sb, s, s', b);
    NoIndexYet(sb, s, s', a, k);
    TookKeeps(sb, s, s', a, k * BSIZE, BSIZE);
    SlotOfValid(sb, a, k);
    taken := {Ref(sb, s'.v, s'.ino, SlotOf(a, k))};
    forall z | NewIn(s, s', z) ensures z in taken && s'.owner[z].inum == a { NewIsDirect(sb, s, s', a, k, z); }
    forall z | z in s'.owner ensures z in s.owner.Keys + taken { if z !in s.owner { assert NewIn(s, s', z); } }
    FreeLeft(sb, s, s', taken);
    OwnGrows(s.owner, s'.owner, a, taken);
  }

  lemma TookKeeps(sb: Super, s: Snap, s': Snap, a: nat, off: nat, n: nat)
    requires Good(sb, s) && Took(sb, s, s', a, off, n)
    ensures forall b :: b in s.owner ==> b in s'.owner && s'.owner[b] == s.owner[b]
    ensures Lowest(sb, s.v, s'.owner.Keys - s.owner.Keys) && IndexFirst(s, s')
  {}

  lemma StageStart(sb: Super, s: Snap, s': Snap, a: nat, b: nat, c: nat, blk: Block) returns (x: nat)
    requires Good(sb, s) && EmptyFile(sb, s, a) && EmptyFile(sb, s, b) && EmptyFile(sb, s, c)
    requires a != b && a != c && b != c
    requires WriteDone(sb, s, s', c, blk, 0) && Took(sb, s, s', c, 0, BSIZE)
    ensures Stage(sb, s', a, b, c, x, 0) && |FreeBlocks(sb, s.v)| <= |FreeBlocks(sb, s'.v)| + 1
  {
    hide InUse, Ref, WriteDone, Took, Owned, FreeBlocks;
    WriteInodes(sb, s, s', c, a, blk);
    WriteInodes(sb, s, s', c, b, blk);
    x := TakesOne(sb, s, s', c, blk);
    TookLowest(sb, s, s', c);
    forall y | y in s'.owner && s'.owner[y].inum == c ensures y == x { OwnedByOne(sb, s, s', c, x, y); }
    assert Own(s'.owner, c) == {x};
    forall y: nat | y < x ensures InUse(sb, s'.v, y) { StillInUse(sb, s, s', x, y); }
    EmptyStays(sb, s, s', a);
    EmptyStays(sb, s, s', b);
    EmptyOk(sb, s', a);
    forall y | y in s'.owner ensures s'.owner[y].inum != a { EmptyHasNothing(sb, s', a, y); }
    assert Own(s'.owner, a) == {};
    assert s'.owner.Keys <= s.owner.Keys + {x} by {
      forall y | y in s'.owner ensures y in s.owner.Keys + {x} {
        if y !in s.owner { assert y in s'.owner.Keys - s.owner.Keys; }
      }
    }
    FreeLeft(sb, s, s', {x});
  }

  lemma StageNext(sb: Super, s: Snap, s': Snap, a: nat, b: nat, c: nat, x: nat, k: nat, blk: Block)
    requires Stage(sb, s, a, b, c, x, k) && k < NDIRECT
    requires WriteDone(sb, s, s', a, blk, k * BSIZE) && Took(sb, s, s', a, k * BSIZE, BSIZE)
    ensures Stage(sb, s', a, b, c, x, k + 1) && |FreeBlocks(sb, s.v)| <= |FreeBlocks(sb, s'.v)| + 1
  {
    hide WriteDone, Took, FreeBlocks, Growing, NoneBelow, Owned;
    GrowingGood(sb, s, a, b, k);
    var taken := AppendKeeps(sb, s, s', a, b, k, blk);
    GrowingGood(sb, s', a, b, k + 1);
    StillNoneBelow(sb, s, s', a, x);
    forall z | z in Own(s'.owner, c) ensures z in Own(s.owner, c) {
      assert z in s.owner || NewIn(s, s', z);
    }
    assert Own(s'.owner, c) == {x};
  }

  lemma GrowingGood(sb: Super, s: Snap, a: nat, b: nat, k: nat)
    requires Growing(sb, s, a, b, k)
    ensures Good(sb, s) && a < sb.ninodes && b < sb.ninodes && s.ino[a].typ == T_FILE && s.ino[a].size == k * BSIZE
    ensures FileOk(sb, s.v, s.ino, a)
  {}

  /** Truncating c makes x the lowest free block. */
  lemma StageEnds(sb: Super, s: Snap, s': Snap, a: nat, b: nat, c: nat, x: nat, k: nat)
    requires Stage(sb, s, a, b, c, x, k) && TruncDone(sb, s, s', c)
    ensures Hole(sb, s', a, b, x, k) && |FreeBlocks(sb, s.v)| <= |FreeBlocks(sb, s'.v)|
  {
    hide Ref, InUse, FileBytes, Synced;
    assert Own(s'.owner, a) == Own(s.owner, a);
    forall y: nat | y < x ensures InUse(sb, s'.v, y) && !(y in s'.owner && s'.owner[y].inum == a) {
      assert InUse(sb, s.v, y) && (y in s.owner && s.owner[y].inum == c ==> y in Own(s.owner, c));
    }
    assert x in Own(s.owner, c) && InUse(sb, s.v, x);
    Smaller(FreeBlocks(sb, s.v), FreeBlocks(sb, s'.v));
  }

  /** The thirteenth block needs an index block, and that is where x goes. */
  lemma HoleTaken(sb: Super, s: Snap, s': Snap, a: nat, b: nat, x: nat, blk: Block)
    requires Hole(sb, s, a, b, x, NDIRECT) && |FreeBlocks(sb, s.v)| >= 3
    requires WriteDone(sb, s, s', a, blk, NDIRECT * BSIZE) && Took(sb, s, s', a, NDIRECT * BSIZE, BSIZE)
    ensures Ripe(sb, s', a, b, x) && x == s'.ino[a].addrs[NDIRECT] && |Own(s'.owner, a)| <= NDIRECT + 2
    ensures FreeBlocks(sb, s'.v) != {}
  {
    hide InUse, Ref, WriteDone, Took, Owned, FreeBlocks, FileOk;
    AppendInodes(sb, s, s', a, b, NDIRECT, blk);
    EmptyStays(sb, s, s', b);
    TookKeeps(sb, s, s', a, NDIRECT * BSIZE, BSIZE);
    var idx, leaf := NewPair(sb, s, s', a, b);
    XIsIndex(sb, s, s', a, b, x, idx, leaf);
    StillNoneBelow(sb, s, s', a, x);
    FreeLeft(sb, s, s', {idx, leaf});
    OwnGrows(s.owner, s'.owner, a, {idx, leaf});
  }

  /** The two blocks the thirteenth block of a file takes. */
  lemma NewPair(sb: Super, s: Snap, s': Snap, a: nat, b: nat) returns (idx: nat, leaf: nat)
    requires Growing(sb, s, a, b, NDIRECT) && Good(sb, s') && Took(sb, s, s', a, NDIRECT * BSIZE, BSIZE)
    requires FileOk(sb, s'.v, s'.ino, a) && s'.ino[a].size == (NDIRECT + 1) * BSIZE
    ensures idx == s'.ino[a].addrs[NDIRECT] && NewIn(s, s', idx) && NewIn(s, s', leaf) && idx < leaf
    ensures s'.owner[idx].inum == a && s'.owner.Keys - s.owner.Keys == {idx, leaf}
  {
    hide InUse, Word, Lowest;
    SlotOfValid(sb, a, NDIRECT);
    leaf := Ref(sb, s'.v, s'.ino, SlotOf(a, NDIRECT));
    assert leaf != 0 && s'.owner[leaf] == Leaf(a, 0);
    idx := s'.ino[a].addrs[NDIRECT];
    IndexThere(sb, s', a, NDIRECT);
    IndexIsOwned(sb, s'.v, s'.ino, s'.owner, a);
    NotBefore(sb, s, a, leaf, Leaf(a, 0));
    NotBefore(sb, s, a, idx, Index(a));
    hide Ref;
    forall z | z in s'.owner && z !in s.owner ensures z == idx || z == leaf { PairOnly(sb, s, s', a, z, idx, leaf); }
  }

  /** A file without an index block has nothing under it. */
  lemma NotBefore(sb: Super, s: Snap, a: nat, z: nat, t: Slot)
    requires Good(sb, s) && a < sb.ninodes && s.ino[a].addrs[NDIRECT] == 0
    requires (t == Index(a) || t == Leaf(a, 0)) && z != 0
    ensures !(z in s.owner && s.owner[z] == t)
  {
    hide InUse, Word;
  }

  lemma PairOnly(sb: Super, s: Snap, s': Snap, a: nat, z: nat, idx: nat, leaf: nat)
    requires Good(sb, s) && Good(sb, s') && a < sb.ninodes && Took(sb, s, s', a, NDIRECT * BSIZE, BSIZE)
    requires z in s'.owner && z !in s.owner && idx in s'.owner && s'.owner[idx] == Index(a)
    requires leaf in s'.owner && s'.owner[leaf] == Leaf(a, 0)
    ensures z == idx || z == leaf
  {
    hide InUse, Ref, Lowest, IndexFirst;
    assert SlotFor(s'.owner[z], a, NDIRECT * BSIZE, BSIZE) && ValidSlot(sb, s'.owner[z]);
    assert s'.owner[z] == Index(a) || s'.owner[z] == Leaf(a, 0);
  }

  lemma XIsIndex(sb: Super, s: Snap, s': Snap, a: nat, b: nat, x: nat, idx: nat, leaf: nat)
    requires Hole(sb, s, a, b, x, NDIRECT) && Good(sb, s') && Lowest(sb, s.v, s'.owner.Keys - s.owner.Keys)
    requires NewIn(s, s', idx) && NewIn(s, s', leaf) && idx < leaf && s'.owner.Keys - s.owner.Keys == {idx, leaf}
    ensures x == idx
  {
    hide InUse, Ref;
    assert IsData(sb, idx) && IsData(sb, leaf);
    assert !InUse(sb, s.v, idx) && !InUse(sb, s.v, leaf);
    assert idx in s'.owner.Keys - s.owner.Keys;
  }

  /** The whole story for an index block, from any settled volume with three empty files: c gets a block,
      a gets twelve, c is truncated, and a grows once more, so that its index block is where c's block was.
      Then a is truncated and one block written to b, and the machine stops before the commit.  After
      the boot a, with its committed inode, takes b's data for block numbers. */
  method IndexFromEmpty(fs: FS.FileSystem, a: nat, b: nat, c: nat, fill: Block)
      returns (booted: Log, ghost committed: Snap)
    requires Settled(fs) && EmptyFile(fs.sb, fs.Now(), a) && EmptyFile(fs.sb, fs.Now(), b)
    requires EmptyFile(fs.sb, fs.Now(), c) && a != b && a != c && b != c
    requires |FreeBlocks(fs.sb, fs.log.view)| >= NDIRECT + 4 && fs.sb.g.nlog > NDIRECT + 8
    modifies fs, fs.log
    ensures Good(fs.sb, committed) && |booted.view| == fs.sb.g.size
    ensures Dinode(fs.sb, booted.view, a) == committed.ino[a]
    ensures forall owner :: !Good(fs.sb, Snap(booted.view, committed.ino, owner, []))
  {
    hide Owned, Ready, Ripe, WriteDone, Took, TruncDone, FreeBlocks, Dinode, FileOk, Stage, Hole, Own, Synced,
      HomeEqual;
    ghost var s := fs.Now();
    EmptyOk(fs.sb, s, c);
    Append(fs, c, fill);
    ghost var x := StageStart(fs.sb, s, fs.Now(), a, b, c, fill);
    var k := 0;
    while k < NDIRECT
      invariant 0 <= k <= NDIRECT && Settled(fs) && Stage(fs.sb, fs.Now(), a, b, c, x, k)
      invariant |FreeBlocks(fs.sb, fs.log.view)| + k >= NDIRECT + 3
    {
      s := fs.Now();
      StageFile(fs.sb, s, a, b, c, x, k);
      Append(fs, a, fill);
      StageNext(fs.sb, s, fs.Now(), a, b, c, x, k, fill);
      k := k + 1;
    }
    s := fs.Now();
    StageFile(fs.sb, s, a, b, c, x, k);
    TruncateFile(fs, c);
    StageEnds(fs.sb, s, fs.Now(), a, b, c, x, k);
    s := fs.Now();
    HoleFile(fs.sb, s, a, b, x, k);
    Append(fs, a, fill);
    HoleTaken(fs.sb, s, fs.Now(), a, b, x, fill);
    committed := fs.Now();
    RipeFile(fs.sb, committed, a, b, x);
    OwnBound(fs.sb, fs.owner, a);
    booted := ReusedIndex(fs, a, b);
  }

  lemma OwnBound(sb: Super, owner: map<nat, Slot>, a: nat)
    ensures TruncBound(sb, owner, a) <= |Own(owner, a)| + 1
  {
    BitmapBlocksSize(sb, Own(owner, a));
  }

  lemma StageFile(sb: Super, s: Snap, a: nat, b: nat, c: nat, x: nat, k: nat)
    requires Stage(sb, s, a, b, c, x, k)
    ensures Good(sb, s) && a < sb.ninodes && c < sb.ninodes && s.ino[a].typ == T_FILE && s.ino[a].size == k * BSIZE
    ensures FileOk(sb, s.v, s.ino, a) && TruncBound(sb, s.owner, c) <= 2
  {
    hide Owned, FileOk, NoneBelow;
    OwnBound(sb, s.owner, c);
  }

  lemma HoleFile(sb: Super, s: Snap, a: nat, b: nat, x: nat, k: nat)
    requires Hole(sb, s, a, b, x, k)
    ensures Good(sb, s) && a < sb.ninodes && s.ino[a].typ == T_FILE && s.ino[a].size == k * BSIZE
    ensures FileOk(sb, s.v, s.ino, a)
  {
    hide Owned, FileOk, NoneBelow;
  }
}

/** A whole transaction of writei and itrunc calls that meets a crash.  If its commit header is on
    the disk, recovery shows every file as the calls left it; if not, the last committed volume with
    what was written to it directly, as long as no block of it was freed and written to. */
module Transaction {
  import opened Blocks
  import opened LogHeader
  import opened FsLayout
  import opened FsOwner
  import opened CrashSafety
  import opened FileSystem
  import opened FileContents
  import opened FileIo
  import opened Truncate
  import opened OrderedMode

  datatype Op = Write(inum: nat, src: seq<bv8>, off: nat) | Trunc(inum: nat)

  /** The cached volume and the disk at one moment. */
  datatype At = At(s: Snap, d: Disk)

  /** One completed call, as the contracts of writei and itrunc describe it. */
  ghost predicate Step(sb: Super, a: At, b: At, op: Op) {
    && Good(sb, a.s) && Good(sb, b.s) && op.inum < sb.ninodes && |a.d| == |b.d| == sb.g.size
    && match op
       case Write(n, src, off) =>
         && WriteDone(sb, a.s, b.s, n, src, off) && Took(sb, a.s, b.s, n, off, |src|)
         && (if a.s.ino[n].typ == T_DIR then b.d == a.d else InPlace(a.s, a.d, b.s, b.d, n))
       case Trunc(n) => TruncDone(sb, a.s, b.s, n) && b.d == a.d
  }

  ghost predicate Run(sb: Super, ops: seq<Op>, at: seq<At>) {
    |at| == |ops| + 1 && forall k :: 0 <= k < |ops| ==> Step(sb, at[k], at[k + 1], ops[k])
  }

  /** Data blocks this call takes for a regular file were free at the last commit. */
  ghost predicate FreshTargets(sb: Super, s0: Snap, a: At, b: At, op: Op)
    requires Good(sb, a.s) && op.inum < sb.ninodes
  {
    op.Write? && a.s.ino[op.inum].typ != T_DIR ==>
      forall x :: x in b.s.owner && x !in a.s.owner && !b.s.owner[x].Index? ==> x !in s0.owner
  }

  predicate Truncated(ops: seq<Op>, n: nat) { exists k :: 0 <= k < |ops| && ops[k] == Trunc(n) }

  /** Contents c of file n with the writes of ops applied, up to the first truncation. */
  function Shown(ops: seq<Op>, n: nat, c: seq<bv8>): (r: seq<bv8>)
    ensures |r| >= |c|
  {
    if ops == [] then c else
      var p, op := Shown(ops[..|ops| - 1], n, c), ops[|ops| - 1];
      if op.Write? && op.inum == n && op.off <= |p| && !Truncated(ops[..|ops| - 1], n) then Written(p, op.off, op.src)
      else p
  }

  /** What the disk shows of a file: writes to a directory wait for the commit. */
  function OnDisk(ops: seq<Op>, typ: nat, n: nat, c: seq<bv8>): (r: seq<bv8>)
    ensures |r| == |c|
  {
    if typ == T_DIR then c else Shown(ops, n, c)[..|c|]
  }

  lemma TruncatedMore(ops: seq<Op>, op: Op, n: nat)
    ensures Truncated(ops + [op], n) <==> Truncated(ops, n) || op == Trunc(n)
  {
    if Truncated(ops, n) {
      var k :| 0 <= k < |ops| && ops[k] == Trunc(n);
      assert (ops + [op])[k] == Trunc(n);
    }
    if op == Trunc(n) { assert (ops + [op])[|ops|] == Trunc(n); }
  }

  lemma ShownMore(ops: seq<Op>, op: Op, n: nat, c: seq<bv8>)
    ensures var p := Shown(ops, n, c);
      Shown(ops + [op], n, c) ==
        if op.Write? && op.inum == n && op.off <= |p| && !Truncated(ops, n) then Written(p, op.off, op.src) else p
  {
    assert (ops + [op])[..|ops|] == ops;
  }

  // ----- What the calls make of a file

  /** Contents p of file n after one call. */
  function AfterOne(op: Op, n: nat, p: seq<bv8>): seq<bv8> {
    if op.inum != n then p
    else if op.Trunc? then []
    else if op.off <= |p| then Written(p, op.off, op.src)
    else p
  }

  /** Contents c of file n after all of ops. */
  function After(ops: seq<Op>, n: nat, c: seq<bv8>): seq<bv8> {
    if ops == [] then c else AfterOne(ops[|ops| - 1], n, After(ops[..|ops| - 1], n, c))
  }

  lemma AfterNext(ops: seq<Op>, k: nat, n: nat, c: seq<bv8>)
    requires k < |ops|
    ensures After(ops[..k + 1], n, c) == AfterOne(ops[k], n, After(ops[..k], n, c))
  {
    assert ops[..k + 1][..k] == ops[..k];
  }

  /** Up to its first truncation a file shows all that was written to it. */
  lemma {:induction false} ShownIsAfter(ops: seq<Op>, n: nat, c: seq<bv8>)
    requires !Truncated(ops, n)
    ensures Shown(ops, n, c) == After(ops, n, c)
  {
    if ops != [] {
      var m := |ops| - 1;
      assert ops == ops[..m] + [ops[m]];
      TruncatedMore(ops[..m], ops[m], n);
      ShownIsAfter(ops[..m], n, c);
    }
  }

  /** The cached contents after one more call. */
  lemma CacheStep(sb: Super, a: At, b: At, op: Op, n: nat)
    requires Step(sb, a, b, op) && n < sb.ninodes && FileOk(sb, a.s.v, a.s.ino, n)
    ensures Good(sb, b.s) && FileOk(sb, b.s.v, b.s.ino, n)
    ensures Content(sb, b.s.v, b.s.ino, n) == AfterOne(op, n, Content(sb, a.s.v, a.s.ino, n))
  {
    hide Owned, FileBytes, Dinode, Took, InPlace, Synced, Written, Ref;
  }

  lemma {:induction false} RunCached(sb: Super, ops: seq<Op>, at: seq<At>, k: nat, n: nat)
    requires Run(sb, ops, at) && k <= |ops| && n < sb.ninodes
    requires Good(sb, at[0].s) && FileOk(sb, at[0].s.v, at[0].s.ino, n)
    ensures Good(sb, at[k].s) && FileOk(sb, at[k].s.v, at[k].s.ino, n)
    ensures Content(sb, at[k].s.v, at[k].s.ino, n) == After(ops[..k], n, Content(sb, at[0].s.v, at[0].s.ino, n))
  {
    hide Step, Owned, FileOk, FileBytes, AfterOne;
    if k == 0 {
      assert ops[..0] == [];
    } else {
      RunCached(sb, ops, at, k - 1, n);
      assert Step(sb, at[k - 1], at[k - 1 + 1], ops[k - 1]);
      CacheStep(sb, at[k - 1], at[k], ops[k - 1], n);
      AfterNext(ops, k - 1, n, Content(sb, at[0].s.v, at[0].s.ino, n));
    }
  }

  predicate Writes(op: Op, n: nat, p: nat) { op.Write? && op.inum == n && op.off <= p < op.off + |op.src| }

  /** Call k wrote x at byte p of file n, and no later call wrote there or truncated the file. */
  ghost predicate WroteLast(ops: seq<Op>, n: nat, p: nat, k: nat, x: bv8) {
    && k < |ops| && Writes(ops[k], n, p) && ops[k].src[p - ops[k].off] == x
    && forall j :: k < j < |ops| ==> !Writes(ops[j], n, p) && ops[j] != Trunc(n)
  }

  ghost predicate IsLast(ops: seq<Op>, n: nat, p: nat, x: bv8) { exists k: nat :: WroteLast(ops, n, p, k, x) }

  /** No call ever touched byte p of file n. */
  ghost predicate NeverTouched(ops: seq<Op>, n: nat, p: nat) {
    forall j :: 0 <= j < |ops| ==> !Writes(ops[j], n, p) && ops[j] != Trunc(n)
  }

  /** Call k, if it writes file n, starts within or right behind it. */
  ghost predicate InReach(ops: seq<Op>, n: nat, c: seq<bv8>, k: nat)
    requires k < |ops|
  {
    ops[k].Write? && ops[k].inum == n ==> ops[k].off <= |After(ops[..k], n, c)|
  }

  lemma ByteOne(op: Op, n: nat, p: seq<bv8>, i: nat)
    requires i < |AfterOne(op, n, p)| && (op.Write? && op.inum == n ==> op.off <= |p|)
    ensures Writes(op, n, i) ==> AfterOne(op, n, p)[i] == op.src[i - op.off]
    ensures !Writes(op, n, i) ==> op != Trunc(n) && i < |p| && AfterOne(op, n, p)[i] == p[i]
  {}

  /** Every byte of the result is the one last written there, or an old byte nobody touched. */
  lemma {:induction false} ByteOrigin(ops: seq<Op>, n: nat, c: seq<bv8>, p: nat)
    requires p < |After(ops, n, c)| && forall k :: 0 <= k < |ops| ==> InReach(ops, n, c, k)
    ensures var x := After(ops, n, c)[p];
      IsLast(ops, n, p, x) || (p < |c| && x == c[p] && NeverTouched(ops, n, p))
  {
    hide AfterOne;
    if ops != [] {
      var m := |ops| - 1;
      var rest, op := ops[..m], ops[m];
      assert InReach(ops, n, c, m);
      ByteOne(op, n, After(rest, n, c), p);
      forall k | 0 <= k < m ensures InReach(rest, n, c, k) {
        assert InReach(ops, n, c, k) && rest[..k] == ops[..k];
      }
      var x := After(ops, n, c)[p];
      if Writes(op, n, p) {
        assert WroteLast(ops, n, p, m, x);
      } else {
        ByteOrigin(rest, n, c, p);
        if k: nat :| WroteLast(rest, n, p, k, x) { assert WroteLast(ops, n, p, k, x); }
      }
    }
  }

  lemma RunInReach(sb: Super, ops: seq<Op>, at: seq<At>, n: nat, k: nat)
    requires Run(sb, ops, at) && k < |ops| && n < sb.ninodes
    requires Good(sb, at[0].s) && FileOk(sb, at[0].s.v, at[0].s.ino, n)
    ensures InReach(ops, n, Content(sb, at[0].s.v, at[0].s.ino, n), k)
  {
    hide Owned, FileOk, FileBytes, OnlyFile, Took, InPlace, TruncDone;
    RunCached(sb, ops, at, k, n);
    assert Step(sb, at[k], at[k + 1], ops[k]);
  }

  // ----- A transaction whose commit header is on the disk

  lemma {:induction false} RunSynced(sb: Super, ops: seq<Op>, at: seq<At>, k: nat)
    requires Run(sb, ops, at) && k <= |ops| && Good(sb, at[0].s) && Synced(sb, at[0].s)
    ensures Good(sb, at[k].s) && Synced(sb, at[k].s)
  {
    hide Owned, FileOk, Content, OnlyFile, Took, InPlace, Synced;
    if k > 0 {
      RunSynced(sb, ops, at, k - 1);
      assert Step(sb, at[k - 1], at[k - 1 + 1], ops[k - 1]);
    }
  }

  /** The commit of e is cut off after k requests, any number of recoveries after it, and one completes. */
  ghost predicate Recovers(sb: Super, e: At, tr: seq<Io>, k: nat, boots: seq<Disk>, final: Disk) {
    && Ready(sb.g, e.d, e.s.v, e.s.lh) && CommitTrace(sb.g, e.s.v, e.s.lh, tr) && k <= |tr|
    && RecoveryChain(sb.g, boots) && boots[0] == ApplyAll(e.d, tr[..k])
    && FullRecovery(sb.g, boots[|boots| - 1], final) && |final| == sb.g.size
  }

  /** The volume e, sound and with its inodes on the disk, each file as ops made it from s0. */
  ghost predicate Fulfilled(sb: Super, s0: Snap, ops: seq<Op>, e: Snap, final: Disk)
    requires Good(sb, s0)
  {
    && |final| == sb.g.size && Good(sb, e.(v := final)) && Synced(sb, e.(v := final))
    && forall n: nat :: n < sb.ninodes && FileOk(sb, s0.v, s0.ino, n) ==>
         FileOk(sb, final, e.ino, n) && Content(sb, final, e.ino, n) == After(ops, n, Content(sb, s0.v, s0.ino, n))
  }

  /** Any transaction of writes and truncations whose commit header reached the disk: after any
      recovery the volume is the cached one, and every file holds what the calls made of it. */
  lemma CommittedTransaction(sb: Super, ops: seq<Op>, at: seq<At>, tr: seq<Io>, k: nat, boots: seq<Disk>, final: Disk)
    requires Run(sb, ops, at) && Good(sb, at[0].s) && Synced(sb, at[0].s)
    requires Recovers(sb, at[|ops|], tr, k, boots, final) && k > |at[|ops|].s.lh| + 1
    ensures Fulfilled(sb, at[0].s, ops, at[|ops|].s, final)
  {
    hide Owned, Ready, CommitTrace, RecoveryChain, FullRecovery, FileOk, Content, Dinode, Step, After, Synced;
    var s0, e := at[0].s, at[|ops|];
    RunSynced(sb, ops, at, |ops|);
    RecoveredVolume(sb, e.d, e.s, tr, k, boots, final);
    forall n: nat | n < sb.ninodes && FileOk(sb, s0.v, s0.ino, n)
      ensures FileOk(sb, final, e.s.ino, n)
      ensures Content(sb, final, e.s.ino, n) == After(ops, n, Content(sb, s0.v, s0.ino, n))
    {
      RunCached(sb, ops, at, |ops|, n);
      assert ops[..|ops|] == ops;
    }
  }

  /** Direct writes leave the inodes on the disk alone. */
  lemma InodeStep(sb: Super, a: At, b: At, op: Op, n: nat)
    requires Step(sb, a, b, op) && n < sb.ninodes
    ensures Dinode(sb, b.d, n) == Dinode(sb, a.d, n)
  {
    hide WriteDone, Took, TruncDone, Ref, InUse, GetInode;
    InodeBlockHome(sb, n);
  }

  lemma {:induction false} RunInodes(sb: Super, ops: seq<Op>, at: seq<At>, k: nat, n: nat)
    requires Run(sb, ops, at) && k <= |ops| && n < sb.ninodes && SuperOk(sb) && |at[0].d| == sb.g.size
    ensures |at[k].d| == sb.g.size && Dinode(sb, at[k].d, n) == Dinode(sb, at[0].d, n)
  {
    hide Step, Dinode;
    if k > 0 {
      RunInodes(sb, ops, at, k - 1, n);
      assert Step(sb, at[k - 1], at[k - 1 + 1], ops[k - 1]);
      StepSizes(sb, at[k - 1], at[k], ops[k - 1]);
      InodeStep(sb, at[k - 1], at[k], ops[k - 1], n);
    }
  }

  /** Every byte of the new contents past the end of the old ones was written by some call. */
  ghost predicate NothingStale(ops: seq<Op>, n: nat, c: seq<bv8>) {
    forall p: nat :: |c| <= p < |After(ops, n, c)| ==> IsLast(ops, n, p, After(ops, n, c)[p])
  }

  lemma RunNothingStale(sb: Super, ops: seq<Op>, at: seq<At>, n: nat)
    requires Run(sb, ops, at) && n < sb.ninodes && Good(sb, at[0].s) && FileOk(sb, at[0].s.v, at[0].s.ino, n)
    ensures NothingStale(ops, n, Content(sb, at[0].s.v, at[0].s.ino, n))
  {
    hide Step, Owned, FileOk, FileBytes, After, IsLast, InReach;
    var c := Content(sb, at[0].s.v, at[0].s.ino, n);
    forall i | 0 <= i < |ops| ensures InReach(ops, n, c, i) { RunInReach(sb, ops, at, n, i); }
    forall p: nat | |c| <= p < |After(ops, n, c)|
      ensures IsLast(ops, n, p, After(ops, n, c)[p])
    {
      ByteOrigin(ops, n, c, p);
    }
  }

  /** Ordered mode.  Wherever the crash came, a file that recovery shows longer than at the last commit
      holds what the calls made of it, and each byte past its old end was written by one of them. */
  lemma OrderedData(sb: Super, ops: seq<Op>, at: seq<At>, tr: seq<Io>, k: nat, boots: seq<Disk>, final: Disk, n: nat)
    requires Run(sb, ops, at) && Good(sb, at[0].s) && Synced(sb, at[0].s)
    requires |at[0].d| == sb.g.size && HomeEqual(sb.g, at[0].d, at[0].s.v)
    requires Recovers(sb, at[|ops|], tr, k, boots, final)
    requires n < sb.ninodes && FileOk(sb, at[0].s.v, at[0].s.ino, n)
    requires Dinode(sb, final, n).size > at[0].s.ino[n].size
    ensures Fulfilled(sb, at[0].s, ops, at[|ops|].s, final) && Dinode(sb, final, n) == at[|ops|].s.ino[n]
    ensures NothingStale(ops, n, Content(sb, at[0].s.v, at[0].s.ino, n))
  {
    hide Owned, Ready, CommitTrace, RecoveryChain, FullRecovery, FileOk, Content, Dinode, Step, Fulfilled, NothingStale;
    var s0, e := at[0].s, at[|ops|];
    RunSynced(sb, ops, at, |ops|);
    RecoveredVolume(sb, e.d, e.s, tr, k, boots, final);
    RunInodes(sb, ops, at, |ops|, n);
    HomeKeeps(sb, s0, at[0].d);
    CommittedTransaction(sb, ops, at, tr, k, boots, final);
    RunNothingStale(sb, ops, at, n);
  }

  // ----- What stays of the last committed volume

  /** Inode blocks, bitmap and index blocks of the volume s0 are as they were. */
  ghost predicate Kept(sb: Super, s0: Snap, d: Disk) {
    && |d| == sb.g.size == |s0.v|
    && (forall x: nat :: sb.inodestart <= x < sb.dataStart ==> x < |d| && d[x] == s0.v[x])
    && (forall b: nat :: b < |d| && b in s0.owner && s0.owner[b].Index? ==> d[b] == s0.v[b])
  }

  lemma KeptGood(sb: Super, s0: Snap, d: Disk)
    requires Good(sb, s0) && Kept(sb, s0, d)
    ensures Good(sb, s0.(v := d))
    ensures forall t :: ValidSlot(sb, t) ==> Ref(sb, d, s0.ino, t) == Ref(sb, s0.v, s0.ino, t)
    ensures forall n: nat :: n < sb.ninodes ==> Dinode(sb, d, n) == Dinode(sb, s0.v, n)
  {
    hide Ref, InUse, GetInode;
    OwnedFrame(sb, s0.v, s0.ino, s0.owner, d);
    forall n: nat | n < sb.ninodes ensures Dinode(sb, d, n) == Dinode(sb, s0.v, n) { InodeBlockHome(sb, n); }
  }

  /** Block x holds data of a regular file; types do not change, so s0 tells them. */
  ghost predicate FileData(s0: Snap, owner: map<nat, Slot>, x: nat) {
    x in owner && !owner[x].Index? && owner[x].inum < |s0.ino| && s0.ino[owner[x].inum].typ != T_DIR
  }

  /** After ops: files not truncated still have their blocks, those of truncated files hold no file
      data, and of the disk only data blocks have changed. */
  ghost predicate Holds(sb: Super, s0: Snap, ops: seq<Op>, a: At) {
    && Good(sb, s0) && Good(sb, a.s) && Kept(sb, s0, a.d)
    && (forall n: nat :: n < sb.ninodes ==> a.s.ino[n].typ == s0.ino[n].typ)
    && (forall b :: b in s0.owner && !Truncated(ops, s0.owner[b].inum) ==>
          b in a.s.owner && a.s.owner[b] == s0.owner[b])
    && (forall b :: b in s0.owner && Truncated(ops, s0.owner[b].inum) ==> !FileData(s0, a.s.owner, b))
    && (forall b :: b in s0.owner && FileData(s0, s0.owner, b) && !Truncated(ops, s0.owner[b].inum) && b < |a.d| ==>
          a.d[b] == a.s.v[b])
  }

  lemma HoldsStart(sb: Super, s0: Snap, d0: Disk)
    requires Good(sb, s0) && |d0| == sb.g.size && HomeEqual(sb.g, d0, s0.v)
    ensures Holds(sb, s0, [], At(s0, d0))
  {
    hide InUse, Ref;
    DataIsNotInode(sb, s0.v, s0.ino, s0.owner);
  }

  lemma TypesStep(sb: Super, a: At, b: At, op: Op, n: nat)
    requires Step(sb, a, b, op) && n < sb.ninodes
    ensures b.s.ino[n].typ == a.s.ino[n].typ
  {
    hide Owned, FileBytes, Mapped, Dinode, Written, Took, InPlace;
  }

  /** The disk blocks a write to a regular file changes are its own. */
  lemma WriteTouches(sb: Super, s0: Snap, ops: seq<Op>, a: At, b: At, op: Op, x: nat)
    requires Holds(sb, s0, ops, a) && Step(sb, a, b, op) && FreshTargets(sb, s0, a, b, op)
    requires x < sb.g.size && b.d[x] != a.d[x]
    ensures op.Write? && FileBlock(b.s.owner, op.inum, x) && IsData(sb, x)
    ensures x in s0.owner ==> s0.owner[x].inum == op.inum && !s0.owner[x].Index? && !Truncated(ops, op.inum)
  {
    hide Ref, InUse, WriteDone, TruncDone, Lowest, Kept;
  }

  lemma OwnersStep(sb: Super, s0: Snap, ops: seq<Op>, a: At, b: At, op: Op, x: nat)
    requires Holds(sb, s0, ops, a) && Step(sb, a, b, op) && FreshTargets(sb, s0, a, b, op) && x in s0.owner
    ensures !Truncated(ops + [op], s0.owner[x].inum) ==> x in b.s.owner && b.s.owner[x] == s0.owner[x]
    ensures Truncated(ops + [op], s0.owner[x].inum) ==> !FileData(s0, b.s.owner, x)
  {
    hide Ref, InUse, WriteDone, OnlyFile, Lowest, Kept, InPlace, Owned, Synced;
    TruncatedMore(ops, op, s0.owner[x].inum);
    TypesStep(sb, a, b, op, op.inum);
    if op.Write? && x in b.s.owner && x !in a.s.owner { assert SlotFor(b.s.owner[x], op.inum, op.off, |op.src|); }
  }

  /** A data block that survives is on the disk as in the cache. */
  lemma DataStep(sb: Super, s0: Snap, ops: seq<Op>, a: At, b: At, op: Op, x: nat)
    requires Holds(sb, s0, ops, a) && Step(sb, a, b, op) && x < sb.g.size
    requires x in s0.owner && FileData(s0, s0.owner, x) && !Truncated(ops + [op], s0.owner[x].inum)
    ensures b.d[x] == b.s.v[x]
  {
    hide Ref, InUse, WriteDone, OnlyFile, Lowest, Kept, Synced;
    TruncatedMore(ops, op, s0.owner[x].inum);
    assert IsData(sb, x);
    assert a.s.owner[x] == s0.owner[x] && a.d[x] == a.s.v[x];
  }

  lemma KeptStep(sb: Super, s0: Snap, ops: seq<Op>, a: At, b: At, op: Op)
    requires Holds(sb, s0, ops, a) && Step(sb, a, b, op) && FreshTargets(sb, s0, a, b, op)
    ensures Kept(sb, s0, b.d)
  {
    assert Kept(sb, s0, a.d);
    hide Holds, Step, FreshTargets;
    forall x: nat | x < sb.g.size && b.d[x] != a.d[x] ensures IsData(sb, x) && !(x in s0.owner && s0.owner[x].Index?) {
      WriteTouches(sb, s0, ops, a, b, op, x);
    }
    assert |b.d| == sb.g.size by { StepSizes(sb, a, b, op); }
  }

  lemma StepSizes(sb: Super, a: At, b: At, op: Op)
    requires Step(sb, a, b, op)
    ensures Good(sb, a.s) && Good(sb, b.s) && |a.d| == |b.d| == sb.g.size && op.inum < sb.ninodes
  {}

  lemma HoldsStep(sb: Super, s0: Snap, ops: seq<Op>, a: At, b: At, op: Op)
    requires Holds(sb, s0, ops, a) && Step(sb, a, b, op) && FreshTargets(sb, s0, a, b, op)
    ensures Holds(sb, s0, ops + [op], b)
  {
    StepSizes(sb, a, b, op);
    KeptStep(sb, s0, ops, a, b, op);
    forall n: nat | n < sb.ninodes ensures b.s.ino[n].typ == s0.ino[n].typ { TypesStep(sb, a, b, op, n); }
    hide Step, FreshTargets, Kept, Truncated, Owned;
    forall x | x in s0.owner
      ensures !Truncated(ops + [op], s0.owner[x].inum) ==> x in b.s.owner && b.s.owner[x] == s0.owner[x]
      ensures Truncated(ops + [op], s0.owner[x].inum) ==> !FileData(s0, b.s.owner, x)
    {
      OwnersStep(sb, s0, ops, a, b, op, x);
    }
    forall x | x in s0.owner && FileData(s0, s0.owner, x) && !Truncated(ops + [op], s0.owner[x].inum) && x < |b.d|
      ensures b.d[x] == b.s.v[x]
    {
      DataStep(sb, s0, ops, a, b, op, x);
    }
  }

  // ----- The files

  /** File n of the last committed volume, as the disk shows it. */
  ghost predicate FileShown(sb: Super, s0: Snap, ops: seq<Op>, d: Disk, n: nat)
    requires Good(sb, s0) && |d| == sb.g.size && n < sb.ninodes && FileOk(sb, s0.v, s0.ino, n)
  {
    var c := Content(sb, s0.v, s0.ino, n);
    FileOk(sb, d, s0.ino, n) && Content(sb, d, s0.ino, n) == OnDisk(ops, s0.ino[n].typ, n, c)
  }

  /** Blocks of file n that do not change on the disk leave its old contents alone. */
  lemma SameOnDisk(sb: Super, s0: Snap, d: Disk, d': Disk, n: nat)
    requires Good(sb, s0) && Kept(sb, s0, d) && Kept(sb, s0, d') && n < sb.ninodes && FileOk(sb, d, s0.ino, n)
    requires forall x: nat :: x < |d| && x in s0.owner && s0.owner[x].inum == n && !s0.owner[x].Index? ==> d'[x] == d[x]
    ensures FileOk(sb, d', s0.ino, n) && Content(sb, d', s0.ino, n) == Content(sb, d, s0.ino, n)
  {
    hide Ref, InUse, FileBytes, Kept;
    KeptGood(sb, s0, d);
    KeptGood(sb, s0, d');
    forall bn | 0 <= bn < MAXFILE && bn * BSIZE < s0.ino[n].size
      ensures Ref(sb, d', s0.ino, SlotOf(n, bn)) == Ref(sb, d, s0.ino, SlotOf(n, bn))
      ensures d'[Ref(sb, d, s0.ino, SlotOf(n, bn))] == d[Ref(sb, d, s0.ino, SlotOf(n, bn))]
    {
      SlotOfValid(sb, n, bn);
    }
    BytesFrame(sb, d, s0.ino, d', s0.ino, n, s0.ino[n].size);
  }

  /** A file that still has its blocks shows on the disk as much of its cached contents as it had. */
  lemma CacheOnDisk(sb: Super, s0: Snap, ops: seq<Op>, a: At, n: nat)
    requires Holds(sb, s0, ops, a) && n < sb.ninodes && !Truncated(ops, n) && s0.ino[n].typ != T_DIR
    requires FileOk(sb, s0.v, s0.ino, n) && FileOk(sb, a.s.v, a.s.ino, n) && a.s.ino[n].size >= s0.ino[n].size
    ensures FileOk(sb, a.d, s0.ino, n)
    ensures Content(sb, a.d, s0.ino, n) == Content(sb, a.s.v, a.s.ino, n)[..s0.ino[n].size]
  {
    hide Ref, InUse, FileBytes, Kept;
    KeptGood(sb, s0, a.d);
    var size := s0.ino[n].size;
    BytesPrefix(sb, a.s.v, a.s.ino, n, size, a.s.ino[n].size);
    forall bn | 0 <= bn < MAXFILE && bn * BSIZE < size
      ensures Ref(sb, a.d, s0.ino, SlotOf(n, bn)) == Ref(sb, a.s.v, a.s.ino, SlotOf(n, bn))
      ensures a.d[Ref(sb, a.s.v, a.s.ino, SlotOf(n, bn))] == a.s.v[Ref(sb, a.s.v, a.s.ino, SlotOf(n, bn))]
    {
      SlotOfValid(sb, n, bn);
      var b := Ref(sb, s0.v, s0.ino, SlotOf(n, bn));
      assert b in s0.owner && s0.owner[b] == SlotOf(n, bn);
    }
    BytesFrame(sb, a.s.v, a.s.ino, a.d, s0.ino, n, size);
  }

  lemma BytesPrefix(sb: Super, v: Disk, ino: seq<Inode>, inum: nat, short: nat, len: nat)
    requires TableOk(sb, v, ino) && inum < sb.ninodes && Mapped(sb, v, ino, inum, len) && short <= len
    ensures Mapped(sb, v, ino, inum, short)
    ensures FileBytes(sb, v, ino, inum, short) == FileBytes(sb, v, ino, inum, len)[..short]
  {
    hide Ref;
  }

  lemma Untouched(sb: Super, s0: Snap, ops: seq<Op>, a: At, b: At, op: Op, n: nat, x: nat)
    requires Holds(sb, s0, ops, a) && Step(sb, a, b, op) && FreshTargets(sb, s0, a, b, op) && n < sb.ninodes
    requires !(op.Write? && op.inum == n && !Truncated(ops, n) && s0.ino[n].typ != T_DIR)
    requires x < sb.g.size && x in s0.owner && s0.owner[x].inum == n
    ensures b.d[x] == a.d[x]
  {
    hide Owned, WriteDone, TruncDone, Took, InPlace, Kept, FreshTargets;
    if b.d[x] != a.d[x] {
      WriteTouches(sb, s0, ops, a, b, op, x);
      assert false;
    }
  }

  lemma FileStep(sb: Super, s0: Snap, ops: seq<Op>, a: At, b: At, op: Op, n: nat)
    requires Holds(sb, s0, ops, a) && Step(sb, a, b, op) && FreshTargets(sb, s0, a, b, op) && n < sb.ninodes
    requires FileOk(sb, s0.v, s0.ino, n) && |a.d| == sb.g.size && FileShown(sb, s0, ops, a.d, n)
    requires Good(sb, b.s) && FileOk(sb, b.s.v, b.s.ino, n)
    requires Content(sb, b.s.v, b.s.ino, n) == After(ops + [op], n, Content(sb, s0.v, s0.ino, n))
    ensures |b.d| == sb.g.size && FileShown(sb, s0, ops + [op], b.d, n)
  {
    StepSizes(sb, a, b, op);
    HoldsStep(sb, s0, ops, a, b, op);
    hide Step, FreshTargets, Kept, Owned, Truncated, FileBytes, Mapped, Shown, After;
    var c := Content(sb, s0.v, s0.ino, n);
    TruncatedMore(ops, op, n);
    ShownMore(ops, op, n, c);
    if !Truncated(ops + [op], n) { ShownIsAfter(ops + [op], n, c); }
    if op.Write? && op.inum == n && !Truncated(ops, n) && s0.ino[n].typ != T_DIR {
      CacheOnDisk(sb, s0, ops + [op], b, n);
    } else {
      forall x: nat | x < |a.d| && x in s0.owner && s0.owner[x].inum == n && !s0.owner[x].Index?
        ensures b.d[x] == a.d[x]
      {
        Untouched(sb, s0, ops, a, b, op, n, x);
      }
      SameOnDisk(sb, s0, a.d, b.d, n);
    }
  }

  ghost predicate AllFresh(sb: Super, ops: seq<Op>, at: seq<At>)
    requires Run(sb, ops, at)
  {
    forall k :: 0 <= k < |ops| ==> FreshTargets(sb, at[0].s, at[k], at[k + 1], ops[k])
  }

  lemma RunStep(sb: Super, ops: seq<Op>, at: seq<At>, k: nat)
    requires Run(sb, ops, at) && AllFresh(sb, ops, at) && k < |ops|
    ensures |at| == |ops| + 1 && Good(sb, at[k].s) && ops[k].inum < sb.ninodes
    ensures Step(sb, at[k], at[k + 1], ops[k]) && FreshTargets(sb, at[0].s, at[k], at[k + 1], ops[k])
    ensures ops[..k] + [ops[k]] == ops[..k + 1]
  {
    hide Owned, WriteDone, TruncDone, Took, InPlace, FreshTargets;
    assert Step(sb, at[k], at[k + 1], ops[k]);
    assert FreshTargets(sb, at[0].s, at[k], at[k + 1], ops[k]);
  }

  lemma {:induction false} RunHolds(sb: Super, ops: seq<Op>, at: seq<At>, k: nat)
    requires Run(sb, ops, at) && AllFresh(sb, ops, at) && k <= |ops|
    requires Good(sb, at[0].s) && |at[0].d| == sb.g.size && HomeEqual(sb.g, at[0].d, at[0].s.v)
    ensures Holds(sb, at[0].s, ops[..k], at[k])
    ensures Good(sb, at[k].s) && Kept(sb, at[0].s, at[k].d) && |at[k].d| == sb.g.size
  {
    hide Step, FreshTargets, Holds, Owned, AllFresh, Kept;
    if k == 0 {
      HoldsStart(sb, at[0].s, at[0].d);
      assert ops[..0] == [];
    } else {
      RunHolds(sb, ops, at, k - 1);
      RunStep(sb, ops, at, k - 1);
      HoldsStep(sb, at[0].s, ops[..k - 1], at[k - 1], at[k], ops[k - 1]);
    }
    HoldsSizes(sb, at[0].s, ops[..k], at[k]);
  }

  lemma HoldsSizes(sb: Super, s0: Snap, ops: seq<Op>, a: At)
    requires Holds(sb, s0, ops, a)
    ensures Good(sb, s0) && Good(sb, a.s) && Kept(sb, s0, a.d) && |a.d| == sb.g.size
  {}

  lemma {:induction false} RunShows(sb: Super, ops: seq<Op>, at: seq<At>, k: nat, n: nat)
    requires Run(sb, ops, at) && AllFresh(sb, ops, at) && k <= |ops| && n < sb.ninodes
    requires Good(sb, at[0].s) && |at[0].d| == sb.g.size && HomeEqual(sb.g, at[0].d, at[0].s.v)
    requires FileOk(sb, at[0].s.v, at[0].s.ino, n)
    ensures |at[k].d| == sb.g.size && FileShown(sb, at[0].s, ops[..k], at[k].d, n)
  {
    hide Step, FreshTargets, Holds, Owned, FileShown, Mapped, Kept, AllFresh, After;
    if k == 0 {
      assert ops[..0] == [];
      StartShows(sb, at[0].s, at[0].d, n);
    } else {
      RunHolds(sb, ops, at, k - 1);
      RunShows(sb, ops, at, k - 1, n);
      RunStep(sb, ops, at, k - 1);
      RunCached(sb, ops, at, k, n);
      FileStep(sb, at[0].s, ops[..k - 1], at[k - 1], at[k], ops[k - 1], n);
    }
  }

  lemma StartShows(sb: Super, s0: Snap, d0: Disk, n: nat)
    requires Good(sb, s0) && |d0| == sb.g.size && HomeEqual(sb.g, d0, s0.v) && n < sb.ninodes
    requires FileOk(sb, s0.v, s0.ino, n)
    ensures FileShown(sb, s0, [], d0, n)
  {
    hide Owned, FileBytes, Mapped;
    HomeKeeps(sb, s0, d0);
  }

  /** The volume s0, sound and with its inodes on the disk, each file as direct writes of ops show it. */
  ghost predicate Survives(sb: Super, s0: Snap, ops: seq<Op>, final: Disk)
    requires Good(sb, s0)
  {
    && |final| == sb.g.size && Good(sb, s0.(v := final)) && Synced(sb, s0.(v := final))
    && forall n: nat :: n < sb.ninodes && FileOk(sb, s0.v, s0.ino, n) ==>
         && FileOk(sb, final, s0.ino, n)
         && Content(sb, final, s0.ino, n) == OnDisk(ops, s0.ino[n].typ, n, Content(sb, s0.v, s0.ino, n))
  }

  /** Any transaction of writes and truncations whose commit header never reached the disk.  If every
      data block it took was free at the last commit, recovery shows the last committed volume, sound
      and with its inodes; every file has its old size and its old contents, written over in place by
      the writes made to it before its first truncation, and a file not written is as it was. */
  lemma LostTransaction(sb: Super, ops: seq<Op>, at: seq<At>, tr: seq<Io>, k: nat, boots: seq<Disk>, final: Disk)
    requires Run(sb, ops, at) && AllFresh(sb, ops, at) && Good(sb, at[0].s) && Synced(sb, at[0].s)
    requires |at[0].d| == sb.g.size && HomeEqual(sb.g, at[0].d, at[0].s.v)
    requires Recovers(sb, at[|ops|], tr, k, boots, final) && k <= |at[|ops|].s.lh| + 1
    ensures Survives(sb, at[0].s, ops, final)
  {
    hide Owned, Covered, Cleared, GoodLog, CommitTrace, RecoveryChain, FullRecovery, FileOk, Dinode, Step, AllFresh,
      Survives;
    var e := at[|ops|];
    CrashAtomic(sb.g, e.d, e.s.v, e.s.lh, tr, k, boots, final);
    DiskSurvives(sb, ops, at, final);
  }

  /** A disk with the home blocks of the last one of a run. */
  lemma DiskSurvives(sb: Super, ops: seq<Op>, at: seq<At>, final: Disk)
    requires Run(sb, ops, at) && AllFresh(sb, ops, at) && Good(sb, at[0].s) && Synced(sb, at[0].s)
    requires |at[0].d| == sb.g.size && HomeEqual(sb.g, at[0].d, at[0].s.v)
    requires |final| == |at[|ops|].d| == sb.g.size && HomeEqual(sb.g, final, at[|ops|].d)
    ensures Survives(sb, at[0].s, ops, final)
  {
    hide Owned, FileOk, FileBytes, GetInode, Dinode, Step, Holds, Kept, AllFresh, FreshTargets, OnDisk, Ref, Cleared;
    var s0, e := at[0].s, at[|ops|];
    RunHolds(sb, ops, at, |ops|);
    assert ops[..|ops|] == ops;
    KeptGood(sb, s0, e.d);
    HomeKeeps(sb, s0.(v := e.d), final);
    forall n: nat | n < sb.ninodes && FileOk(sb, s0.v, s0.ino, n)
      ensures FileOk(sb, final, s0.ino, n)
      ensures Content(sb, final, s0.ino, n) == OnDisk(ops, s0.ino[n].typ, n, Content(sb, s0.v, s0.ino, n))
    {
      RunShows(sb, ops, at, |ops|, n);
    }
  }

  // ----- A crash in the middle of a call

  /** The data blocks a write has taken so far for a regular file were free at the last commit. */
  ghost predicate FreshSoFar(s0: Snap, a: Snap, n: nat, m: Moment) {
    n < |a.ino| && a.ino[n].typ != T_DIR ==>
      forall x :: x in m.s.owner && x !in a.owner && !m.s.owner[x].Index? ==> x !in s0.owner
  }

  /** The header block is no file's. */
  lemma MidwayCleared(sb: Super, e: At, n: nat, src: seq<bv8>, off: nat, m: Moment)
    requires Midway(sb, e.s, e.d, m.s, m.d, n, src, off, m.tot, m.gained) && Good(sb, e.s) && Good(sb, m.s)
    requires n < sb.ninodes && |e.d| == sb.g.size && Cleared(sb.g, e.d)
    ensures |m.d| == sb.g.size && Cleared(sb.g, m.d)
  {
    hide Copied, Took, HeadOk, ReadHead, Ref, InUse;
    var h := sb.g.start;
    assert !FileBlock(m.s.owner, n, h);
  }

  /** The run with what one more call got done as its last step. */
  lemma PartRun(sb: Super, ops: seq<Op>, at: seq<At>, n: nat, src: seq<bv8>, off: nat, m: Moment)
      returns (ops': seq<Op>, at': seq<At>)
    requires Run(sb, ops, at) && AllFresh(sb, ops, at) && Good(sb, at[0].s) && |at[|ops|].d| == sb.g.size
    requires Midway(sb, at[|ops|].s, at[|ops|].d, m.s, m.d, n, src, off, m.tot, m.gained) && |m.d| == sb.g.size
    requires FreshSoFar(at[0].s, at[|ops|].s, n, m)
    ensures m.tot <= |src| && ops' == ops + [Op.Write(n, src[..m.tot], off)]
    ensures Run(sb, ops', at') && AllFresh(sb, ops', at') && at'[0] == at[0] && at'[|ops'|].d == m.d
  {
    hide Owned, Step, FreshTargets, Midway;
    var e := at[|ops|];
    var s' := FinishPart(sb, e.s, e.d, m.s, m.d, n, src, off, m.tot, m.gained);
    var op := Op.Write(n, src[..m.tot], off);
    ops', at' := ops + [op], at + [At(s', m.d)];
    PartStep(sb, e, At(s', m.d), op, at[0].s, m);
    forall k | 0 <= k < |ops'|
      ensures Step(sb, at'[k], at'[k + 1], ops'[k])
      ensures Good(sb, at'[k].s) && ops'[k].inum < sb.ninodes && FreshTargets(sb, at'[0].s, at'[k], at'[k + 1], ops'[k])
    {
      if k < |ops| { RunStep(sb, ops, at, k); }
    }
  }

  lemma PartStep(sb: Super, a: At, b: At, op: Op, s0: Snap, m: Moment)
    requires op.Write? && |a.d| == |b.d| == sb.g.size && WriteDone(sb, a.s, b.s, op.inum, op.src, op.off)
    requires Took(sb, a.s, b.s, op.inum, op.off, |op.src|)
    requires if a.s.ino[op.inum].typ == T_DIR then b.d == a.d else InPlace(a.s, a.d, b.s, b.d, op.inum)
    requires b.s.owner == m.s.owner && FreshSoFar(s0, a.s, op.inum, m)
    ensures Step(sb, a, b, op) && FreshTargets(sb, s0, a, b, op)
  {
    hide Owned, Took, InPlace, FileOk, Content, OnlyFile;
  }

  /** The machine stops inside a write, after any of its direct block writes: the same holds, with the
      bytes that call had got through as its last write. */
  lemma LostInWrite(sb: Super, ops: seq<Op>, at: seq<At>, n: nat, src: seq<bv8>, off: nat, m: Moment,
                    boots: seq<Disk>, final: Disk)
    requires Run(sb, ops, at) && AllFresh(sb, ops, at) && Good(sb, at[0].s) && Synced(sb, at[0].s)
    requires |at[0].d| == sb.g.size && HomeEqual(sb.g, at[0].d, at[0].s.v)
    requires |at[|ops|].d| == sb.g.size && Cleared(sb.g, at[|ops|].d)
    requires Midway(sb, at[|ops|].s, at[|ops|].d, m.s, m.d, n, src, off, m.tot, m.gained)
    requires FreshSoFar(at[0].s, at[|ops|].s, n, m)
    requires RecoveryChain(sb.g, boots) && boots[0] == m.d && FullRecovery(sb.g, boots[|boots| - 1], final)
    ensures m.tot <= |src| && Survives(sb, at[0].s, ops + [Op.Write(n, src[..m.tot], off)], final)
  {
    hide Owned, Step, AllFresh, Copied, Took, InPlace, PartialRecovery, FullRecovery, Survives, Cleared, Synced,
      FreshSoFar;
    var e := at[|ops|];
    CopiedGood(sb, e.s, m.s, n, src, off, m.tot, m.gained);
    MidwayCleared(sb, e, n, src, off, m);
    ClearedChain(sb.g, boots, final);
    var ops', at' := PartRun(sb, ops, at, n, src, off, m);
    DiskSurvives(sb, ops', at', final);
  }

  /** Recoveries of a cleared log change no home block. */
  lemma ClearedChain(g: Geometry, boots: seq<Disk>, final: Disk)
    requires GeometryOk(g) && RecoveryChain(g, boots) && FullRecovery(g, boots[|boots| - 1], final)
    requires |boots[0]| == g.size && Cleared(g, boots[0])
    ensures |final| == g.size && HomeEqual(g, final, boots[0])
  {
    hide PartialRecovery, FullRecovery, HeadOk, ReadHead;
    var d := boots[0];
    assert Ready(g, d, d, []) && Uncommitted(g, d, d);
    ChainKeeps(g, d, d, [], boots);
    FullRecoveryFinishes(g, d, d, [], boots[|boots| - 1], final);
  }

  /** A file no call wrote is shown unchanged. */
  lemma {:induction false} NotWritten(ops: seq<Op>, typ: nat, n: nat, c: seq<bv8>)
    requires forall k :: 0 <= k < |ops| && ops[k].Write? ==> ops[k].inum != n
    ensures Shown(ops, n, c) == c && OnDisk(ops, typ, n, c) == c
  {
    if ops != [] { NotWritten(ops[..|ops| - 1], typ, n, c); }
  }

  // ----- Which blocks may be written at once

  /** The last committed volume has bytes or block numbers in x. */
  ghost predicate Live(s0: Snap, x: nat) {
    && x in s0.owner && s0.owner[x].inum < |s0.ino|
    && (s0.owner[x].Index? || BnOf(s0.owner[x]) * BSIZE < s0.ino[s0.owner[x].inum].size)
  }

  /** The same volume: sound with the same owners, and every file with the same contents. */
  ghost predicate SameVolume(sb: Super, s0: Snap, v: Disk)
    requires Good(sb, s0)
  {
    && |v| == sb.g.size && Good(sb, s0.(v := v))
    && forall n: nat :: n < sb.ninodes && FileOk(sb, s0.v, s0.ino, n) ==>
         FileOk(sb, v, s0.ino, n) && Content(sb, v, s0.ino, n) == Content(sb, s0.v, s0.ino, n)
  }

  lemma DeadIsSafe(sb: Super, s0: Snap, x: nat, data: Block)
    requires Good(sb, s0) && IsData(sb, x) && !Live(s0, x)
    ensures SameVolume(sb, s0, s0.v[x := data])
  {
    var v := s0.v[x := data];
    assert Kept(sb, s0, v);
    KeptGood(sb, s0, v);
    hide Ref, InUse, FileBytes, Kept;
    forall n: nat | n < sb.ninodes && FileOk(sb, s0.v, s0.ino, n)
      ensures FileOk(sb, v, s0.ino, n) && Content(sb, v, s0.ino, n) == Content(sb, s0.v, s0.ino, n)
    {
      forall bn | 0 <= bn < MAXFILE && bn * BSIZE < s0.ino[n].size
        ensures Ref(sb, v, s0.ino, SlotOf(n, bn)) == Ref(sb, s0.v, s0.ino, SlotOf(n, bn))
        ensures v[Ref(sb, s0.v, s0.ino, SlotOf(n, bn))] == s0.v[Ref(sb, s0.v, s0.ino, SlotOf(n, bn))]
      {
        SlotOfValid(sb, n, bn);
      }
      BytesFrame(sb, s0.v, s0.ino, v, s0.ino, n, s0.ino[n].size);
    }
  }

  /** A byte of a file that changes on the disk, metadata being as it was, changes the file. */
  lemma OverwriteShows(sb: Super, s0: Snap, v: Disk, n: nat, bn: nat, j: nat)
    requires Good(sb, s0) && Kept(sb, s0, v) && n < sb.ninodes && FileOk(sb, s0.v, s0.ino, n)
    requires bn < MAXFILE && j < BSIZE && bn * BSIZE + j < s0.ino[n].size
    ensures Ref(sb, s0.v, s0.ino, SlotOf(n, bn)) < |v| && FileOk(sb, v, s0.ino, n)
    ensures var b := Ref(sb, s0.v, s0.ino, SlotOf(n, bn)); Content(sb, v, s0.ino, n)[bn * BSIZE + j] == v[b][j]
    ensures var b := Ref(sb, s0.v, s0.ino, SlotOf(n, bn));
      v[b][j] != s0.v[b][j] ==> Content(sb, v, s0.ino, n) != Content(sb, s0.v, s0.ino, n)
  {
    KeptGood(sb, s0, v);
    hide Owned, Ref, Kept;
    forall k: nat | k < MAXFILE ensures ValidSlot(sb, SlotOf(n, k)) { SlotOfValid(sb, n, k); }
    assert FileOk(sb, v, s0.ino, n);
    ByteAt(bn, j);
    assert Content(sb, s0.v, s0.ino, n)[bn * BSIZE + j] == s0.v[Ref(sb, s0.v, s0.ino, SlotOf(n, bn))][j];
  }

  lemma ByteAt(bn: nat, j: nat)
    requires j < BSIZE
    ensures (bn * BSIZE + j) / BSIZE == bn && (bn * BSIZE + j) % BSIZE == j
  {}

  /** An index block whose first word names the superblock belongs to no sound volume. */
  lemma BadIndex(sb: Super, v: Disk, ino: seq<Inode>, n: nat, owner: map<nat, Slot>)
    requires TableOk(sb, v, ino) && n < sb.ninodes && ino[n].addrs[NDIRECT] != 0
    requires Word(v[ino[n].addrs[NDIRECT]], 0) == 1
    ensures !Owned(sb, v, ino, owner)
  {
    hide InUse, Word;
    assert ValidSlot(sb, Leaf(n, 0)) && Ref(sb, v, ino, Leaf(n, 0)) == 1;
  }

  /** Storing data in block x of the disk is not seen in the last committed volume. */
  ghost predicate Harmless(sb: Super, s0: Snap, x: nat, data: Block)
    requires Good(sb, s0) && IsData(sb, x)
  {
    SameVolume(sb, s0, s0.v[x := data])
  }

  /** A direct write to data block x leaves the last committed volume alone, whatever it writes, exactly
      when x was free at the last commit or held nothing below its file's size. */
  lemma SafeTargetIff(sb: Super, s0: Snap, x: nat)
    requires Good(sb, s0) && IsData(sb, x)
    requires forall n: nat :: n < sb.ninodes ==> FileOk(sb, s0.v, s0.ino, n)
    ensures (forall data: Block :: Harmless(sb, s0, x, data)) <==> !Live(s0, x)
  {
    hide SameVolume;
    if Live(s0, x) {
      var data := HarmfulData(sb, s0, x);
      assert !Harmless(sb, s0, x, data);
    } else {
      forall data: Block ensures Harmless(sb, s0, x, data) { DeadIsSafe(sb, s0, x, data); }
    }
  }

  lemma HarmfulData(sb: Super, s0: Snap, x: nat) returns (data: Block)
    requires Good(sb, s0) && IsData(sb, x) && Live(s0, x)
    requires forall n: nat :: n < sb.ninodes ==> FileOk(sb, s0.v, s0.ino, n)
    ensures !SameVolume(sb, s0, s0.v[x := data])
  {
    hide Ref, InUse, SameVolume, FileOk, SetWord;
    assert ValidSlot(sb, s0.owner[x]) && Ref(sb, s0.v, s0.ino, s0.owner[x]) == x;
    hide Owned;
    if s0.owner[x].Index? {
      data := SetWord(Zeros(), 0, 1);
      HarmfulIndex(sb, s0, x, s0.owner[x].inum);
    } else {
      data := s0.v[x][0 := if s0.v[x][0] == 0 then 1 else 0];
      HarmfulByte(sb, s0, x, data);
    }
  }

  lemma HarmfulIndex(sb: Super, s0: Snap, x: nat, n: nat)
    requires Good(sb, s0) && IsData(sb, x) && n < sb.ninodes && Ref(sb, s0.v, s0.ino, Index(n)) == x
    ensures !SameVolume(sb, s0, s0.v[x := SetWord(Zeros(), 0, 1)])
  {
    hide Word, SetWord, InUse;
    WordOfSet(Zeros(), 0, 1);
    BadIndex(sb, s0.v[x := SetWord(Zeros(), 0, 1)], s0.ino, n, s0.owner);
  }

  lemma HarmfulByte(sb: Super, s0: Snap, x: nat, data: Block)
    requires Good(sb, s0) && IsData(sb, x) && Live(s0, x) && !s0.owner[x].Index? && data[0] != s0.v[x][0]
    requires ValidSlot(sb, s0.owner[x]) && Ref(sb, s0.v, s0.ino, s0.owner[x]) == x
    requires FileOk(sb, s0.v, s0.ino, s0.owner[x].inum)
    ensures !SameVolume(sb, s0, s0.v[x := data])
  {
    hide Owned, Ref, FileBytes, Mapped;
    var t := s0.owner[x];
    assert SlotOf(t.inum, BnOf(t)) == t;
    KeptButOne(sb, s0, x, data);
    OverwriteShows(sb, s0, s0.v[x := data], t.inum, BnOf(t), 0);
  }

  lemma KeptButOne(sb: Super, s0: Snap, x: nat, data: Block)
    requires Good(sb, s0) && IsData(sb, x) && !(x in s0.owner && s0.owner[x].Index?)
    ensures Kept(sb, s0, s0.v[x := data])
  {}
}

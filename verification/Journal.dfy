/** log.c as it runs: the in-memory header, the buffers it reads and the
    requests it sends. */
module Journal {
  import opened Blocks
  import opened LogHeader
  import opened CrashSafety
  import Crc32

  ghost function SlotWrites(g: Geometry, view: Disk, lh: seq<Entry>, t: nat): seq<Io>
    requires GeometryOk(g) && |view| == g.size && GoodLog(g, lh) && t <= |lh|
  {
    seq(t, i requires 0 <= i < t => SlotWrite(g, view, lh, i))
  }

  class Log {
    const g: Geometry
    const table: array<Crc32.Reg>

    /** The platter, with every request issued so far carried out in order. */
    var disk: Disk
    /** What bread returns for each block: the cached copy if there is one. */
    var view: Disk
    var lh: seq<Entry>
    var outstanding: nat
    var blocksInstalled: nat
    var checksumErrors: nat
    /** Every request sent to the drive since the machine booted. */
    var ios: seq<Io>

    ghost predicate Valid()
      reads this, table
    {
      && GeometryOk(g) && |disk| == |view| == g.size
      && Crc32.IsTable(table[..])
    }

    /** No commit is running: the invariant between system calls. */
    ghost predicate Quiet()
      reads this, table
    {
      && Valid()
      && Ready(g, disk, view, lh)
      && (forall b: nat :: IsLog(g, b) ==> view[b] == disk[b])
      && (forall i :: 0 <= i < |lh| ==> Storable(lh[i]))
    }

    /** initlog: build the checksum table, then recover_from_log on what the
        last run left on the disk, with nothing cached yet. */
    constructor (g: Geometry, d: Disk)
      requires GeometryOk(g) && Replayable(g, d)
      ensures Quiet() && fresh(table) && this.g == g && lh == [] && outstanding == 0
      ensures RecoverTrace(g, d, ios) && disk == ApplyAll(d, ios) && view == disk
    {
      this.g := g;
      disk, view := d, d;
      hide Crc32.IsTable, InstallIos, HeadOk, ReadHead, Cleared;
      ios := [];
      outstanding, blocksInstalled, checksumErrors := 0, 0, 0;
      var t := Crc32.InitTable();
      table := t;
      lh := [];
      new;
      var head := LogHeader.Load(view[g.start]);
      lh := head;
      InstallTrans();
      ghost var sent := ios;
      lh := [];
      WriteHead();
      assert ios == sent + [ios[|sent|]];
      ApplyLast(d, sent, ios[|sent|]);
      BootLeaves(g, d, ios);
    }

    /** bwrite: the whole buffer goes to the disk and stays in the cache. */
    method Bwrite(b: nat, data: Block)
      requires Valid() && b < g.size
      modifies this
      ensures Valid() && lh == old(lh) && outstanding == old(outstanding)
      ensures blocksInstalled == old(blocksInstalled) && checksumErrors == old(checksumErrors)
      ensures ios == old(ios) + [Write(b, data)]
      ensures disk == old(disk)[b := data] && view == old(view)[b := data]
    {
      disk := disk[b := data];
      view := view[b := data];
      ios := ios + [Write(b, data)];
    }

    /** One turn of the loop in install_trans. */
    method InstallEntry(tail: nat)
      requires Valid() && ReplayableLog(g, lh) && tail < |lh|
      modifies this
      ensures Valid() && lh == old(lh) && outstanding == old(outstanding)
      ensures var sent := InstallOne(g, old(view), lh, tail);
        && ios == old(ios) + sent
        && disk == ApplyAll(old(disk), sent) && view == ApplyAll(old(view), sent)
        && blocksInstalled == old(blocksInstalled) + |sent|
        && checksumErrors == old(checksumErrors) + 1 - |sent|
    {
      hide Crc32.Crc, Crc32.ReferenceCrc, Splice, Slice;
      var e := lh[tail];
      var lbuf := view[g.start + tail + 1];
      var dbuf := view[e.block];
      var computed := Crc32.Checksum(table, Slice(lbuf, e.off, e.len));
      Crc32.CrcIsReference(Slice(lbuf, e.off, e.len));
      if Crc32.Number(computed) != e.cksum {
        checksumErrors := checksumErrors + 1;
      } else {
        dbuf := Splice(dbuf, lbuf, e.off, e.len);
        Bwrite(e.block, dbuf);
        blocksInstalled := blocksInstalled + 1;
        ApplySingle(old(disk), Write(e.block, dbuf));
        ApplySingle(old(view), Write(e.block, dbuf));
      }
    }

    /** install_trans. */
    method InstallTrans()
      requires Valid() && ReplayableLog(g, lh)
      modifies this
      ensures Valid() && lh == old(lh) && outstanding == old(outstanding)
      ensures var sent := InstallIos(g, old(view), lh, |lh|);
        && ios == old(ios) + sent
        && disk == ApplyAll(old(disk), sent) && view == ApplyAll(old(view), sent)
        && blocksInstalled == old(blocksInstalled) + |sent|
        && checksumErrors == old(checksumErrors) + |lh| - |sent|
    {
      hide InstallOne;
      var tail := 0;
      while tail < |lh|
        invariant 0 <= tail <= |lh| && Valid() && lh == old(lh) && outstanding == old(outstanding)
        invariant var sent := InstallIos(g, old(view), lh, tail);
          && ios == old(ios) + sent
          && disk == ApplyAll(old(disk), sent) && view == ApplyAll(old(view), sent)
          && blocksInstalled == old(blocksInstalled) + |sent|
          && checksumErrors == old(checksumErrors) + tail - |sent|
      {
        ghost var sent := InstallIos(g, old(view), lh, tail);
        ghost var one := InstallOne(g, view, lh, tail);
        ApplyConcat(old(disk), sent, one);
        ApplyConcat(old(view), sent, one);
        InstallEntry(tail);
        assert old(ios) + sent + one == old(ios) + (sent + one);
        tail := tail + 1;
      }
    }

    /** write_head. */
    method WriteHead()
      requires Valid() && |lh| <= LOGSIZE && forall i :: 0 <= i < |lh| ==> Storable(lh[i])
      modifies this
      ensures Valid() && lh == old(lh) && outstanding == old(outstanding)
      ensures blocksInstalled == old(blocksInstalled) && checksumErrors == old(checksumErrors)
      ensures |ios| == |old(ios)| + 1 && ios[..|old(ios)|] == old(ios)
      ensures var io := ios[|old(ios)|];
        IsHeadWrite(g, io, lh) && disk == Apply(old(disk), io) && view == Apply(old(view), io)
    {
      var hb := LogHeader.Store(view[g.start], lh);
      Bwrite(g.start, hb);
    }

    /** One turn of the loop in write_log. */
    method LogEntry(tail: nat)
      requires Valid() && GoodLog(g, lh) && tail < |lh|
      modifies this
      ensures Valid() && outstanding == old(outstanding)
      ensures lh == old(lh)[tail := Sealed(old(view), old(lh))[tail]]
      ensures blocksInstalled == old(blocksInstalled) && checksumErrors == old(checksumErrors)
      ensures var io := SlotWrite(g, old(view), old(lh), tail);
        && ios == old(ios) + [io]
        && disk == Apply(old(disk), io) && view == Apply(old(view), io)
    {
      hide Crc32.Crc, Crc32.ReferenceCrc;
      assert GoodEntry(g, lh[tail]);
      var e := lh[tail];
      var to := view[g.start + tail + 1];
      var from := view[e.block];
      to := Splice(to, from, e.off, e.len);
      var ck := Crc32.Checksum(table, Slice(to, e.off, e.len));
      Crc32.CrcIsReference(Slice(to, e.off, e.len));
      assert Slice(to, e.off, e.len) == Slice(from, e.off, e.len);
      lh := lh[tail := e.(cksum := Crc32.Number(ck))];
      Bwrite(g.start + tail + 1, to);
    }

    /** write_log. */
    method WriteLog()
      requires Quiet()
      modifies this
      ensures Valid() && outstanding == old(outstanding)
      ensures lh == Sealed(old(view), old(lh))
      ensures blocksInstalled == old(blocksInstalled) && checksumErrors == old(checksumErrors)
      ensures var sent := SlotWrites(g, old(view), old(lh), |old(lh)|);
        && ios == old(ios) + sent
        && disk == ApplyAll(old(disk), sent) && view == ApplyAll(old(view), sent)
    {
      ghost var v0, l0 := view, lh;
      hide Cleared, Covered, Checksum, PartlySealed, ApplyAll, Apply, Crc32.IsTable, Splice, Slice, Storable;
      ApplyEmpty(disk);
      ApplyEmpty(view);
      var tail := 0;
      while tail < |lh|
        invariant 0 <= tail <= |l0| == |lh| && Valid() && outstanding == old(outstanding)
        invariant blocksInstalled == old(blocksInstalled) && checksumErrors == old(checksumErrors)
        invariant lh == PartlySealed(g, v0, l0, tail)
        invariant var sent := SlotWrites(g, v0, l0, tail);
          && ios == old(ios) + sent
          && disk == ApplyAll(old(disk), sent) && view == ApplyAll(v0, sent)
      {
        ghost var sent := SlotWrites(g, v0, l0, tail);
        SlotsAhead(g, v0, l0, view, tail);
        PartlySealedGood(g, v0, l0, tail);
        ghost var io := SlotWrite(g, v0, l0, tail);
        ApplyLast(old(disk), sent, io);
        ApplyLast(v0, sent, io);
        LogEntry(tail);
        assert SlotWrites(g, v0, l0, tail + 1) == sent + [io];
        assert old(ios) + sent + [io] == old(ios) + (sent + [io]);
        tail := tail + 1;
      }
    }

    /** One pass of the loop in begin_op; a process that is not admitted sleeps. */
    method BeginOp() returns (admitted: bool)
      requires Quiet()
      modifies this`outstanding
      ensures admitted <==> |lh| + (old(outstanding) + 1) * MAXOPBLOCKS <= LOGSIZE
      ensures outstanding == if admitted then old(outstanding) + 1 else old(outstanding)
      ensures Quiet()
    {
      admitted := |lh| + (outstanding + 1) * MAXOPBLOCKS <= LOGSIZE;
      if admitted { outstanding := outstanding + 1; }
    }

    /** end_op: the last operation out commits for the whole batch. */
    method EndOp()
      requires Quiet() && outstanding >= 1
      modifies this
      ensures Quiet() && outstanding == old(outstanding) - 1
      ensures HomeEqual(g, view, old(view))
      ensures outstanding > 0 ==> lh == old(lh)
      ensures outstanding == 0 ==> lh == [] && HomeEqual(g, disk, view)
      ensures |old(ios)| <= |ios| && ios[..|old(ios)|] == old(ios)
      ensures disk == ApplyAll(old(disk), ios[|old(ios)|..]) && view == ApplyAll(old(view), ios[|old(ios)|..])
      ensures outstanding == 0 && old(lh) != [] ==> CommitTrace(g, old(view), old(lh), ios[|old(ios)|..])
      ensures outstanding > 0 || old(lh) == [] ==> ios == old(ios) && disk == old(disk) && view == old(view)
    {
      hide Crc32.IsTable, Ready, CommitTrace, ApplyAll;
      assert ios[|ios|..] == [];
      ApplyEmpty(disk);
      ApplyEmpty(view);
      outstanding := outstanding - 1;
      if outstanding == 0 { Commit(); }
      assert ios == old(ios) ==> ios[|old(ios)|..] == [];
    }

    /** log_write; ok is false where the kernel panics. */
    method LogWrite(b: nat, off: nat, len: nat) returns (ok: bool)
      requires Valid() && GoodLog(g, lh) && IsHome(g, b) && off + len <= BSIZE
      requires forall i :: 0 <= i < |lh| ==> Storable(lh[i])
      modifies this`lh
      ensures ok <==> |old(lh)| < LOGSIZE && |old(lh)| < g.nlog - 1 && outstanding >= 1
      ensures !ok ==> lh == old(lh)
      ensures ok ==> lh == Absorb(old(lh), b, off, len) && GoodLog(g, lh)
      ensures forall i :: 0 <= i < |lh| ==> Storable(lh[i])
    {
      if |lh| >= LOGSIZE || |lh| >= g.nlog - 1 || outstanding < 1 {
        return false;
      }
      AbsorbGood(g, lh, b, off, len);
      var i := 0;
      while i < |lh| && lh[i].block != b
        invariant 0 <= i <= |lh| && forall k :: 0 <= k < i ==> lh[k].block != b
      {
        i := i + 1;
      }
      assert i == Find(lh, b);
      if i < |lh| {
        var oldEnd, newEnd := lh[i].off + lh[i].len, off + len;
        var minOff := if lh[i].off < off then lh[i].off else off;
        var maxEnd := if oldEnd > newEnd then oldEnd else newEnd;
        assert GoodEntry(g, lh[i]);
        lh := lh[i := lh[i].(off := minOff, len := maxEnd - minOff)];
      } else {
        lh := lh + [Entry(b, 0, off, len)];
      }
      ok := true;
    }

    /** The idiom of every metadata update in fs.c: change bytes off .. off + len
        of a buffer, then report that range to log_write. */
    method Update(b: nat, data: Block, off: nat, len: nat) returns (ok: bool)
      requires Quiet() && IsHome(g, b) && off + len <= BSIZE
      requires forall j :: 0 <= j < BSIZE && !(off <= j < off + len) ==> data[j] == view[b][j]
      modifies this
      ensures ok <==> |old(lh)| < LOGSIZE && |old(lh)| < g.nlog - 1 && outstanding >= 1
      ensures view == old(view)[b := data] && disk == old(disk) && outstanding == old(outstanding)
      ensures ok ==> Quiet() && lh == Absorb(old(lh), b, off, len)
      ensures !ok ==> lh == old(lh)
    {
      hide Crc32.IsTable, Absorb, Cleared;
      ghost var v0, l0 := view, lh;
      view := view[b := data];
      ok := LogWrite(b, off, len);
      if ok { UpdateCovered(g, disk, v0, l0, b, data, off, len); }
    }

    /** The idiom of file data in writei: change a buffer and bwrite it. */
    method WriteThrough(b: nat, data: Block)
      requires Quiet() && IsHome(g, b)
      modifies this
      ensures Quiet() && lh == old(lh) && outstanding == old(outstanding)
      ensures view == old(view)[b := data] && disk == old(disk)[b := data]
    {
      hide Crc32.IsTable, HeadOk, ReadHead;
      Bwrite(b, data);
      WriteCovered(g, old(disk), old(view), lh, b, data);
    }

    /** commit, in its four phases. */
    method Commit()
      requires Quiet()
      modifies this
      ensures Quiet() && lh == [] && outstanding == old(outstanding)
      ensures HomeEqual(g, view, old(view)) && HomeEqual(g, disk, view)
      ensures |old(ios)| <= |ios| && ios[..|old(ios)|] == old(ios)
      ensures disk == ApplyAll(old(disk), ios[|old(ios)|..]) && view == ApplyAll(old(view), ios[|old(ios)|..])
      ensures if old(lh) == [] then ios == old(ios)
              else CommitTrace(g, old(view), old(lh), ios[|old(ios)|..])
    {
      hide Cleared, Covered, CommitTrace, Sealed, InstallIos, SlotWrites, HomeWrites, IsHeadWrite, SlotWrite, ApplyAll,
        Crc32.IsTable, Storable;
      ghost var d0, v0, l0, s0 := disk, view, lh, ios;
      assert ios[|s0|..] == [];
      ApplyEmpty(d0);
      ApplyEmpty(v0);
      if |lh| > 0 {
        WriteLog();
        ghost var sent := SlotWrites(g, v0, l0, |l0|);
        ios := ios + [Flush];
        Extend(s0, d0, v0, sent, Flush);
        SealedStorable(g, v0, l0);
        WriteHead();
        ghost var head := ios[|s0| + |sent| + 1];
        Extend(s0, d0, v0, sent + [Flush], head);
        CacheReady(g, d0, v0, l0);
        InstallAfterCommit(g, v0, l0, head, view);
        ExtendMany(s0, d0, v0, sent + [Flush] + [head], HomeWrites(v0, l0, |l0|));
        InstallTrans();
        lh := [];
        WriteHead();
        ghost var clear := ios[|ios| - 1];
        Extend(s0, d0, v0, sent + [Flush] + [head] + HomeWrites(v0, l0, |l0|), clear);
        assert ios == s0 + CommitRequests(g, v0, l0, head, clear);
        CommitLeaves(g, d0, v0, l0, head, clear);
      } else {
        NothingLogged(g, disk, view);
      }
    }
  }

  /** An update whose changed bytes are all reported keeps the header covering. */
  lemma UpdateCovered(g: Geometry, d: Disk, v: Disk, l: seq<Entry>, b: nat, data: Block, off: nat, len: nat)
    requires |d| == |v| == g.size && Covered(g, d, v, l) && IsHome(g, b)
    requires forall j :: 0 <= j < BSIZE && !(off <= j < off + len) ==> data[j] == v[b][j]
    ensures Covered(g, d, v[b := data], Absorb(l, b, off, len))
  {
    var l', v' := Absorb(l, b, off, len), v[b := data];
    forall c: nat | IsHome(g, c) ensures SameOutsideLogged(l', c, d[c], v'[c]) {
      assert SameOutsideLogged(l, c, d[c], v[c]);
      forall j: nat | j < BSIZE && !Logged(l', c, j) ensures d[c][j] == v'[c][j] {
        if Logged(l, c, j) || (c == b && off <= j < off + len) { AbsorbKeeps(l, b, off, len, c, j); }
      }
    }
  }

  lemma WriteCovered(g: Geometry, d: Disk, v: Disk, l: seq<Entry>, b: nat, data: Block)
    requires |d| == |v| == g.size && Covered(g, d, v, l) && IsHome(g, b)
    ensures Covered(g, d[b := data], v[b := data], l)
  {
    forall c: nat | IsHome(g, c) ensures SameOutsideLogged(l, c, d[b := data][c], v[b := data][c]) {
      assert SameOutsideLogged(l, c, d[c], v[c]);
    }
  }

  lemma Extend(s0: seq<Io>, d: Disk, v: Disk, sent: seq<Io>, io: Io)
    ensures s0 + sent + [io] == s0 + (sent + [io])
    ensures ApplyAll(d, sent + [io]) == Apply(ApplyAll(d, sent), io)
    ensures ApplyAll(v, sent + [io]) == Apply(ApplyAll(v, sent), io)
  {
    ApplyLast(d, sent, io);
    ApplyLast(v, sent, io);
  }

  lemma ExtendMany(s0: seq<Io>, d: Disk, v: Disk, sent: seq<Io>, more: seq<Io>)
    ensures s0 + sent + more == s0 + (sent + more)
    ensures ApplyAll(d, sent + more) == ApplyAll(ApplyAll(d, sent), more)
    ensures ApplyAll(v, sent + more) == ApplyAll(ApplyAll(v, sent), more)
  {
    ApplyConcat(d, sent, more);
    ApplyConcat(v, sent, more);
  }

  // ----- Putting the requests of commit together

  ghost function CommitRequests(g: Geometry, v: Disk, l: seq<Entry>, head: Io, clear: Io): seq<Io>
    requires GeometryOk(g) && |v| == g.size && GoodLog(g, l)
  {
    SlotWrites(g, v, l, |l|) + [Flush] + [head] + HomeWrites(v, l, |l|) + [clear]
  }

  lemma CommitRequestsTrace(g: Geometry, v: Disk, l: seq<Entry>, head: Io, clear: Io)
    requires GeometryOk(g) && |v| == g.size && GoodLog(g, l)
    requires IsHeadWrite(g, head, Sealed(v, l)) && IsHeadWrite(g, clear, [])
    ensures CommitTrace(g, v, l, CommitRequests(g, v, l, head, clear))
  {
    hide IsHeadWrite, Sealed, SlotWrite;
    var n := |l|;
    var tr := CommitRequests(g, v, l, head, clear);
    assert |tr| == 2 * n + 3;
    forall i | 0 <= i < n
      ensures tr[i] == SlotWrite(g, v, l, i) && tr[n + 2 + i] == Write(l[i].block, v[l[i].block])
    {
      assert tr[i] == SlotWrites(g, v, l, n)[i];
      assert tr[n + 2 + i] == HomeWrites(v, l, n)[i];
    }
  }

  lemma SealedStorable(g: Geometry, v: Disk, l: seq<Entry>)
    requires GeometryOk(g) && |v| == g.size && GoodLog(g, l)
    ensures |Sealed(v, l)| == |l|
    ensures forall i :: 0 <= i < |l| ==> Storable(Sealed(v, l)[i])
  {
    hide Checksum;
    assert forall i :: 0 <= i < |l| ==> GoodEntry(g, l[i]);
  }

  /** The cache right after the commit header: replaying it writes the cached blocks. */
  lemma InstallAfterCommit(g: Geometry, v: Disk, l: seq<Entry>, head: Io, view: Disk)
    requires Ready(g, v, v, l) && IsHeadWrite(g, head, Sealed(v, l))
    requires view == ApplyAll(v, SlotWrites(g, v, l, |l|) + [Flush] + [head])
    ensures ReplayableLog(g, Sealed(v, l))
    ensures InstallIos(g, view, Sealed(v, l), |l|) == HomeWrites(v, l, |l|)
  {
    hide Sealed, SlotWrites, HomeWrites, Covered, HeadOk, ReadHead, CommitTrace, Committed;
    var clear := Write(g.start, v[g.start]);
    CommitRequestsTrace(g, v, l, head, clear);
    var tr := CommitRequests(g, v, l, head, clear);
    SlotWritesLength(g, v, l);
    assert tr[..|l| + 2] == SlotWrites(g, v, l, |l|) + [Flush] + [head];
    CommitCrashStates(g, v, v, l, tr, |l| + 2);
    InstallCommitted(g, v, v, l, view, |l|);
  }

  lemma CacheReady(g: Geometry, d: Disk, v: Disk, l: seq<Entry>)
    requires Ready(g, d, v, l) && v[g.start] == d[g.start]
    ensures Ready(g, v, v, l)
  {}

  lemma NothingLogged(g: Geometry, d: Disk, v: Disk)
    requires Ready(g, d, v, [])
    ensures HomeEqual(g, d, v)
  {
    forall b: nat | IsHome(g, b) ensures d[b] == v[b] { NotLogged(g, d, v, [], b); }
  }

  lemma BootLeaves(g: Geometry, d: Disk, ios: seq<Io>)
    requires GeometryOk(g) && RecoverTrace(g, d, ios)
    ensures Ready(g, ApplyAll(d, ios), ApplyAll(d, ios), [])
  {
    hide HeadOk, ReadHead, InstallIos;
    var io := ios[|ios| - 1];
    ApplyLast(d, ios[..|ios| - 1], io);
    assert ios == ios[..|ios| - 1] + [io];
  }

  lemma SlotWritesLength(g: Geometry, v: Disk, l: seq<Entry>)
    requires GeometryOk(g) && |v| == g.size && GoodLog(g, l)
    ensures |SlotWrites(g, v, l, |l|)| == |HomeWrites(v, l, |l|)| == |l|
  {}

  lemma {:induction false} ApplySame(x: Disk, y: Disk, ios: seq<Io>, b: nat)
    requires b < |x| == |y| && x[b] == y[b]
    ensures ApplyAll(x, ios)[b] == ApplyAll(y, ios)[b]
  {
    if ios != [] { ApplySame(x, y, ios[..|ios| - 1], b); }
  }

  /** Disk and cache after a completed commit. */
  lemma CommitLeaves(g: Geometry, d: Disk, v: Disk, l: seq<Entry>, head: Io, clear: Io)
    requires Ready(g, d, v, l) && forall b: nat :: IsLog(g, b) ==> v[b] == d[b]
    requires IsHeadWrite(g, head, Sealed(v, l)) && IsHeadWrite(g, clear, [])
    ensures var tr := CommitRequests(g, v, l, head, clear);
      var d', v' := ApplyAll(d, tr), ApplyAll(v, tr);
      && CommitTrace(g, v, l, tr) && Ready(g, d', v', [])
      && HomeEqual(g, v', v) && HomeEqual(g, d', v')
      && forall b: nat :: IsLog(g, b) ==> v'[b] == d'[b]
  {
    hide Sealed, SlotWrites, HomeWrites, HeadOk, ReadHead, CommitRequests, Committed;
    CommitRequestsTrace(g, v, l, head, clear);
    var tr := CommitRequests(g, v, l, head, clear);
    assert tr[..|tr|] == tr;
    assert |tr| == 2 * |l| + 3;
    CommitCrashStates(g, d, v, l, tr, |tr|);
    assert Ready(g, v, v, l);
    CommitCrashStates(g, v, v, l, tr, |tr|);
    forall b: nat | IsLog(g, b) ensures ApplyAll(v, tr)[b] == ApplyAll(d, tr)[b] {
      ApplySame(v, d, tr, b);
    }
  }

  lemma ApplyEmpty(d: Disk) ensures ApplyAll(d, []) == d {}

  lemma ApplySingle(d: Disk, io: Io)
    ensures ApplyAll(d, [io]) == Apply(d, io)
  {
    assert [io] == [] + [io];
    ApplyLast(d, [], io);
  }

  /** The header while write_log runs: the first entries sealed, the rest not yet. */
  ghost function PartlySealed(g: Geometry, v0: Disk, l0: seq<Entry>, tail: nat): (lh: seq<Entry>)
    requires GeometryOk(g) && |v0| == g.size && GoodLog(g, l0) && tail <= |l0|
    ensures |lh| == |l0|
    ensures tail == 0 ==> lh == l0
    ensures tail == |l0| ==> lh == Sealed(v0, l0)
  {
    Sealed(v0, l0)[..tail] + l0[tail..]
  }

  lemma PartlySealedGood(g: Geometry, v0: Disk, l0: seq<Entry>, tail: nat)
    requires GeometryOk(g) && |v0| == g.size && GoodLog(g, l0) && tail < |l0|
    ensures var lh := PartlySealed(g, v0, l0, tail);
      && GoodLog(g, lh) && lh[tail] == l0[tail]
      && lh[tail := Sealed(v0, l0)[tail]] == PartlySealed(g, v0, l0, tail + 1)
  {
    hide Checksum;
    var lh := PartlySealed(g, v0, l0, tail);
    forall i | 0 <= i < |l0|
      ensures GoodEntry(g, lh[i]) && lh[i].block == l0[i].block
    {
      assert GoodEntry(g, l0[i]);
    }
  }

  /** The slot and the cached block of the next entry are still as they were. */
  lemma SlotsAhead(g: Geometry, v0: Disk, l0: seq<Entry>, view: Disk, tail: nat)
    requires GeometryOk(g) && |v0| == |view| == g.size && GoodLog(g, l0) && tail < |l0|
    requires view == ApplyAll(v0, SlotWrites(g, v0, l0, tail))
    ensures view[g.start + 1 + tail] == v0[g.start + 1 + tail]
    ensures view[l0[tail].block] == v0[l0[tail].block]
  {
    hide Splice, ApplyAll;
    var sent := SlotWrites(g, v0, l0, tail);
    assert sent[..tail] == sent && GoodEntry(g, l0[tail]);
    SlotsSpare(g, v0, l0, tail, g.start + tail + 1);
    SlotsSpare(g, v0, l0, tail, l0[tail].block);
    hide SlotWrites;
    ApplyNone(v0, sent, tail, g.start + tail + 1);
    ApplyNone(v0, sent, tail, l0[tail].block);
  }

  lemma SlotsSpare(g: Geometry, v0: Disk, l0: seq<Entry>, tail: nat, b: nat)
    requires GeometryOk(g) && |v0| == g.size && GoodLog(g, l0) && tail < |l0|
    requires (IsHome(g, b) || b == g.start + tail + 1)
    ensures Spared(SlotWrites(g, v0, l0, tail), 0, tail, b)
  {
    hide Splice;
  }
}

/** What a crash leaves behind: the requests commit and recovery send to the
    disk, every state a crash can expose, and the home area recovery rebuilds. */
module CrashSafety {
  import opened Basics
  import opened Blocks
  import opened LogHeader
  import Crc32

  // ----- Layout

  /** Where the log lies on a disk of size blocks: header, then nlog - 1 slots. */
  datatype Geometry = Geometry(start: nat, nlog: nat, size: nat)

  ghost predicate GeometryOk(g: Geometry) {
    0 < g.nlog && g.start + g.nlog <= g.size < MAX_UINT
  }

  predicate IsLog(g: Geometry, b: nat) { g.start <= b < g.start + g.nlog }
  predicate IsHome(g: Geometry, b: nat) { b < g.size && !IsLog(g, b) }

  /** The checksum as stored in the header. */
  function Checksum(s: seq<bv8>): (c: nat)
    ensures c < MAX_UINT
  {
    Crc32.NumberBack(Crc32.Crc(s));
    Crc32.Number(Crc32.Crc(s))
  }

  ghost predicate GoodEntry(g: Geometry, e: Entry) {
    IsHome(g, e.block) && e.off + e.len <= BSIZE
  }

  /** Entries fit the log and name distinct home blocks. */
  ghost predicate GoodLog(g: Geometry, lh: seq<Entry>) {
    && |lh| <= LOGSIZE && |lh| < g.nlog
    && (forall i :: 0 <= i < |lh| ==> GoodEntry(g, lh[i]))
    && (forall i, j :: 0 <= i < j < |lh| ==> lh[i].block != lh[j].block)
  }

  /** Byte j of block b lies in a logged range. */
  ghost predicate Logged(lh: seq<Entry>, b: nat, j: nat) {
    exists i :: 0 <= i < |lh| && lh[i].block == b && lh[i].off <= j < lh[i].off + lh[i].len
  }

  ghost predicate SameOutsideLogged(lh: seq<Entry>, b: nat, x: Block, y: Block) {
    forall j :: 0 <= j < BSIZE && !Logged(lh, b, j) ==> x[j] == y[j]
  }

  /** Cached and durable contents of every home block agree outside its logged range. */
  ghost predicate Covered(g: Geometry, disk: Disk, view: Disk, lh: seq<Entry>)
    requires |disk| == |view| == g.size
  {
    forall b: nat :: IsHome(g, b) ==> SameOutsideLogged(lh, b, disk[b], view[b])
  }

  ghost predicate HomeEqual(g: Geometry, x: Disk, y: Disk)
    requires |x| == |y| == g.size
  {
    forall b: nat :: IsHome(g, b) ==> x[b] == y[b]
  }

  /** A commit may start: cleared header on disk, covered changes in the cache. */
  ghost predicate Ready(g: Geometry, disk: Disk, view: Disk, lh: seq<Entry>) {
    && GeometryOk(g) && |disk| == |view| == g.size
    && GoodLog(g, lh)
    && Cleared(g, disk)
    && Covered(g, disk, view, lh)
  }

  ghost predicate Cleared(g: Geometry, d: Disk)
    requires GeometryOk(g) && |d| == g.size
  {
    HeadOk(d[g.start]) && ReadHead(d[g.start]) == []
  }

  // ----- Byte-range replay refines whole-block replay

  /** Home block b of the disk after every logged slice of the cached blocks is copied onto it. */
  ghost function Replayed(disk: Disk, view: Disk, lh: seq<Entry>, b: nat, i: nat): Block
    requires b < |disk| == |view| && i <= |lh|
    requires forall k :: 0 <= k < |lh| ==> lh[k].off + lh[k].len <= BSIZE
  {
    if i == 0 then disk[b]
    else
      var r := Replayed(disk, view, lh, b, i - 1);
      if lh[i - 1].block == b then Splice(r, view[b], lh[i - 1].off, lh[i - 1].len) else r
  }

  lemma {:induction false} ReplayedByte(disk: Disk, view: Disk, lh: seq<Entry>, b: nat, i: nat, j: nat)
    requires b < |disk| == |view| && i <= |lh| && j < BSIZE
    requires forall k :: 0 <= k < |lh| ==> lh[k].off + lh[k].len <= BSIZE
    ensures Replayed(disk, view, lh, b, i)[j] == if Logged(lh[..i], b, j) then view[b][j] else disk[b][j]
  {
    if i > 0 {
      ReplayedByte(disk, view, lh, b, i - 1, j);
      var e := lh[i - 1];
      assert Logged(lh[..i], b, j) <==>
             Logged(lh[..i - 1], b, j) || (e.block == b && e.off <= j < e.off + e.len) by {
        assert forall k :: 0 <= k < i - 1 ==> lh[..i][k] == lh[..i - 1][k];
        assert lh[..i][i - 1] == e;
      }
    }
  }

  /** Replaying only the slices rebuilds every cached block in full. */
  lemma ReplayIsCache(g: Geometry, disk: Disk, view: Disk, lh: seq<Entry>, b: nat)
    requires Ready(g, disk, view, lh) && IsHome(g, b)
    ensures Replayed(disk, view, lh, b, |lh|) == view[b]
  {
    assert SameOutsideLogged(lh, b, disk[b], view[b]);
    forall j | 0 <= j < BSIZE
      ensures Replayed(disk, view, lh, b, |lh|)[j] == view[b][j]
    {
      ReplayedByte(disk, view, lh, b, |lh|, j);
      assert lh[..|lh|] == lh;
    }
  }

  // ----- log_write: one entry per block, holding the hull of all reported ranges

  /** The entry for block b, or the end of the header. */
  ghost function Find(lh: seq<Entry>, b: nat): (i: nat)
    ensures i <= |lh|
    ensures forall k :: 0 <= k < i ==> lh[k].block != b
    ensures i < |lh| ==> lh[i].block == b
  {
    if lh == [] || lh[0].block == b then 0 else 1 + Find(lh[1..], b)
  }

  ghost function Absorb(lh: seq<Entry>, b: nat, off: nat, len: nat): seq<Entry> {
    var i := Find(lh, b);
    if i < |lh| then
      var lo := Min(lh[i].off, off);
      lh[i := lh[i].(off := lo, len := Max(lh[i].off + lh[i].len, off + len) - lo)]
    else lh + [Entry(b, 0, off, len)]
  }

  lemma AbsorbGood(g: Geometry, lh: seq<Entry>, b: nat, off: nat, len: nat)
    requires GoodLog(g, lh) && |lh| < LOGSIZE && |lh| + 1 < g.nlog
    requires IsHome(g, b) && off + len <= BSIZE
    ensures GoodLog(g, Absorb(lh, b, off, len))
  {
    var r := Absorb(lh, b, off, len);
    forall i | 0 <= i < |r| ensures GoodEntry(g, r[i]) {
      if i < |lh| { assert GoodEntry(g, lh[i]); }
    }
  }

  /** Everything logged before stays logged, and so is the new range. */
  lemma AbsorbKeeps(lh: seq<Entry>, b: nat, off: nat, len: nat, c: nat, j: nat)
    requires Logged(lh, c, j) || (c == b && off <= j < off + len)
    ensures Logged(Absorb(lh, b, off, len), c, j)
  {
    var r := Absorb(lh, b, off, len);
    if k :| 0 <= k < |lh| && lh[k].block == c && lh[k].off <= j < lh[k].off + lh[k].len {
      assert r[k].block == c && r[k].off <= j < r[k].off + r[k].len;
    } else {
      var i := Find(lh, b);
      assert r[i].block == c && r[i].off <= j < r[i].off + r[i].len;
    }
  }

  lemma NamesAbsorb(lh: seq<Entry>, b: nat, off: nat, len: nat)
    ensures Names(Absorb(lh, b, off, len)) == Names(lh) + {b}
  {
    var r, i := Absorb(lh, b, off, len), Find(lh, b);
    assert r[i].block == b;
    forall k | 0 <= k < |lh| ensures r[k].block == lh[k].block {}
  }

  ghost predicate Reported(lh: seq<Entry>, b: nat, off: nat, len: nat, j: nat) {
    off <= j < off + len || Logged(lh, b, j)
  }

  /** Nothing else is: a byte becomes logged only between bytes that were reported. */
  lemma AbsorbIsTight(lh: seq<Entry>, b: nat, off: nat, len: nat, c: nat, j: nat)
    requires 0 < len && forall i :: 0 <= i < |lh| ==> 0 < lh[i].len
    requires Logged(Absorb(lh, b, off, len), c, j)
    ensures || Logged(lh, c, j)
            || (c == b && exists x: nat, y: nat ::
                  Reported(lh, b, off, len, x) && Reported(lh, b, off, len, y) && x <= j <= y)
  {
    var r := Absorb(lh, b, off, len);
    var k :| 0 <= k < |r| && r[k].block == c && r[k].off <= j < r[k].off + r[k].len;
    var i := Find(lh, b);
    if k != i {
      assert lh[k] == r[k];
    } else if i == |lh| {
      assert Reported(lh, b, off, len, j);
    } else {
      var e := lh[i];
      var x, y := Min(e.off, off), Max(e.off + e.len, off + len) - 1;
      assert Reported(lh, b, off, len, x) by { assert x == off || e.off <= x < e.off + e.len; }
      assert Reported(lh, b, off, len, y) by { assert y == off + len - 1 || e.off <= y < e.off + e.len; }
    }
  }

  // ----- The requests of commit

  /** The entries as write_log leaves them, with the checksum of each cached slice. */
  ghost function Sealed(view: Disk, lh: seq<Entry>): seq<Entry>
    requires forall i :: 0 <= i < |lh| ==> lh[i].block < |view| && lh[i].off + lh[i].len <= BSIZE
  {
    seq(|lh|, i requires 0 <= i < |lh| =>
      lh[i].(cksum := Checksum(Slice(view[lh[i].block], lh[i].off, lh[i].len))))
  }

  ghost predicate IsHeadWrite(g: Geometry, io: Io, lh: seq<Entry>) {
    io.Write? && io.b == g.start && HeadOk(io.data) && ReadHead(io.data) == lh
  }

  /** Slots, flush, commit header, home blocks, cleared header, in that order. */
  ghost predicate CommitTrace(g: Geometry, view: Disk, lh: seq<Entry>, tr: seq<Io>)
    requires GeometryOk(g) && |view| == g.size && GoodLog(g, lh)
  {
    var n := |lh|;
    && |tr| == 2 * n + 3
    && (forall i :: 0 <= i < n ==> tr[i] == SlotWrite(g, view, lh, i))
    && tr[n] == Flush
    && IsHeadWrite(g, tr[n + 1], Sealed(view, lh))
    && (forall i :: 0 <= i < n ==> tr[n + 2 + i] == Write(lh[i].block, view[lh[i].block]))
    && IsHeadWrite(g, tr[2 * n + 2], [])
  }

  ghost function SlotWrite(g: Geometry, view: Disk, lh: seq<Entry>, i: nat): Io
    requires GeometryOk(g) && |view| == g.size && GoodLog(g, lh) && i < |lh|
  {
    Write(g.start + 1 + i,
          Splice(view[g.start + 1 + i], view[lh[i].block], lh[i].off, lh[i].len))
  }

  // ----- The three kinds of state a crash can leave

  ghost predicate Uncommitted(g: Geometry, pre: Disk, d: Disk)
    requires GeometryOk(g) && |pre| == g.size
  {
    |d| == g.size && Cleared(g, d) && HomeEqual(g, d, pre)
  }

  ghost predicate SlotHolds(g: Geometry, view: Disk, lh: seq<Entry>, d: Disk, i: nat)
    requires GeometryOk(g) && |view| == |d| == g.size && GoodLog(g, lh) && i < |lh|
  {
    Slice(d[g.start + 1 + i], lh[i].off, lh[i].len) == Slice(view[lh[i].block], lh[i].off, lh[i].len)
  }

  ghost predicate EachOldOrNew(g: Geometry, pre: Disk, view: Disk, d: Disk)
    requires |pre| == |view| == |d| == g.size
  {
    forall b: nat :: IsHome(g, b) ==> d[b] == pre[b] || d[b] == view[b]
  }

  ghost predicate Committed(g: Geometry, pre: Disk, view: Disk, lh: seq<Entry>, d: Disk)
    requires GeometryOk(g) && |pre| == |view| == g.size && GoodLog(g, lh)
  {
    && |d| == g.size
    && HeadOk(d[g.start]) && ReadHead(d[g.start]) == Sealed(view, lh)
    && (forall i :: 0 <= i < |lh| ==> SlotHolds(g, view, lh, d, i))
    && EachOldOrNew(g, pre, view, d)
  }

  // ----- Commit interrupted at any request, on a disk that writes in order

  /** The block written by request m of commit. */
  ghost function Target(g: Geometry, lh: seq<Entry>, m: nat): nat
    requires m < 2 * |lh| + 3
  {
    var n := |lh|;
    if m < n then g.start + 1 + m
    else if n + 2 <= m < 2 * n + 2 then lh[m - n - 2].block
    else g.start
  }

  lemma CommitTarget(g: Geometry, view: Disk, lh: seq<Entry>, tr: seq<Io>, m: nat)
    requires GeometryOk(g) && |view| == g.size && GoodLog(g, lh)
    requires CommitTrace(g, view, lh, tr) && m < |tr| && tr[m].Write?
    ensures tr[m].b == Target(g, lh, m)
    ensures |lh| + 2 <= m < 2 * |lh| + 2 ==> IsHome(g, tr[m].b)
  {
    hide Sealed, HeadOk, ReadHead;
    var n := |lh|;
    if m < n {
      assert tr[m] == SlotWrite(g, view, lh, m);
    } else if n + 2 <= m < 2 * n + 2 {
      assert tr[n + 2 + (m - n - 2)] == Write(lh[m - n - 2].block, view[lh[m - n - 2].block]);
      assert GoodEntry(g, lh[m - n - 2]);
    }
  }

  lemma CommitSpares(g: Geometry, view: Disk, lh: seq<Entry>, tr: seq<Io>, i: nat, k: nat, b: nat)
    requires GeometryOk(g) && |view| == g.size && GoodLog(g, lh)
    requires CommitTrace(g, view, lh, tr) && k <= |tr|
    requires forall m :: i <= m < k && m != |lh| ==> Target(g, lh, m) != b
    ensures Spared(tr, i, k, b)
  {
    forall m | i <= m < k && tr[m].Write?
      ensures tr[m].b != b
    {
      CommitTarget(g, view, lh, tr, m);
    }
  }

  lemma CommitWritesHome(g: Geometry, pre: Disk, view: Disk, lh: seq<Entry>, tr: seq<Io>, k: nat, b: nat)
    requires Ready(g, pre, view, lh) && CommitTrace(g, view, lh, tr) && k <= |tr| && IsHome(g, b)
    ensures var d := ApplyAll(pre, tr[..k]);
      && (d[b] == pre[b] || d[b] == view[b])
      && (k <= |lh| + 2 ==> d[b] == pre[b])
      && (k >= 2 * |lh| + 2 ==> d[b] == view[b])
  {
    hide Cleared, Covered, Sealed, IsHeadWrite;
    var n := |lh|;
    if i :| 0 <= i < n && lh[i].block == b && n + 2 + i < k {
      assert tr[n + 2 + i] == Write(lh[i].block, view[lh[i].block]);
      CommitSpares(g, view, lh, tr, n + 3 + i, k, b);
      ApplyWritten(pre, tr, n + 2 + i, k);
    } else {
      CommitSpares(g, view, lh, tr, 0, k, b);
      ApplyNone(pre, tr, k, b);
      if k >= 2 * n + 2 {
        NotLogged(g, pre, view, lh, b);
      }
    }
  }

  lemma NotLogged(g: Geometry, pre: Disk, view: Disk, lh: seq<Entry>, b: nat)
    requires Ready(g, pre, view, lh) && IsHome(g, b)
    requires forall i :: 0 <= i < |lh| ==> lh[i].block != b
    ensures pre[b] == view[b]
  {
    assert SameOutsideLogged(lh, b, pre[b], view[b]);
    assert forall j: nat :: j < BSIZE ==> !Logged(lh, b, j);
  }

  lemma CommitWritesSlot(g: Geometry, pre: Disk, view: Disk, lh: seq<Entry>, tr: seq<Io>, k: nat, i: nat)
    requires Ready(g, pre, view, lh) && CommitTrace(g, view, lh, tr) && i < |lh| && |lh| < k <= |tr|
    ensures SlotHolds(g, view, lh, ApplyAll(pre, tr[..k]), i)
  {
    hide Cleared, Covered, Sealed, IsHeadWrite;
    assert tr[i] == SlotWrite(g, view, lh, i);
    assert forall m :: 0 <= m < |lh| ==> GoodEntry(g, lh[m]);
    CommitSpares(g, view, lh, tr, i + 1, k, g.start + 1 + i);
    ApplyWritten(pre, tr, i, k);
  }

  lemma CommitWritesHead(g: Geometry, pre: Disk, view: Disk, lh: seq<Entry>, tr: seq<Io>, k: nat)
    requires Ready(g, pre, view, lh) && CommitTrace(g, view, lh, tr) && k <= |tr|
    ensures var h := ApplyAll(pre, tr[..k])[g.start];
      HeadOk(h) && ReadHead(h) == if |lh| + 2 <= k <= 2 * |lh| + 2 then Sealed(view, lh) else []
  {
    hide Covered, Sealed, HeadOk, ReadHead;
    var n := |lh|;
    assert forall m :: 0 <= m < |lh| ==> GoodEntry(g, lh[m]);
    if k <= n + 1 {
      CommitSpares(g, view, lh, tr, 0, k, g.start);
      ApplyNone(pre, tr, k, g.start);
    } else {
      var w := if k <= 2 * n + 2 then n + 1 else 2 * n + 2;
      CommitSpares(g, view, lh, tr, w + 1, k, g.start);
      ApplyWritten(pre, tr, w, k);
    }
  }

  /** A crash after k requests of commit: before the commit header is written
      nothing has happened, after it the whole transaction can be rebuilt. */
  lemma CommitCrashStates(g: Geometry, pre: Disk, view: Disk, lh: seq<Entry>, tr: seq<Io>, k: nat)
    requires Ready(g, pre, view, lh) && CommitTrace(g, view, lh, tr) && k <= |tr|
    ensures var d := ApplyAll(pre, tr[..k]);
      && (k <= |lh| + 1 ==> Uncommitted(g, pre, d))
      && (|lh| + 2 <= k <= 2 * |lh| + 2 ==> Committed(g, pre, view, lh, d))
      && (k == 2 * |lh| + 3 ==> Uncommitted(g, view, d))
  {
    hide Covered, Sealed, HeadOk, ReadHead, CommitTrace, SlotHolds;
    CommitWritesHead(g, pre, view, lh, tr, k);
    forall b: nat | IsHome(g, b)
      ensures var d := ApplyAll(pre, tr[..k]);
        && (d[b] == pre[b] || d[b] == view[b])
        && (k <= |lh| + 2 ==> d[b] == pre[b])
        && (k >= 2 * |lh| + 2 ==> d[b] == view[b])
    {
      CommitWritesHome(g, pre, view, lh, tr, k, b);
    }
    if k > |lh| {
      forall i | 0 <= i < |lh| { CommitWritesSlot(g, pre, view, lh, tr, k, i); }
    }
  }

  // ----- Recovery

  /** The header on disk describes slices that recovery can read and write. */
  ghost predicate Replayable(g: Geometry, d: Disk)
    requires GeometryOk(g)
  {
    && |d| == g.size && HeadOk(d[g.start])
    && ReplayableLog(g, ReadHead(d[g.start]))
  }

  ghost predicate ReplayableLog(g: Geometry, lh: seq<Entry>) {
    && |lh| < g.nlog
    && forall i :: 0 <= i < |lh| ==> lh[i].block < g.size && lh[i].off + lh[i].len <= BSIZE
  }

  /** What install_trans sends for entry i when the blocks read as in c. */
  ghost function InstallOne(g: Geometry, c: Disk, lh: seq<Entry>, i: nat): seq<Io>
    requires GeometryOk(g) && |c| == g.size && ReplayableLog(g, lh) && i < |lh|
  {
    var slot := c[g.start + 1 + i];
    if Checksum(Slice(slot, lh[i].off, lh[i].len)) == lh[i].cksum
    then [Write(lh[i].block, Splice(c[lh[i].block], slot, lh[i].off, lh[i].len))]
    else []
  }

  /** What install_trans sends for the first t entries, starting from blocks v. */
  ghost function InstallIos(g: Geometry, v: Disk, lh: seq<Entry>, t: nat): seq<Io>
    requires GeometryOk(g) && |v| == g.size && ReplayableLog(g, lh) && t <= |lh|
  {
    if t == 0 then []
    else
      var sent := InstallIos(g, v, lh, t - 1);
      sent + InstallOne(g, ApplyAll(v, sent), lh, t - 1)
  }

  /** Everything recover_from_log sends: the installs, then a cleared header. */
  ghost predicate RecoverTrace(g: Geometry, d: Disk, tr: seq<Io>)
    requires GeometryOk(g)
  {
    && Replayable(g, d)
    && var lh := ReadHead(d[g.start]);
       var sent := InstallIos(g, d, lh, |lh|);
       |tr| == |sent| + 1 && tr[..|sent|] == sent && IsHeadWrite(g, tr[|sent|], [])
  }

  /** A recovery that crashed at some point, or ran to the end. */
  ghost predicate PartialRecovery(g: Geometry, d: Disk, d': Disk)
    requires GeometryOk(g)
  {
    exists tr: seq<Io>, k: nat :: k <= |tr| && RecoverTrace(g, d, tr) && d' == ApplyAll(d, tr[..k])
  }

  ghost predicate FullRecovery(g: Geometry, d: Disk, d': Disk)
    requires GeometryOk(g)
  {
    exists tr: seq<Io> :: RecoverTrace(g, d, tr) && d' == ApplyAll(d, tr)
  }

  /** Boots in a row, each starting recovery on what the one before left. */
  ghost predicate RecoveryChain(g: Geometry, ds: seq<Disk>)
    requires GeometryOk(g)
  {
    |ds| > 0 && forall i :: 0 <= i < |ds| - 1 ==> PartialRecovery(g, ds[i], ds[i + 1])
  }

  ghost function HomeWrites(view: Disk, lh: seq<Entry>, t: nat): seq<Io>
    requires t <= |lh| && forall i :: 0 <= i < |lh| ==> lh[i].block < |view|
  {
    seq(t, i requires 0 <= i < t => Write(lh[i].block, view[lh[i].block]))
  }

  lemma SealedReplayable(g: Geometry, view: Disk, lh: seq<Entry>)
    requires GeometryOk(g) && |view| == g.size && GoodLog(g, lh)
    ensures ReplayableLog(g, Sealed(view, lh))
  {
    assert forall i :: 0 <= i < |lh| ==> GoodEntry(g, lh[i]);
  }

  /** Copying a slot's slice over the old or the new block gives the new block. */
  lemma InstallBlock(g: Geometry, pre: Disk, view: Disk, lh: seq<Entry>, i: nat, was: Block, slot: Block)
    requires Ready(g, pre, view, lh) && i < |lh|
    requires was == pre[lh[i].block] || was == view[lh[i].block]
    requires Slice(slot, lh[i].off, lh[i].len) == Slice(view[lh[i].block], lh[i].off, lh[i].len)
    ensures Splice(was, slot, lh[i].off, lh[i].len) == view[lh[i].block]
  {
    var e := lh[i];
    assert SameOutsideLogged(lh, e.block, pre[e.block], view[e.block]);
    var r := Splice(was, slot, e.off, e.len);
    forall j: nat | j < BSIZE
      ensures r[j] == view[e.block][j]
    {
      if e.off <= j < e.off + e.len {
        assert slot[j] == Slice(slot, e.off, e.len)[j - e.off];
      } else {
        assert !Logged(lh, e.block, j);
      }
    }
  }

  /** Installing entry i after the earlier ones writes the cached block in full. */
  lemma InstallNext(g: Geometry, pre: Disk, view: Disk, lh: seq<Entry>, d: Disk, i: nat)
    requires Ready(g, pre, view, lh) && Committed(g, pre, view, lh, d) && i < |lh|
    requires ReplayableLog(g, Sealed(view, lh))
    ensures InstallOne(g, ApplyAll(d, HomeWrites(view, lh, i)), Sealed(view, lh), i)
         == [Write(lh[i].block, view[lh[i].block])]
  {
    hide Cleared, Covered, HeadOk, ReadHead, Checksum;
    var sent := HomeWrites(view, lh, i);
    assert sent[..i] == sent;
    assert forall m :: 0 <= m < |lh| ==> GoodEntry(g, lh[m]);
    ApplyNone(d, sent, i, g.start + 1 + i);
    ApplyNone(d, sent, i, lh[i].block);
    assert SlotHolds(g, view, lh, d, i);
    InstallBlock(g, pre, view, lh, i, d[lh[i].block], d[g.start + 1 + i]);
  }

  lemma {:induction false} InstallCommitted(g: Geometry, pre: Disk, view: Disk, lh: seq<Entry>, d: Disk, t: nat)
    requires Ready(g, pre, view, lh) && Committed(g, pre, view, lh, d) && t <= |lh|
    ensures ReplayableLog(g, Sealed(view, lh))
    ensures InstallIos(g, d, Sealed(view, lh), t) == HomeWrites(view, lh, t)
  {
    hide Cleared, Covered, Committed, InstallOne;
    SealedReplayable(g, view, lh);
    if t > 0 {
      InstallCommitted(g, pre, view, lh, d, t - 1);
      InstallNext(g, pre, view, lh, d, t - 1);
    }
  }

  /** The requests a replay of all entries sends. */
  ghost predicate ReplaysAll(g: Geometry, view: Disk, lh: seq<Entry>, tr: seq<Io>)
    requires GeometryOk(g) && |view| == g.size && GoodLog(g, lh)
  {
    && |tr| == |lh| + 1
    && (forall i :: 0 <= i < |lh| ==> tr[i] == Write(lh[i].block, view[lh[i].block]))
    && IsHeadWrite(g, tr[|lh|], [])
  }

  lemma CommittedReplays(g: Geometry, pre: Disk, view: Disk, lh: seq<Entry>, d: Disk, tr: seq<Io>)
    requires Ready(g, pre, view, lh) && Committed(g, pre, view, lh, d) && RecoverTrace(g, d, tr)
    ensures ReplaysAll(g, view, lh, tr)
  {
    hide Cleared, Covered, HeadOk, ReadHead, SlotHolds, InstallIos;
    InstallCommitted(g, pre, view, lh, d, |lh|);
    var sent := HomeWrites(view, lh, |lh|);
    assert tr[..|lh|] == sent;
    forall i | 0 <= i < |lh|
      ensures tr[i] == Write(lh[i].block, view[lh[i].block])
    {
      assert tr[i] == tr[..|lh|][i] == sent[i];
    }
  }

  /** Recovery over a committed transaction, stopped after k requests. */
  lemma RecoverCommitted(g: Geometry, pre: Disk, view: Disk, lh: seq<Entry>, d: Disk, tr: seq<Io>, k: nat)
    requires Ready(g, pre, view, lh) && Committed(g, pre, view, lh, d)
    requires RecoverTrace(g, d, tr) && k <= |tr|
    ensures |tr| == |lh| + 1
    ensures k <= |lh| ==> Committed(g, pre, view, lh, ApplyAll(d, tr[..k]))
    ensures k == |tr| ==> Uncommitted(g, view, ApplyAll(d, tr[..k]))
  {
    hide Covered, HeadOk, ReadHead, Sealed, RecoverTrace, EachOldOrNew;
    CommittedReplays(g, pre, view, lh, d, tr);
    RecoverHomes(g, pre, view, lh, d, tr, k);
    RecoverLog(g, pre, view, lh, d, tr, k);
    if k <= |lh| {
      forall i | 0 <= i < |lh|
        ensures SlotHolds(g, view, lh, ApplyAll(d, tr[..k]), i)
      {
        assert SlotHolds(g, view, lh, d, i) && IsLog(g, g.start + 1 + i);
      }
    }
  }

  lemma RecoverHomes(g: Geometry, pre: Disk, view: Disk, lh: seq<Entry>, d: Disk, tr: seq<Io>, k: nat)
    requires Ready(g, pre, view, lh) && |d| == g.size && EachOldOrNew(g, pre, view, d)
    requires ReplaysAll(g, view, lh, tr) && k <= |tr|
    ensures EachOldOrNew(g, pre, view, ApplyAll(d, tr[..k]))
    ensures k >= |lh| ==> HomeEqual(g, ApplyAll(d, tr[..k]), view)
  {
    hide Cleared, Covered, ReplaysAll, ApplyAll, GoodLog;
    var d' := ApplyAll(d, tr[..k]);
    forall b: nat | IsHome(g, b)
      ensures d'[b] == pre[b] || d'[b] == view[b]
      ensures k >= |lh| ==> d'[b] == view[b]
    {
      RecoverHome(g, pre, view, lh, d, tr, k, b);
    }
  }

  lemma RecoverHome(g: Geometry, pre: Disk, view: Disk, lh: seq<Entry>, d: Disk, tr: seq<Io>, k: nat, b: nat)
    requires Ready(g, pre, view, lh) && |d| == g.size && EachOldOrNew(g, pre, view, d)
    requires ReplaysAll(g, view, lh, tr) && k <= |tr| && IsHome(g, b)
    ensures ApplyAll(d, tr[..k])[b] == pre[b] || ApplyAll(d, tr[..k])[b] == view[b]
    ensures k >= |lh| ==> ApplyAll(d, tr[..k])[b] == view[b]
  {
    hide Cleared, Covered, ApplyAll;
    if i :| 0 <= i < |lh| && lh[i].block == b && i < k {
      RecoverWritten(g, view, lh, d, tr, k, i);
    } else {
      RecoverSpared(g, view, lh, d, tr, k, b);
      if k >= |lh| { NotLogged(g, pre, view, lh, b); }
    }
  }

  lemma RecoverWritten(g: Geometry, view: Disk, lh: seq<Entry>, d: Disk, tr: seq<Io>, k: nat, i: nat)
    requires GeometryOk(g) && |view| == |d| == g.size && GoodLog(g, lh)
    requires ReplaysAll(g, view, lh, tr) && i < |lh| && i < k <= |tr|
    ensures ApplyAll(d, tr[..k])[lh[i].block] == view[lh[i].block]
  {
    hide ApplyAll, HeadOk, ReadHead;
    assert GoodEntry(g, lh[i]);
    assert Spared(tr, i + 1, k, lh[i].block);
    ApplyWritten(d, tr, i, k);
  }

  lemma RecoverSpared(g: Geometry, view: Disk, lh: seq<Entry>, d: Disk, tr: seq<Io>, k: nat, b: nat)
    requires GeometryOk(g) && |view| == |d| == g.size && GoodLog(g, lh) && IsHome(g, b)
    requires ReplaysAll(g, view, lh, tr) && k <= |tr| && forall i :: 0 <= i < |lh| && i < k ==> lh[i].block != b
    ensures ApplyAll(d, tr[..k])[b] == d[b]
  {
    hide ApplyAll, HeadOk, ReadHead;
    assert Spared(tr, 0, k, b);
    ApplyNone(d, tr, k, b);
  }

  lemma RecoverLog(g: Geometry, pre: Disk, view: Disk, lh: seq<Entry>, d: Disk, tr: seq<Io>, k: nat)
    requires Ready(g, pre, view, lh) && |d| == g.size
    requires ReplaysAll(g, view, lh, tr) && k <= |tr|
    ensures k <= |lh| ==> forall b: nat :: IsLog(g, b) ==> ApplyAll(d, tr[..k])[b] == d[b]
    ensures k == |tr| ==> Cleared(g, ApplyAll(d, tr[..k]))
  {
    hide Covered, HeadOk, ReadHead;
    assert forall i :: 0 <= i < |lh| ==> GoodEntry(g, lh[i]);
    if k <= |lh| {
      forall b: nat | IsLog(g, b)
        ensures ApplyAll(d, tr[..k])[b] == d[b]
      {
        assert Spared(tr, 0, k, b);
        ApplyNone(d, tr, k, b);
      }
    } else {
      ApplyWritten(d, tr, |lh|, k);
    }
  }

  /** Recovery with a cleared header changes no home block, wherever it stops. */
  lemma RecoverCleared(g: Geometry, home: Disk, d: Disk, tr: seq<Io>, k: nat)
    requires GeometryOk(g) && |home| == g.size && Uncommitted(g, home, d)
    requires RecoverTrace(g, d, tr) && k <= |tr|
    ensures Uncommitted(g, home, ApplyAll(d, tr[..k]))
  {
    hide HeadOk, ReadHead;
    assert |tr| == 1;
    if k == 1 {
      assert tr[..1] == [] + [tr[0]];
      ApplyLast(d, [], tr[0]);
    } else {
      assert tr[..k] == [];
    }
  }

  /** Any number of interrupted recoveries keep a transaction what it was:
      never started, still replayable, or finished. */
  lemma {:induction false} ChainKeeps(g: Geometry, pre: Disk, view: Disk, lh: seq<Entry>, ds: seq<Disk>)
    requires Ready(g, pre, view, lh) && RecoveryChain(g, ds)
    ensures Uncommitted(g, pre, ds[0]) ==> Uncommitted(g, pre, ds[|ds| - 1])
    ensures Uncommitted(g, view, ds[0]) ==> Uncommitted(g, view, ds[|ds| - 1])
    ensures Committed(g, pre, view, lh, ds[0]) ==>
      Committed(g, pre, view, lh, ds[|ds| - 1]) || Uncommitted(g, view, ds[|ds| - 1])
    decreases |ds|
  {
    hide Uncommitted, Committed, Cleared, Covered, RecoverTrace;
    if |ds| > 1 {
      var m := |ds| - 2;
      ChainKeeps(g, pre, view, lh, ds[..m + 1]);
      assert PartialRecovery(g, ds[m], ds[m + 1]);
      var tr: seq<Io>, k: nat :| k <= |tr| && RecoverTrace(g, ds[m], tr) && ds[m + 1] == ApplyAll(ds[m], tr[..k]);
      if Uncommitted(g, pre, ds[m]) { RecoverCleared(g, pre, ds[m], tr, k); }
      if Uncommitted(g, view, ds[m]) { RecoverCleared(g, view, ds[m], tr, k); }
      if Committed(g, pre, view, lh, ds[m]) { RecoverCommitted(g, pre, view, lh, ds[m], tr, k); }
    }
  }

  lemma FullRecoveryFinishes(g: Geometry, pre: Disk, view: Disk, lh: seq<Entry>, d: Disk, d': Disk)
    requires Ready(g, pre, view, lh) && FullRecovery(g, d, d')
    ensures Uncommitted(g, pre, d) ==> Uncommitted(g, pre, d')
    ensures Uncommitted(g, view, d) || Committed(g, pre, view, lh, d) ==> Uncommitted(g, view, d')
  {
    hide Uncommitted, Committed, Cleared, Covered, RecoverTrace;
    var tr :| RecoverTrace(g, d, tr) && d' == ApplyAll(d, tr);
    assert tr[..|tr|] == tr;
    if Uncommitted(g, pre, d) { RecoverCleared(g, pre, d, tr, |tr|); }
    if Uncommitted(g, view, d) { RecoverCleared(g, view, d, tr, |tr|); }
    if Committed(g, pre, view, lh, d) { RecoverCommitted(g, pre, view, lh, d, tr, |tr|); }
  }

  /** Crash atomicity.  Commit is cut off after any k of its requests; any number
      of recoveries are cut off after it; one recovery completes.  The home area
      is then what it was before the commit if the commit header had not been
      written, and otherwise holds every cached block, never a mixture. */
  lemma CrashAtomic(g: Geometry, pre: Disk, view: Disk, lh: seq<Entry>, tr: seq<Io>, k: nat,
                    boots: seq<Disk>, final: Disk)
    requires Ready(g, pre, view, lh) && CommitTrace(g, view, lh, tr) && k <= |tr|
    requires RecoveryChain(g, boots) && boots[0] == ApplyAll(pre, tr[..k])
    requires FullRecovery(g, boots[|boots| - 1], final)
    ensures |final| == g.size && Cleared(g, final)
    ensures HomeEqual(g, final, if k <= |lh| + 1 then pre else view)
  {
    hide Cleared, Covered, FullRecovery, Committed, Sealed, IsHeadWrite, SlotWrite;
    CommitCrashStates(g, pre, view, lh, tr, k);
    ChainKeeps(g, pre, view, lh, boots);
    FullRecoveryFinishes(g, pre, view, lh, boots[|boots| - 1], final);
  }
}

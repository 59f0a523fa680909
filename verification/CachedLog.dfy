/** The log over the buffer cache: Journal.Log.view is what bread gives, the
    header names every pinned buffer, and commit finds the buffers it needs. */
module CachedLog {
  import opened Basics
  import opened Blocks
  import opened LogHeader
  import opened CrashSafety
  import opened Journal
  import opened BufferCache
  import Crc32

  // ----- Pins

  /** The blocks the log keeps in memory with B_DIRTY. */
  ghost function Pinned(buf: seq<Buf>): set<nat> {
    set i | 0 <= i < |buf| && buf[i].dirty :: buf[i].blockno
  }

  ghost predicate Backed(buf: seq<Buf>, disk: Disk, view: Disk, lh: seq<Entry>) {
    View(buf, disk) == view && Pinned(buf) <= Names(lh)
  }

  /** The two layers agree. */
  ghost predicate Backs(c: Cache, l: Log)
    reads c, l, l.table
  {
    c.Valid() && l.Quiet() && c.disk == l.disk && Backed(c.buf, l.disk, l.view, l.lh)
  }

  /** A block that looks different from the disk is in a buffer that is pinned or being worked on. */
  lemma PinnedOrWritten(buf: seq<Buf>, disk: Disk, b: nat)
    requires Sound(buf, disk) && b < |disk| && View(buf, disk)[b] != disk[b]
    ensures exists i: nat :: i < |buf| && Holds(buf[i], b) && (buf[i].dirty || buf[i].held)
  {
    var i: nat :| i < |buf| && Holds(buf[i], b);
    SeenHeld(buf, disk, i);
  }

  lemma PinnedSet(buf: seq<Buf>, i: nat, x: Buf)
    requires i < |buf| && x.blockno == buf[i].blockno
    ensures x.dirty ==> Pinned(buf[i := x]) == Pinned(buf) + {x.blockno}
    ensures x.dirty == buf[i].dirty ==> Pinned(buf[i := x]) == Pinned(buf)
  {
    var buf' := buf[i := x];
    forall b | b in Pinned(buf) && (x.dirty || x.dirty == buf[i].dirty) ensures b in Pinned(buf') {
      var k :| 0 <= k < |buf| && buf[k].dirty && buf[k].blockno == b;
      assert buf'[k].blockno == b && (k != i || x.dirty);
    }
    if x.dirty { assert buf'[i].dirty; }
  }

  lemma PinnedClear(buf: seq<Buf>, disk: Disk, i: nat)
    requires Sound(buf, disk) && i < |buf| && buf[i].valid
    ensures Pinned(buf[i := buf[i].(dirty := false)]) == Pinned(buf) - {buf[i].blockno}
  {
    var buf' := buf[i := buf[i].(dirty := false)];
    forall b | b in Pinned(buf) && b != buf[i].blockno ensures b in Pinned(buf') {
      var k :| 0 <= k < |buf| && buf[k].dirty && buf[k].blockno == b;
      assert buf'[k] == buf[k];
    }
    forall k | 0 <= k < |buf'| && buf'[k].dirty ensures buf'[k].blockno != buf[i].blockno {
      assert buf'[k] == buf[k] && buf[k].valid;
    }
  }

  // ----- The idioms of fs.c over both layers

  /** bread, once the sleep-lock of the buffer is free. None is the panic for want of buffers. */
  method Bread(c: Cache, b: nat) returns (r: Option<nat>)
    requires c.Valid() && b < |c.disk|
    requires forall i :: 0 <= i < c.n && Caches(c.buf[i], DISK, b) ==> !c.buf[i].held
    modifies c
    ensures c.Valid() && c.disk == old(c.disk) && View(c.buf, c.disk) == old(View(c.buf, c.disk))
    ensures r.None? <==> Missing(old(c.buf), DISK, b) && forall i :: 0 <= i < c.n ==> !Eligible(old(c.buf)[i])
    ensures r.None? ==> c.buf == old(c.buf)
    ensures r.Some? ==> Got(old(c.buf), c.buf, r.value, b) && c.buf[r.value].data == View(c.buf, c.disk)[b]
    ensures r.Some? ==> Clean(c.buf[r.value], c.disk)
    ensures Pinned(c.buf) == Pinned(old(c.buf))
  {
    hide View, Listed, Ordered;
    r := c.Bget(DISK, b);
    if r.Some? {
      c.Acquire(r.value);
      var ok := c.Fill(r.value);
      GotPinned(old(c.buf), c.buf, r.value, b);
    }
  }

  /** Buffer i was found or recycled for block b, and is now held. */
  ghost predicate Got(buf: seq<Buf>, buf': seq<Buf>, i: nat, b: nat) {
    && i < |buf| == |buf'|
    && (forall j :: 0 <= j < |buf| && j != i ==> buf'[j] == buf[j])
    && Holds(buf'[i], b) && buf'[i].held
    && (if Caches(buf[i], DISK, b) then buf'[i].dirty == buf[i].dirty && buf'[i].refcnt == buf[i].refcnt + 1
        else !buf[i].dirty && !buf'[i].dirty && buf[i].refcnt == 0 && buf'[i].refcnt == 1)
  }

  lemma GotPinned(buf: seq<Buf>, buf': seq<Buf>, i: nat, b: nat)
    requires Got(buf, buf', i, b)
    ensures Pinned(buf') == Pinned(buf)
  {
    forall k | 0 <= k < |buf|
      ensures buf'[k].dirty == buf[k].dirty && (buf[k].dirty ==> buf'[k].blockno == buf[k].blockno)
    {}
  }

  /** bread gives the view of the log. */
  method ReadBlock(c: Cache, l: Log, b: nat) returns (r: Option<nat>)
    requires Backs(c, l) && b < l.g.size
    requires forall i :: 0 <= i < c.n && Caches(c.buf[i], DISK, b) ==> !c.buf[i].held
    modifies c
    ensures Backs(c, l)
    ensures r.Some? ==> r.value < c.n && c.buf[r.value].held && c.buf[r.value].data == l.view[b]
  {
    hide View, Listed, Ordered, Ready;
    r := Bread(c, b);
  }

  /** A held buffer is changed in a range, and the range reported to log_write, which pins it. */
  method LogBuffer(c: Cache, l: Log, i: nat, data: Block, off: nat, len: nat) returns (ok: bool)
    requires Backs(c, l) && i < c.n && c.buf[i].held && c.buf[i].valid && IsHome(l.g, c.buf[i].blockno)
    requires off + len <= BSIZE
    requires forall j :: 0 <= j < BSIZE && !(off <= j < off + len) ==> data[j] == c.buf[i].data[j]
    modifies c, l
    ensures ok <==> |old(l.lh)| < LOGSIZE && |old(l.lh)| < l.g.nlog - 1 && l.outstanding >= 1
    ensures l.outstanding == old(l.outstanding)
    ensures ok ==> Backs(c, l) && c.buf == old(c.buf)[i := old(c.buf)[i].(data := data, dirty := true)]
    ensures ok ==> l.view == old(l.view)[c.buf[i].blockno := data] && l.disk == old(l.disk)
    ensures ok ==> l.lh == Absorb(old(l.lh), c.buf[i].blockno, off, len)
  {
    hide Listed, Ordered, Ready, Absorb;
    var b := c.buf[i].blockno;
    SeenHeld(c.buf, c.disk, i);
    PinnedSet(c.buf, i, c.buf[i].(data := data, dirty := true));
    hide Pinned, Seen;
    c.Change(i, data);
    ok := l.Update(b, data, off, len);
    if ok {
      c.Pin(i);
      NamesAbsorb(old(l.lh), b, off, len);
      assert c.buf == old(c.buf)[i := old(c.buf)[i].(data := data, dirty := true)];
    }
  }

  /** A held buffer is changed and written at once, as writei does with a file's data. */
  method WriteBuffer(c: Cache, l: Log, i: nat, data: Block)
    requires Backs(c, l) && i < c.n && c.buf[i].held && c.buf[i].valid && IsHome(l.g, c.buf[i].blockno)
    modifies c, l
    ensures Backs(c, l) && c.buf == old(c.buf)[i := old(c.buf)[i].(data := data, dirty := false)]
    ensures l.view == old(l.view)[c.buf[i].blockno := data] && l.disk == old(l.disk)[c.buf[i].blockno := data]
    ensures l.lh == old(l.lh)
  {
    hide Listed, Ordered, Ready;
    PinnedSet(c.buf, i, c.buf[i].(data := data));
    c.Change(i, data);
    PinnedClear(c.buf, c.disk, i);
    hide View, Pinned;
    c.Bwrite(i);
    l.WriteThrough(c.buf[i].blockno, data);
    assert c.buf == old(c.buf)[i := old(c.buf)[i].(data := data, dirty := false)];
  }

  // ----- Enough buffers

  /** Nobody has a buffer. */
  ghost predicate Idle(buf: seq<Buf>) { forall i :: 0 <= i < |buf| ==> buf[i].refcnt == 0 }

  /** The buffers somebody has. */
  ghost function Busy(buf: seq<Buf>): set<nat> { set i: nat | i < |buf| && buf[i].refcnt > 0 }

  /** Nobody has a buffer of block b. */
  ghost predicate Untaken(buf: seq<Buf>, b: nat) {
    forall i :: 0 <= i < |buf| && Caches(buf[i], DISK, b) ==> buf[i].refcnt == 0
  }

  /** The buffers others have are as they were, and nobody has any more. */
  ghost predicate Leaves(buf: seq<Buf>, buf': seq<Buf>) {
    && |buf'| == |buf|
    && forall i :: 0 <= i < |buf| ==> if buf[i].refcnt > 0 then buf'[i] == buf[i] else buf'[i].refcnt == 0
  }

  lemma LeavesKeeps(buf: seq<Buf>, buf': seq<Buf>)
    requires Leaves(buf, buf')
    ensures Busy(buf') == Busy(buf) && forall b: nat :: Untaken(buf, b) ==> Untaken(buf', b)
  {}

  lemma LeavesTrans(buf: seq<Buf>, buf1: seq<Buf>, buf2: seq<Buf>)
    requires Leaves(buf, buf1) && Leaves(buf1, buf2)
    ensures Leaves(buf, buf2)
  {}

  /** Pinned buffers hold different blocks. */
  lemma {:induction false} PinCount(buf: seq<Buf>, disk: Disk, d: set<nat>)
    requires Sound(buf, disk) && forall i :: i in d ==> i < |buf| && buf[i].dirty
    ensures |d| == |set i | i in d :: buf[i].blockno|
  {
    if d != {} {
      var i :| i in d;
      var rest := d - {i};
      PinCount(buf, disk, rest);
      var s := set k | k in rest :: buf[k].blockno;
      forall k | k in rest ensures buf[k].blockno != buf[i].blockno { assert buf[k].valid && buf[i].valid; }
      assert (set k | k in d :: buf[k].blockno) == s + {buf[i].blockno};
    }
  }

  ghost function Dirty(buf: seq<Buf>): set<nat> { set i: nat | i < |buf| && buf[i].dirty }

  lemma DirtyCount(buf: seq<Buf>, disk: Disk)
    requires Sound(buf, disk)
    ensures |Dirty(buf)| == |Pinned(buf)|
  {
    PinCount(buf, disk, Dirty(buf));
    assert Pinned(buf) == set i | i in Dirty(buf) :: buf[i].blockno;
  }

  /** Fewer pinned and busy buffers than buffers leave one to recycle. */
  lemma RoomLeft(buf: seq<Buf>, disk: Disk, busy: set<nat>)
    requires Sound(buf, disk) && |Pinned(buf)| + |busy| < |buf|
    requires forall i: nat :: i < |buf| && i !in busy ==> buf[i].refcnt == 0
    ensures exists i: nat :: i < |buf| && Eligible(buf[i])
  {
    DirtyCount(buf, disk);
    if Upto(|buf|) <= Dirty(buf) + busy {
      Smaller(Upto(|buf|), Dirty(buf) + busy);
      assert false;
    }
    var i :| i in Upto(|buf|) && i !in Dirty(buf) + busy;
    assert Eligible(buf[i]);
  }

  /** With nobody else at work, a block that is not cached can be read if and only if
      not every buffer is pinned. */
  lemma ReadableIff(buf: seq<Buf>, disk: Disk)
    requires Sound(buf, disk) && Idle(buf)
    ensures (exists i: nat :: i < |buf| && Eligible(buf[i])) <==> |Pinned(buf)| < |buf|
  {
    if |Pinned(buf)| < |buf| {
      RoomLeft(buf, disk, {});
    } else if i: nat :| i < |buf| && Eligible(buf[i]) {
      DirtyCount(buf, disk);
      Smaller(Dirty(buf), Upto(|buf|) - {i});
      assert false;
    }
  }

  // ----- Commit through the cache

  /** memmove between the buffers of a log slot and of the home block it logs, and
      bwrite of the one changed: a turn of write_log or of install_trans. */
  method Copy(c: Cache, slot: nat, home: nat, toHome: bool, off: nat, len: nat, ghost names: set<nat>)
    requires c.Valid() && slot != home && slot < |c.disk| && home < |c.disk| && off + len <= BSIZE
    requires Untaken(c.buf, slot) && Untaken(c.buf, home)
    requires Pinned(c.buf) <= names && home in names && |names| + |Busy(c.buf)| < c.n
    modifies c
    ensures c.Valid() && Leaves(old(c.buf), c.buf)
    ensures var (to, from) := if toHome then (home, slot) else (slot, home);
      var v := old(View(c.buf, c.disk));
      var data := Splice(v[to], v[from], off, len);
      && c.disk == old(c.disk)[to := data] && View(c.buf, c.disk) == v[to := data]
      && Pinned(c.buf) == old(Pinned(c.buf)) - {to}
  {
    hide View, Listed, Ordered, Splice, Pinned, Busy;
    ghost var buf := c.buf;
    SomeRoom(c.buf, c.disk, names);
    var r := Bread(c, slot);
    var s := r.value;
    SecondRoom(buf, c.buf, c.disk, names, s, home);
    r := Bread(c, home);
    var h := r.value;
    if toHome {
      Store(c, h, s, Splice(c.buf[h].data, c.buf[s].data, off, len), buf);
    } else {
      Store(c, s, h, Splice(c.buf[s].data, c.buf[h].data, off, len), buf);
    }
  }

  /** Buffer to takes data and is written, and both buffers are given back. */
  method Store(c: Cache, to: nat, from: nat, data: Block, ghost buf: seq<Buf>)
    requires c.Valid() && to < c.n == |buf| && from < c.n && to != from
    requires buf[to].refcnt == buf[from].refcnt == 0 && c.buf[to].refcnt == c.buf[from].refcnt == 1
    requires forall i :: 0 <= i < c.n && i != to && i != from ==> c.buf[i] == buf[i]
    requires c.buf[to].held && c.buf[to].valid && c.buf[from].held && c.buf[from].valid && Clean(c.buf[from], c.disk)
    modifies c
    ensures c.Valid() && Leaves(buf, c.buf)
    ensures var b := old(c.buf)[to].blockno;
      && b < |old(c.disk)| && c.disk == old(c.disk)[b := data]
      && View(c.buf, c.disk) == old(View(c.buf, c.disk))[b := data]
      && Pinned(c.buf) == old(Pinned(c.buf)) - {b}
  {
    hide View, Listed, Ordered, Pinned;
    ghost var b0 := c.buf;
    c.Change(to, data);
    ghost var b1 := c.buf;
    StorePinned(b0, b1, c.disk, to, data);
    c.Bwrite(to);
    ghost var b2 := c.buf;
    ReleasePinned(b2, from);
    c.Brelse(from);
    ReleasePinned(c.buf, to);
    c.Brelse(to);
  }

  lemma StorePinned(b0: seq<Buf>, b1: seq<Buf>, disk: Disk, to: nat, data: Block)
    requires Sound(b1, disk) && to < |b0| && b1 == b0[to := b0[to].(data := data)] && b0[to].valid
    ensures Pinned(b1[to := b1[to].(dirty := false)]) == Pinned(b0) - {b0[to].blockno}
  {
    PinnedSet(b0, to, b0[to].(data := data));
    PinnedClear(b1, disk, to);
  }

  lemma ReleasePinned(buf: seq<Buf>, i: nat)
    requires i < |buf| && buf[i].refcnt > 0
    ensures Pinned(buf[i := buf[i].(held := false, refcnt := buf[i].refcnt - 1)]) == Pinned(buf)
  {
    PinnedSet(buf, i, buf[i].(held := false, refcnt := buf[i].refcnt - 1));
  }

  lemma SomeRoom(buf: seq<Buf>, disk: Disk, names: set<nat>)
    requires Sound(buf, disk) && Pinned(buf) <= names && |names| + |Busy(buf)| < |buf|
    ensures exists i :: 0 <= i < |buf| && Eligible(buf[i])
  {
    Smaller(Pinned(buf), names);
    RoomLeft(buf, disk, Busy(buf));
  }

  lemma IdleRoom(buf: seq<Buf>)
    requires Idle(buf)
    ensures Busy(buf) == {} && forall b: nat :: Untaken(buf, b)
  {}

  /** The home block is pinned, or there is a buffer for it too. */
  lemma SecondRoom(buf: seq<Buf>, buf1: seq<Buf>, disk: Disk, names: set<nat>, s: nat, home: nat)
    requires Sound(buf1, disk) && Pinned(buf1) <= names && home in names && s < |buf| == |buf1|
    requires |names| + |Busy(buf)| < |buf| && forall i :: 0 <= i < |buf| && i != s ==> buf1[i] == buf[i]
    ensures !Missing(buf1, DISK, home) || exists i :: 0 <= i < |buf| && Eligible(buf1[i])
  {
    if Missing(buf1, DISK, home) {
      forall i | 0 <= i < |buf1| && buf1[i].dirty ensures buf1[i].blockno != home { assert buf1[i].valid; }
      Smaller(Pinned(buf1), names - {home});
      UnionSize(Busy(buf), {s});
      RoomLeft(buf1, disk, Busy(buf) + {s});
    }
  }

  /** bread, fill in and bwrite one block, as write_head does. */
  method Rewrite(c: Cache, b: nat, data: Block, ghost names: set<nat>)
    requires c.Valid() && Untaken(c.buf, b) && b < |c.disk| && Pinned(c.buf) <= names && |names| + |Busy(c.buf)| < c.n
    modifies c
    ensures c.Valid() && Leaves(old(c.buf), c.buf)
    ensures c.disk == old(c.disk)[b := data] && View(c.buf, c.disk) == old(View(c.buf, c.disk))[b := data]
    ensures Pinned(c.buf) == old(Pinned(c.buf)) - {b}
  {
    hide View, Listed, Ordered, Pinned, Busy;
    SomeRoom(c.buf, c.disk, names);
    var r := Bread(c, b);
    ghost var b1 := c.buf;
    c.Change(r.value, data);
    StorePinned(b1, c.buf, c.disk, r.value, data);
    c.Bwrite(r.value);
    ReleasePinned(c.buf, r.value);
    c.Brelse(r.value);
  }

  lemma CommitFacts(g: Geometry, v: Disk, lh: seq<Entry>, tr: seq<Io>)
    requires Ready(g, v, v, lh) && CommitTrace(g, v, lh, tr)
    ensures |tr| == 2 * |lh| + 3 && tr[|lh|] == Flush && g.start < g.size == |v| && g.start !in Names(lh)
    ensures |Names(lh)| == |lh|
    ensures forall i :: 0 <= i < |lh| ==> Places(g, lh, i)
  {
    hide Covered, Cleared, Sealed, IsHeadWrite;
    NotNamed(g, lh, g.start);
    NamesCount(lh);
    forall i: nat | i < |lh| ensures Places(g, lh, i) {
      assert GoodEntry(g, lh[i]);
      NotNamed(g, lh, g.start + 1 + i);
    }
  }

  /** Where the blocks of entry i are. */
  ghost predicate Places(g: Geometry, lh: seq<Entry>, i: nat)
    requires i < |lh|
  {
    && lh[i].block < g.size && g.start + 1 + i < g.size && lh[i].off + lh[i].len <= BSIZE
    && g.start + 1 + i !in Names(lh) && lh[i].block in Names(lh)
  }

  /** A turn of write_log and a turn of install_trans write what the trace of commit says. */
  lemma SlotTurn(g: Geometry, v: Disk, lh: seq<Entry>, tr: seq<Io>, i: nat)
    requires Ready(g, v, v, lh) && CommitTrace(g, v, lh, tr) && i < |lh|
    ensures |tr| == 2 * |lh| + 3 && g.size == |v| && Places(g, lh, i)
    ensures var w := ApplyAll(v, tr[..i]);
      tr[i] == Write(g.start + 1 + i, Splice(w[g.start + 1 + i], w[lh[i].block], lh[i].off, lh[i].len))
  {
    hide Splice, Covered, Cleared, Sealed, IsHeadWrite, Names, ApplyAll, HomeEqual;
    CommitFacts(g, v, lh, tr);
    assert GoodEntry(g, lh[i]) && tr[i] == SlotWrite(g, v, lh, i);
    CommitWritesHome(g, v, v, lh, tr, i, lh[i].block);
    CommitSpares(g, v, lh, tr, 0, i, g.start + 1 + i);
    ApplyNone(v, tr, i, g.start + 1 + i);
  }

  lemma HomeTurn(g: Geometry, v: Disk, lh: seq<Entry>, tr: seq<Io>, i: nat)
    requires Ready(g, v, v, lh) && CommitTrace(g, v, lh, tr) && i < |lh|
    ensures |tr| == 2 * |lh| + 3 && g.size == |v| && Places(g, lh, i)
    ensures var (n, h) := (|lh|, lh[i].block);
      var w := ApplyAll(v, tr[..n + 2 + i]);
      tr[n + 2 + i] == Write(h, Splice(w[h], w[g.start + 1 + i], lh[i].off, lh[i].len))
  {
    hide Covered, Cleared, Sealed, IsHeadWrite, Names, ApplyAll, Splice, Slice, SlotWrite;
    CommitFacts(g, v, lh, tr);
    var (n, e) := (|lh|, lh[i]);
    assert GoodEntry(g, e) && tr[n + 2 + i] == Write(e.block, v[e.block]);
    CommitWritesHome(g, v, v, lh, tr, n + 2 + i, e.block);
    CommitWritesSlot(g, v, v, lh, tr, n + 2 + i, i);
    hide CommitTrace;
    var w := ApplyAll(v, tr[..n + 2 + i]);
    SameSlice(v[e.block], w[g.start + 1 + i], e.off, e.len);
  }

  lemma SameSlice(to: Block, from: Block, off: nat, len: nat)
    requires off + len <= BSIZE && Slice(from, off, len) == Slice(to, off, len)
    ensures Splice(to, from, off, len) == to
  {
    forall j | off <= j < off + len ensures from[j] == to[j] {
      assert from[j] == Slice(from, off, len)[j - off] && to[j] == Slice(to, off, len)[j - off];
    }
  }

  /** The requests tr[..k] have gone out; buf is the cache before the first. */
  ghost predicate Sent(c: Cache, buf: seq<Buf>, d: Disk, v: Disk, tr: seq<Io>, k: nat)
    reads c
  {
    && c.Valid() && Leaves(buf, c.buf) && k <= |tr| && |d| == |v|
    && c.disk == ApplyAll(d, tr[..k]) && View(c.buf, c.disk) == ApplyAll(v, tr[..k])
  }

  /** Nobody has a buffer of the log or of a block the header names, and others leave enough of them. */
  ghost predicate OutOfTheWay(buf: seq<Buf>, g: Geometry, lh: seq<Entry>) {
    && |lh| + |Busy(buf)| < |buf|
    && forall b: nat :: IsLog(g, b) || b in Names(lh) ==> Untaken(buf, b)
  }

  lemma NotNamed(g: Geometry, lh: seq<Entry>, b: nat)
    requires GoodLog(g, lh) && IsLog(g, b)
    ensures b !in Names(lh)
  {
    forall i | 0 <= i < |lh| ensures lh[i].block != b { assert GoodEntry(g, lh[i]); }
  }

  /** commit, as the cache sees it: with more buffers than header entries and buffers of
      others it never lacks one, and at the end nothing is pinned. */
  method SendCommit(c: Cache, g: Geometry, lh: seq<Entry>, head: Block, clear: Block, ghost tr: seq<Io>)
    requires c.Valid() && Pinned(c.buf) <= Names(lh) && OutOfTheWay(c.buf, g, lh)
    requires Ready(g, View(c.buf, c.disk), View(c.buf, c.disk), lh) && CommitTrace(g, View(c.buf, c.disk), lh, tr)
    requires tr[|lh| + 1] == Write(g.start, head) && tr[2 * |lh| + 2] == Write(g.start, clear)
    modifies c
    ensures c.Valid() && Leaves(old(c.buf), c.buf) && Pinned(c.buf) == {}
    ensures c.disk == ApplyAll(old(c.disk), tr) && View(c.buf, c.disk) == ApplyAll(old(View(c.buf, c.disk)), tr)
  {
    hide Ready, CommitTrace, View, Listed, Ordered, Sound, Pinned, Names, ApplyAll, Places, Busy, Untaken, Leaves,
      OutOfTheWay;
    ghost var buf, d, v, pins := c.buf, c.disk, View(c.buf, c.disk), Pinned(c.buf);
    LeavesAll(buf);
    CommitFacts(g, v, lh, tr);
    var n := |lh|;
    assert tr[..0] == [] && tr[..|tr|] == tr;
    ApplyEmpty(d);
    ApplyEmpty(v);
    var tail := 0;
    while tail < n
      invariant tail <= n && Sent(c, buf, d, v, tr, tail) && Pinned(c.buf) == pins
    {
      SendSlot(c, g, lh, tail, buf, d, v, tr);
      tail := tail + 1;
    }
    ApplyStep(d, tr, n);
    ApplyStep(v, tr, n);
    SendHead(c, g, lh, head, n + 1, buf, d, v, tr);
    tail := 0;
    NamesNone();
    while tail < n
      invariant tail <= n && Sent(c, buf, d, v, tr, n + 2 + tail) && Pinned(c.buf) == pins - Names(lh[..tail])
    {
      SendHome(c, g, lh, tail, buf, d, v, tr);
      NamesNext(lh, tail);
      tail := tail + 1;
    }
    assert lh[..n] == lh && lh[..0] == [];
    SendHead(c, g, lh, clear, 2 * n + 2, buf, d, v, tr);
  }

  lemma LeavesAll(buf: seq<Buf>) ensures Leaves(buf, buf) {}

  /** end_op of the last operation over both layers. With nobody else at work, a log no longer
      than the cache will do, which is what mkfs makes: nlog, LOGSIZE and NBUF are all 30. */
  method EndLastOp(c: Cache, l: Log)
    requires Backs(c, l) && OutOfTheWay(c.buf, l.g, l.lh) && l.outstanding == 1
    modifies c, l
    ensures Backs(c, l) && Leaves(old(c.buf), c.buf) && l.lh == [] && l.outstanding == 0 && Pinned(c.buf) == {}
    ensures HomeEqual(l.g, l.view, old(l.view)) && HomeEqual(l.g, c.disk, l.view)
  {
    hide View, Listed, Ordered, Sound, Pinned, ApplyAll, HomeEqual, Ready, CommitTrace, Names, OutOfTheWay,
      Leaves, Crc32.IsTable;
    StartIsLog(l.g, l.disk, l.view, l.lh);
    LeavesAll(c.buf);
    var lh, k := l.lh, |l.ios|;
    CacheReady(l.g, l.disk, l.view, lh);
    NamesNone();
    l.EndOp();
    if lh != [] {
      var tr := l.ios[k..];
      CommitHeads(l.g, old(l.view), lh, tr);
      SendCommit(c, l.g, lh, tr[|lh| + 1].data, tr[2 * |lh| + 2].data, tr);
    }
  }

  /** With nobody else at work, a log no longer than the cache leaves a buffer to spare. */
  lemma IdleOutOfTheWay(buf: seq<Buf>, g: Geometry, lh: seq<Entry>)
    requires Idle(buf) && GoodLog(g, lh) && g.nlog <= |buf|
    ensures OutOfTheWay(buf, g, lh)
  {
    IdleRoom(buf);
  }

  lemma StartIsLog(g: Geometry, d: Disk, v: Disk, lh: seq<Entry>)
    requires Ready(g, d, v, lh)
    ensures IsLog(g, g.start) && g.start < |d| == |v| && |lh| < g.nlog && GeometryOk(g) && GoodLog(g, lh)
  {}

  lemma CommitHeads(g: Geometry, v: Disk, lh: seq<Entry>, tr: seq<Io>)
    requires Ready(g, v, v, lh) && CommitTrace(g, v, lh, tr)
    ensures |tr| == 2 * |lh| + 3 && tr[|lh| + 1].Write? && tr[|lh| + 1].b == g.start
    ensures tr[2 * |lh| + 2].Write? && tr[2 * |lh| + 2].b == g.start
  {}

  /** With every buffer pinned, the first bread of commit panics. */
  lemma CommitStarves(buf: seq<Buf>, disk: Disk, g: Geometry, lh: seq<Entry>, b: nat)
    requires Sound(buf, disk) && GoodLog(g, lh) && Pinned(buf) <= Names(lh) && |Pinned(buf)| == |buf| && IsLog(g, b)
    ensures Missing(buf, DISK, b) && forall i :: 0 <= i < |buf| ==> !Eligible(buf[i])
  {
    DirtyCount(buf, disk);
    SameSize(Dirty(buf), Upto(|buf|));
    NotNamed(g, lh, b);
    forall i: nat | i < |buf| ensures buf[i].dirty && buf[i].blockno != b {
      assert i in Dirty(buf) && buf[i].blockno in Pinned(buf);
    }
  }

  method SendSlot(c: Cache, g: Geometry, lh: seq<Entry>, i: nat,
                  ghost buf: seq<Buf>, ghost d: Disk, ghost v: Disk, ghost tr: seq<Io>)
    requires Ready(g, v, v, lh) && CommitTrace(g, v, lh, tr) && i < |lh| && Sent(c, buf, d, v, tr, i)
    requires Pinned(c.buf) <= Names(lh) && OutOfTheWay(buf, g, lh)
    modifies c
    ensures Sent(c, buf, d, v, tr, i + 1) && Pinned(c.buf) == old(Pinned(c.buf))
  {
    hide Ready, CommitTrace, View, Listed, Ordered, Splice, Sound, Pinned, ApplyAll, Leaves, OutOfTheWay, Names;
    SlotTurn(g, v, lh, tr, i);
    ApplyStep(d, tr, i);
    ApplyStep(v, tr, i);
    StillOut(g, v, lh, buf, c.buf, i);
    ghost var now := c.buf;
    Copy(c, g.start + 1 + i, lh[i].block, false, lh[i].off, lh[i].len, Names(lh));
    LeavesTrans(buf, now, c.buf);
  }

  method SendHome(c: Cache, g: Geometry, lh: seq<Entry>, i: nat,
                  ghost buf: seq<Buf>, ghost d: Disk, ghost v: Disk, ghost tr: seq<Io>)
    requires Ready(g, v, v, lh) && CommitTrace(g, v, lh, tr) && i < |lh| && Sent(c, buf, d, v, tr, |lh| + 2 + i)
    requires Pinned(c.buf) <= Names(lh) && OutOfTheWay(buf, g, lh)
    modifies c
    ensures Sent(c, buf, d, v, tr, |lh| + 3 + i) && Pinned(c.buf) == old(Pinned(c.buf)) - {lh[i].block}
  {
    hide Ready, CommitTrace, View, Listed, Ordered, Splice, Sound, Pinned, ApplyAll, Leaves, OutOfTheWay, Names;
    HomeTurn(g, v, lh, tr, i);
    ApplyStep(d, tr, |lh| + 2 + i);
    ApplyStep(v, tr, |lh| + 2 + i);
    StillOut(g, v, lh, buf, c.buf, i);
    ghost var now := c.buf;
    Copy(c, g.start + 1 + i, lh[i].block, true, lh[i].off, lh[i].len, Names(lh));
    LeavesTrans(buf, now, c.buf);
  }

  method SendHead(c: Cache, g: Geometry, lh: seq<Entry>, data: Block, k: nat,
                  ghost buf: seq<Buf>, ghost d: Disk, ghost v: Disk, ghost tr: seq<Io>)
    requires Ready(g, v, v, lh) && Sent(c, buf, d, v, tr, k) && k < |tr| && tr[k] == Write(g.start, data)
    requires Pinned(c.buf) <= Names(lh) && OutOfTheWay(buf, g, lh)
    modifies c
    ensures Sent(c, buf, d, v, tr, k + 1) && Pinned(c.buf) == old(Pinned(c.buf))
  {
    hide Ready, View, Listed, Ordered, Sound, Pinned, ApplyAll, Leaves, OutOfTheWay, Names;
    ApplyStep(d, tr, k);
    ApplyStep(v, tr, k);
    StillOut(g, v, lh, buf, c.buf, 0);
    ghost var now := c.buf;
    Rewrite(c, g.start, data, Names(lh));
    LeavesTrans(buf, now, c.buf);
  }

  /** What the next turn of a commit needs of the cache. */
  lemma StillOut(g: Geometry, v: Disk, lh: seq<Entry>, buf: seq<Buf>, now: seq<Buf>, i: nat)
    requires Ready(g, v, v, lh) && OutOfTheWay(buf, g, lh) && Leaves(buf, now)
    ensures |now| == |buf| && |Names(lh)| + |Busy(now)| < |now|
    ensures Untaken(now, g.start) && g.start !in Names(lh) && g.start < |v|
    ensures i < |lh| ==> Untaken(now, g.start + 1 + i) && Untaken(now, lh[i].block)
  {
    hide Cleared, Covered, Untaken, Busy;
    NamesCount(lh);
    NotNamed(g, lh, g.start);
    LeavesKeeps(buf, now);
    if i < |lh| { assert lh[i].block in Names(lh) && IsLog(g, g.start + 1 + i); }
    assert IsLog(g, g.start);
  }

  // ----- A log longer than the cache

  /** bread, log_write of the whole block, brelse. */
  method LogWhole(c: Cache, l: Log, b: nat)
    requires Backs(c, l) && Idle(c.buf) && IsHome(l.g, b) && b !in Names(l.lh) && |l.lh| < c.n
    requires |l.lh| < LOGSIZE && |l.lh| < l.g.nlog - 1 && l.outstanding >= 1
    modifies c, l
    ensures Backs(c, l) && Idle(c.buf) && l.outstanding == old(l.outstanding)
    ensures Names(l.lh) == old(Names(l.lh)) + {b} && |l.lh| == |old(l.lh)| + 1
    ensures Pinned(c.buf) == old(Pinned(c.buf)) + {b}
  {
    hide View, Listed, Ordered, Ready, Pinned, Names, Crc32.IsTable, Absorb;
    StartIsLog(l.g, l.disk, l.view, l.lh);
    NamesCount(l.lh);
    IdleRoom(c.buf);
    SomeRoom(c.buf, c.disk, Names(l.lh));
    var r := Bread(c, b);
    var i := r.value;
    PinnedSet(c.buf, i, c.buf[i].(data := c.buf[i].data, dirty := true));
    NamesAbsorb(l.lh, b, 0, BSIZE);
    AbsorbNew(l.lh, b, 0, BSIZE);
    var ok := LogBuffer(c, l, i, c.buf[i].data, 0, BSIZE);
    ReleasePinned(c.buf, i);
    c.Brelse(i);
  }

  lemma AbsorbNew(lh: seq<Entry>, b: nat, off: nat, len: nat)
    requires b !in Names(lh)
    ensures |Absorb(lh, b, off, len)| == |lh| + 1
  {}

  /** NBUF is LOGSIZE: on a volume whose log is longer, three operations that log ten blocks
      each pin every buffer, and the commit that follows cannot read its first slot. */
  method PinEverything(c: Cache, l: Log, h: nat)
    requires Backs(c, l) && Idle(c.buf) && l.lh == [] && l.outstanding == 0
    requires c.n == LOGSIZE < l.g.nlog && forall b: nat :: h <= b < h + LOGSIZE ==> IsHome(l.g, b)
    modifies c, l
    ensures Backs(c, l) && Idle(c.buf) && l.outstanding == 3
    ensures forall b: nat :: IsLog(l.g, b) ==> Missing(c.buf, DISK, b)
    ensures forall i :: 0 <= i < c.n ==> !Eligible(c.buf[i])
  {
    hide View, Listed, Ordered, Ready, Pinned, Names, IsHome, Crc32.IsTable;
    NamesNone();
    NonePinned(c.buf, l.lh);
    var admitted := l.BeginOp();
    admitted := l.BeginOp();
    admitted := l.BeginOp();
    var i := 0;
    while i < LOGSIZE
      invariant 0 <= i <= LOGSIZE && Backs(c, l) && Idle(c.buf) && l.outstanding == 3 && |l.lh| == i
      invariant Names(l.lh) == Pinned(c.buf) && |Pinned(c.buf)| == i
      invariant forall b: nat :: b in Pinned(c.buf) ==> b < h + i
    {
      LogWhole(c, l, h + i);
      i := i + 1;
    }
    StartIsLog(l.g, l.disk, l.view, l.lh);
    forall b: nat | IsLog(l.g, b) ensures Missing(c.buf, DISK, b) { CommitStarves(c.buf, c.disk, l.g, l.lh, b); }
    CommitStarves(c.buf, c.disk, l.g, l.lh, l.g.start);
  }

  lemma NonePinned(buf: seq<Buf>, lh: seq<Entry>)
    requires Pinned(buf) <= Names(lh) && lh == []
    ensures Pinned(buf) == {} == Names(lh)
  {}
}

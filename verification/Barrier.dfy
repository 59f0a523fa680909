/** Commit on a drive with a volatile cache: since the last flush, any subset of
    the writes may have reached the platter, in any order. */
module Barrier {
  import opened Blocks
  import opened LogHeader
  import opened CrashSafety

  /** How many of the first k requests are certainly durable: those up to the last flush. */
  ghost function Durable(ios: seq<Io>, k: nat): (f: nat)
    requires k <= |ios|
    ensures f <= k
  {
    if k == 0 then 0 else if ios[k - 1].Flush? then k else Durable(ios, k - 1)
  }

  /** A platter a power loss after k requests can leave behind. */
  ghost predicate CacheCrash(d: Disk, ios: seq<Io>, k: nat, d': Disk)
    requires k <= |ios|
  {
    && |d'| == |d|
    && forall b: nat :: b < |d| ==> MayHold(d, ios, k, b, d'[b])
  }

  ghost predicate MayHold(d: Disk, ios: seq<Io>, k: nat, b: nat, x: Block)
    requires k <= |ios| && b < |d|
  {
    || x == ApplyAll(d, ios[..Durable(ios, k)])[b]
    || exists m :: Durable(ios, k) <= m < k && ios[m] == Write(b, x)
  }

  /** A disk that writes in order is one of the drives covered. */
  lemma {:induction false} InOrderIsCovered(d: Disk, ios: seq<Io>, k: nat, b: nat)
    requires k <= |ios| && b < |d|
    ensures MayHold(d, ios, k, b, ApplyAll(d, ios[..k])[b])
  {
    if k > 0 && !ios[k - 1].Flush? {
      InOrderIsCovered(d, ios, k - 1, b);
      ApplyStep(d, ios, k - 1);
      if ios[k - 1].b != b {
        var x := ApplyAll(d, ios[..k - 1])[b];
        if m :| Durable(ios, k) <= m < k - 1 && ios[m] == Write(b, x) {}
      }
    }
  }

  lemma {:induction false} CommitDurable(g: Geometry, view: Disk, lh: seq<Entry>, tr: seq<Io>, k: nat)
    requires GeometryOk(g) && |view| == g.size && GoodLog(g, lh)
    requires CommitTrace(g, view, lh, tr) && k <= |tr|
    ensures Durable(tr, k) == if k <= |lh| then 0 else |lh| + 1
  {
    hide Sealed, HeadOk, ReadHead;
    var n := |lh|;
    if k > 0 {
      CommitDurable(g, view, lh, tr, k - 1);
      if k - 1 < n { assert tr[k - 1] == SlotWrite(g, view, lh, k - 1); }
      else if n + 2 <= k - 1 < 2 * n + 2 {
        assert tr[n + 2 + (k - 1 - n - 2)] == Write(lh[k - 1 - n - 2].block, view[lh[k - 1 - n - 2].block]);
      }
    }
  }

  /** After any crash every home block is its old or its new self. */
  lemma CrashHomes(g: Geometry, pre: Disk, view: Disk, lh: seq<Entry>, tr: seq<Io>, k: nat, d: Disk)
    requires Ready(g, pre, view, lh) && CommitTrace(g, view, lh, tr) && k <= |tr|
    requires CacheCrash(pre, tr, k, d)
    ensures EachOldOrNew(g, pre, view, d)
  {
    hide Sealed, HeadOk, ReadHead, Cleared, Covered;
    CommitDurable(g, view, lh, tr, k);
    forall b: nat | IsHome(g, b)
      ensures d[b] == pre[b] || d[b] == view[b]
    {
      var f := Durable(tr, k);
      assert MayHold(pre, tr, k, b, d[b]);
      if d[b] == ApplyAll(pre, tr[..f])[b] {
        CommitWritesHome(g, pre, view, lh, tr, f, b);
      } else {
        var m :| f <= m < k && tr[m] == Write(b, d[b]);
        CommitTarget(g, view, lh, tr, m);
        assert |lh| + 2 <= m < 2 * |lh| + 2;
        assert tr[|lh| + 2 + (m - |lh| - 2)] == Write(lh[m - |lh| - 2].block, view[lh[m - |lh| - 2].block]);
      }
    }
  }

  /** Once the flush is done the slots are durable, whatever the drive holds back. */
  lemma CrashSlots(g: Geometry, pre: Disk, view: Disk, lh: seq<Entry>, tr: seq<Io>, k: nat, d: Disk, i: nat)
    requires Ready(g, pre, view, lh) && CommitTrace(g, view, lh, tr) && |lh| < k <= |tr|
    requires CacheCrash(pre, tr, k, d) && i < |lh|
    ensures SlotHolds(g, view, lh, d, i)
  {
    hide Sealed, HeadOk, ReadHead, Cleared, Covered, SlotHolds;
    CommitDurable(g, view, lh, tr, k);
    var b := g.start + 1 + i;
    var f := |lh| + 1;
    assert MayHold(pre, tr, k, b, d[b]);
    if m :| f <= m < k && tr[m] == Write(b, d[b]) {
      CommitTarget(g, view, lh, tr, m);
      assert false;
    }
    CommitWritesSlot(g, pre, view, lh, tr, f, i);
    assert d[b] == ApplyAll(pre, tr[..f])[b];
    SameSlot(g, view, lh, ApplyAll(pre, tr[..f]), d, i);
  }

  lemma SameSlot(g: Geometry, view: Disk, lh: seq<Entry>, x: Disk, y: Disk, i: nat)
    requires GeometryOk(g) && |view| == |x| == |y| == g.size && GoodLog(g, lh) && i < |lh|
    requires x[g.start + 1 + i] == y[g.start + 1 + i] && SlotHolds(g, view, lh, x, i)
    ensures SlotHolds(g, view, lh, y, i)
  {}

  /** What the header block can hold after a crash. */
  lemma CrashHead(g: Geometry, pre: Disk, view: Disk, lh: seq<Entry>, tr: seq<Io>, k: nat, d: Disk)
    requires Ready(g, pre, view, lh) && CommitTrace(g, view, lh, tr) && k <= |tr|
    requires CacheCrash(pre, tr, k, d)
    ensures HeadOk(d[g.start])
    ensures ReadHead(d[g.start]) == [] || (ReadHead(d[g.start]) == Sealed(view, lh) && |lh| + 2 <= k)
  {
    hide Sealed, HeadOk, ReadHead, Covered;
    CommitDurable(g, view, lh, tr, k);
    var b := g.start;
    var f := Durable(tr, k);
    assert MayHold(pre, tr, k, b, d[b]);
    if m :| f <= m < k && tr[m] == Write(b, d[b]) {
      CommitTarget(g, view, lh, tr, m);
      HomesAreNotHead(g, lh);
    } else {
      CommitWritesHead(g, pre, view, lh, tr, f);
    }
  }

  lemma HomesAreNotHead(g: Geometry, lh: seq<Entry>)
    requires GeometryOk(g) && GoodLog(g, lh)
    ensures forall i :: 0 <= i < |lh| ==> lh[i].block != g.start
  {
    assert forall i :: 0 <= i < |lh| ==> GoodEntry(g, lh[i]);
  }

  /** The barrier: a platter whose header names the transaction holds all its
      slots with matching checksums, so recovery rebuilds the whole new state. */
  lemma BarrierHolds(g: Geometry, pre: Disk, view: Disk, lh: seq<Entry>, tr: seq<Io>, k: nat, d: Disk, final: Disk)
    requires Ready(g, pre, view, lh) && lh != [] && CommitTrace(g, view, lh, tr) && k <= |tr|
    requires CacheCrash(pre, tr, k, d)
    requires HeadOk(d[g.start]) && ReadHead(d[g.start]) != []
    requires FullRecovery(g, d, final)
    ensures Committed(g, pre, view, lh, d)
    ensures Uncommitted(g, view, final)
  {
    hide Sealed, HeadOk, ReadHead, Covered, SlotHolds, FullRecovery, CommitTrace, MayHold, Cleared, EachOldOrNew;
    CrashHead(g, pre, view, lh, tr, k, d);
    CrashHomes(g, pre, view, lh, tr, k, d);
    forall i | 0 <= i < |lh| ensures SlotHolds(g, view, lh, d, i) {
      CrashSlots(g, pre, view, lh, tr, k, d, i);
    }
    FullRecoveryFinishes(g, pre, view, lh, d, final);
  }

  // ----- Recovery on the same drive

  /** A recovery cut off on this drive: there is no flush among its requests, so any of them may be
      missing from the platter. */
  ghost predicate TornRecovery(g: Geometry, d: Disk, d': Disk)
    requires GeometryOk(g)
  {
    exists tr: seq<Io>, k: nat :: k <= |tr| && RecoverTrace(g, d, tr) && CacheCrash(d, tr, k, d')
  }

  /** Boots in a row on this drive. */
  ghost predicate TornChain(g: Geometry, ds: seq<Disk>)
    requires GeometryOk(g)
  {
    |ds| > 0 && forall i :: 0 <= i < |ds| - 1 ==> TornRecovery(g, ds[i], ds[i + 1])
  }

  /** What such crashes leave: old and new home blocks mixed under a cleared header, or a
      transaction that can be replayed. */
  ghost predicate Torn(g: Geometry, pre: Disk, view: Disk, lh: seq<Entry>, d: Disk)
    requires GeometryOk(g) && |pre| == |view| == g.size && GoodLog(g, lh)
  {
    || (|d| == g.size && Cleared(g, d) && EachOldOrNew(g, pre, view, d))
    || Committed(g, pre, view, lh, d)
  }

  lemma {:induction false} NoFlush(tr: seq<Io>, k: nat)
    requires k <= |tr| && forall i :: 0 <= i < |tr| ==> tr[i].Write?
    ensures Durable(tr, k) == 0
  {
    if k > 0 { NoFlush(tr, k - 1); }
  }

  /** Without a flush a block holds what it held, or something written to it. */
  lemma TornBlock(d: Disk, tr: seq<Io>, k: nat, d': Disk, b: nat)
    requires k <= |tr| && (forall i :: 0 <= i < |tr| ==> tr[i].Write?) && CacheCrash(d, tr, k, d') && b < |d|
    ensures d'[b] == d[b] || exists m :: 0 <= m < |tr| && tr[m] == Write(b, d'[b])
  {
    NoFlush(tr, k);
    assert MayHold(d, tr, k, b, d'[b]) && tr[..0] == [];
  }

  lemma TornReplay(g: Geometry, pre: Disk, view: Disk, lh: seq<Entry>, d: Disk, tr: seq<Io>, k: nat, d': Disk)
    requires Ready(g, pre, view, lh) && Committed(g, pre, view, lh, d) && ReplaysAll(g, view, lh, tr)
    requires k <= |tr| && CacheCrash(d, tr, k, d')
    ensures Torn(g, pre, view, lh, d')
  {
    hide HeadOk, ReadHead, Covered, Sealed, CacheCrash;
    assert |d'| == |d| by { CrashSize(d, tr, k, d'); }
    HomesAreNotHead(g, lh);
    forall b: nat | IsHome(g, b) ensures d'[b] == d[b] || d'[b] == view[b] { TornBlock(d, tr, k, d', b); }
    forall b: nat | IsLog(g, b) && b != g.start ensures d'[b] == d[b] {
      TornBlock(d, tr, k, d', b);
      assert forall i :: 0 <= i < |lh| ==> GoodEntry(g, lh[i]);
    }
    TornBlock(d, tr, k, d', g.start);
    forall i | 0 <= i < |lh| ensures SlotHolds(g, view, lh, d', i) { SameSlot(g, view, lh, d, d', i); }
  }

  lemma CrashSize(d: Disk, tr: seq<Io>, k: nat, d': Disk)
    requires k <= |tr| && CacheCrash(d, tr, k, d')
    ensures |d'| == |d|
  {}

  lemma TornIdle(g: Geometry, pre: Disk, view: Disk, d: Disk, tr: seq<Io>, k: nat, d': Disk)
    requires GeometryOk(g) && |pre| == |view| == |d| == g.size && Cleared(g, d) && EachOldOrNew(g, pre, view, d)
    requires k <= |tr| && RecoverTrace(g, d, tr) && CacheCrash(d, tr, k, d')
    ensures |d'| == g.size && Cleared(g, d') && EachOldOrNew(g, pre, view, d')
  {
    hide HeadOk, ReadHead, CacheCrash;
    CrashSize(d, tr, k, d');
    assert |tr| == 1;
    forall b: nat | b < g.size ensures d'[b] == d[b] || tr[0] == Write(b, d'[b]) { TornBlock(d, tr, k, d', b); }
  }

  lemma TornStep(g: Geometry, pre: Disk, view: Disk, lh: seq<Entry>, d: Disk, d': Disk)
    requires Ready(g, pre, view, lh) && Torn(g, pre, view, lh, d) && TornRecovery(g, d, d')
    ensures Torn(g, pre, view, lh, d')
  {
    hide Cleared, Covered, Committed, RecoverTrace, CacheCrash, EachOldOrNew, ReplaysAll;
    var tr: seq<Io>, k: nat :| k <= |tr| && RecoverTrace(g, d, tr) && CacheCrash(d, tr, k, d');
    if Committed(g, pre, view, lh, d) {
      CommittedReplays(g, pre, view, lh, d, tr);
      TornReplay(g, pre, view, lh, d, tr, k, d');
    } else {
      TornIdle(g, pre, view, d, tr, k, d');
    }
  }

  lemma {:induction false} TornChainKeeps(g: Geometry, pre: Disk, view: Disk, lh: seq<Entry>, ds: seq<Disk>)
    requires Ready(g, pre, view, lh) && TornChain(g, ds) && Torn(g, pre, view, lh, ds[0])
    ensures Torn(g, pre, view, lh, ds[|ds| - 1])
    decreases |ds|
  {
    hide Cleared, Covered, GoodLog, Torn, TornRecovery;
    if |ds| > 1 {
      var m := |ds| - 2;
      TornChainKeeps(g, pre, view, lh, ds[..m + 1]);
      assert TornRecovery(g, ds[m], ds[m + 1]);
      TornStep(g, pre, view, lh, ds[m], ds[m + 1]);
    }
  }

  /** A commit cut off on this drive leaves such a platter. */
  lemma CrashTorn(g: Geometry, pre: Disk, view: Disk, lh: seq<Entry>, tr: seq<Io>, k: nat, d: Disk)
    requires Ready(g, pre, view, lh) && CommitTrace(g, view, lh, tr) && k <= |tr| && CacheCrash(pre, tr, k, d)
    ensures Torn(g, pre, view, lh, d)
  {
    hide Sealed, HeadOk, ReadHead, Covered, SlotHolds, CommitTrace, MayHold, EachOldOrNew;
    CrashHead(g, pre, view, lh, tr, k, d);
    CrashHomes(g, pre, view, lh, tr, k, d);
    if ReadHead(d[g.start]) != [] {
      forall i | 0 <= i < |lh| ensures SlotHolds(g, view, lh, d, i) { CrashSlots(g, pre, view, lh, tr, k, d, i); }
    }
  }

  // ----- The barrier does not make commit atomic on such a drive

  /** Commit cut off after k requests, any number of recoveries cut off after it, one that completes. */
  ghost predicate Ends(g: Geometry, pre: Disk, tr: seq<Io>, k: nat, boots: seq<Disk>, final: Disk)
    requires GeometryOk(g)
  {
    && k <= |tr| && TornChain(g, boots) && CacheCrash(pre, tr, k, boots[0])
    && FullRecovery(g, boots[|boots| - 1], final)
  }

  ghost predicate Atomic(g: Geometry, pre: Disk, view: Disk, tr: seq<Io>)
    requires GeometryOk(g) && |pre| == |view| == g.size
  {
    forall k: nat, boots: seq<Disk>, final: Disk :: Ends(g, pre, tr, k, boots, final) ==>
      |final| == g.size && (HomeEqual(g, final, pre) || HomeEqual(g, final, view))
  }

  /** The transaction changes at most one home block. */
  ghost predicate OneBlock(g: Geometry, pre: Disk, view: Disk)
    requires |pre| == |view| == g.size
  {
    forall b: nat, c: nat :: IsHome(g, b) && IsHome(g, c) && pre[b] != view[b] && pre[c] != view[c] ==> b == c
  }

  lemma ClearedRecovery(g: Geometry, d: Disk, final: Disk)
    requires GeometryOk(g) && |d| == g.size && Cleared(g, d) && FullRecovery(g, d, final)
    ensures |final| == g.size && HomeEqual(g, final, d)
  {
    hide HeadOk, ReadHead, RecoverTrace;
    var tr :| RecoverTrace(g, d, tr) && final == ApplyAll(d, tr);
    assert tr[..|tr|] == tr;
    RecoverCleared(g, d, d, tr, |tr|);
  }

  lemma OneBlockIsAtomic(g: Geometry, pre: Disk, view: Disk, lh: seq<Entry>, tr: seq<Io>, k: nat, boots: seq<Disk>,
                         final: Disk)
    requires Ready(g, pre, view, lh) && CommitTrace(g, view, lh, tr) && OneBlock(g, pre, view)
    requires Ends(g, pre, tr, k, boots, final)
    ensures |final| == g.size && (HomeEqual(g, final, pre) || HomeEqual(g, final, view))
  {
    hide Cleared, Covered, GoodLog, FullRecovery, CommitTrace, CacheCrash, Committed, TornRecovery;
    CrashTorn(g, pre, view, lh, tr, k, boots[0]);
    TornChainKeeps(g, pre, view, lh, boots);
    var d := boots[|boots| - 1];
    if Committed(g, pre, view, lh, d) {
      FullRecoveryFinishes(g, pre, view, lh, d, final);
    } else {
      ClearedRecovery(g, d, final);
    }
  }

  /** The platter where one home write overtook the commit header. */
  lemma OvertakenCrash(g: Geometry, pre: Disk, view: Disk, lh: seq<Entry>, tr: seq<Io>, i: nat) returns (d: Disk)
    requires Ready(g, pre, view, lh) && CommitTrace(g, view, lh, tr) && i < |lh|
    ensures CacheCrash(pre, tr, |tr|, d) && Cleared(g, d)
    ensures forall b: nat :: IsHome(g, b) ==> d[b] == if b == lh[i].block then view[b] else pre[b]
  {
    hide Sealed, HeadOk, ReadHead, Covered;
    var n := |lh|;
    var base := ApplyAll(pre, tr[..n + 1]);
    var c := lh[i].block;
    HomesAreNotHead(g, lh);
    d := base[c := view[c]];
    CommitDurable(g, view, lh, tr, |tr|);
    CommitWritesHead(g, pre, view, lh, tr, n + 1);
    assert tr[n + 2 + i] == Write(c, view[c]);
    forall b: nat | b < |pre| ensures MayHold(pre, tr, |tr|, b, d[b]) {
      if b == c { assert n + 1 <= n + 2 + i < |tr|; }
    }
    forall b: nat | IsHome(g, b) ensures d[b] == if b == c then view[b] else pre[b] {
      CommitWritesHome(g, pre, view, lh, tr, n + 1, b);
    }
  }

  /** A recovery that finds a cleared header and rewrites it as it was. */
  lemma IdleRecovery(g: Geometry, d: Disk)
    requires GeometryOk(g) && |d| == g.size && Cleared(g, d)
    ensures FullRecovery(g, d, d)
  {
    hide HeadOk, ReadHead;
    var tr := [Write(g.start, d[g.start])];
    assert tr == [] + tr;
    ApplyLast(d, [], tr[0]);
    assert ApplyAll(d, []) == d;
    assert tr[..0] == [];
    assert RecoverTrace(g, d, tr);
  }

  lemma ChangedIsLogged(g: Geometry, pre: Disk, view: Disk, lh: seq<Entry>, b: nat) returns (i: nat)
    requires Ready(g, pre, view, lh) && IsHome(g, b) && pre[b] != view[b]
    ensures i < |lh| && lh[i].block == b
  {
    if k: nat :| k < |lh| && lh[k].block == b {
      i := k;
    } else {
      NotLogged(g, pre, view, lh, b);
      assert false;
    }
  }

  /** Exactly the transactions that change at most one home block are atomic on
      a drive that reorders: with two, a home write can overtake the header. */
  lemma AtomicIffOneBlock(g: Geometry, pre: Disk, view: Disk, lh: seq<Entry>, tr: seq<Io>)
    requires Ready(g, pre, view, lh) && CommitTrace(g, view, lh, tr)
    ensures Atomic(g, pre, view, tr) <==> OneBlock(g, pre, view)
  {
    hide Sealed, HeadOk, ReadHead, Covered, CommitTrace, CacheCrash, FullRecovery, Cleared, TornRecovery;
    if OneBlock(g, pre, view) {
      forall k: nat, boots: seq<Disk>, final: Disk | Ends(g, pre, tr, k, boots, final)
        ensures |final| == g.size && (HomeEqual(g, final, pre) || HomeEqual(g, final, view))
      {
        OneBlockIsAtomic(g, pre, view, lh, tr, k, boots, final);
      }
    } else {
      var b: nat, c: nat :| IsHome(g, b) && IsHome(g, c) && pre[b] != view[b] && pre[c] != view[c] && b != c;
      var i := ChangedIsLogged(g, pre, view, lh, c);
      var d := OvertakenCrash(g, pre, view, lh, tr, i);
      CrashSize(pre, tr, |tr|, d);
      IdleRecovery(g, d);
      assert Ends(g, pre, tr, |tr|, [d], d);
      assert d[b] == pre[b] && d[c] == view[c];
    }
  }

  // ----- Nor durable

  /** Every crash whose platter has the commit header on it ends in the new state. */
  ghost predicate Lasting(g: Geometry, pre: Disk, view: Disk, tr: seq<Io>)
    requires GeometryOk(g) && |pre| == |view| == g.size
  {
    forall k: nat, boots: seq<Disk>, final: Disk ::
      Ends(g, pre, tr, k, boots, final) && HasHeader(g, boots[0]) ==> |final| == g.size && HomeEqual(g, final, view)
  }

  ghost predicate HasHeader(g: Geometry, d: Disk)
    requires GeometryOk(g)
  {
    |d| == g.size && HeadOk(d[g.start]) && ReadHead(d[g.start]) != []
  }

  /** The platter right after the commit header, and the one that recovery makes of it when the cleared
      header overtakes the home writes. */
  lemma ForgottenCommit(g: Geometry, pre: Disk, view: Disk, lh: seq<Entry>, tr: seq<Io>) returns (d: Disk, d': Disk)
    requires Ready(g, pre, view, lh) && CommitTrace(g, view, lh, tr) && lh != []
    ensures |lh| + 2 <= |tr| && CacheCrash(pre, tr, |lh| + 2, d) && HasHeader(g, d) && TornRecovery(g, d, d')
    ensures |d'| == g.size && Cleared(g, d') && HomeEqual(g, d', pre)
  {
    hide Sealed, Covered, SlotHolds, HeadOk, ReadHead, IsHeadWrite, SlotWrite, MayHold;
    d := ApplyAll(pre, tr[..|lh| + 2]);
    forall b: nat | b < |pre| ensures MayHold(pre, tr, |lh| + 2, b, d[b]) { InOrderIsCovered(pre, tr, |lh| + 2, b); }
    CommitCrashStates(g, pre, view, lh, tr, |lh| + 2);
    forall b: nat | IsHome(g, b) ensures d[b] == pre[b] { CommitWritesHome(g, pre, view, lh, tr, |lh| + 2, b); }
    d' := TornClear(g, pre, view, lh, d, pre[g.start]);
    assert forall i :: 0 <= i < |lh| ==> GoodEntry(g, lh[i]);
    SealedSize(view, lh);
  }

  lemma SealedSize(view: Disk, lh: seq<Entry>)
    requires forall i :: 0 <= i < |lh| ==> lh[i].block < |view| && lh[i].off + lh[i].len <= BSIZE
    ensures |Sealed(view, lh)| == |lh|
  {
    hide Checksum;
  }

  /** Of a recovery only the cleared header reached the platter. */
  lemma TornClear(g: Geometry, pre: Disk, view: Disk, lh: seq<Entry>, d: Disk, head: Block) returns (d': Disk)
    requires Ready(g, pre, view, lh) && Committed(g, pre, view, lh, d) && HeadOk(head) && ReadHead(head) == []
    ensures TornRecovery(g, d, d') && d' == d[g.start := head]
  {
    hide Sealed, Covered, SlotHolds, HeadOk, ReadHead, InstallIos, ApplyAll, EachOldOrNew;
    InstallCommitted(g, pre, view, lh, d, |lh|);
    var sent := HomeWrites(view, lh, |lh|);
    var tr := sent + [Write(g.start, head)];
    assert |Sealed(view, lh)| == |lh| by { SealedSize(view, lh); }
    assert tr[..|sent|] == sent && RecoverTrace(g, d, tr);
    d' := d[g.start := head];
    OnlyHead(d, tr, g.start, head, d');
  }

  lemma OnlyHead(d: Disk, tr: seq<Io>, h: nat, head: Block, d': Disk)
    requires |tr| > 0 && (forall i :: 0 <= i < |tr| ==> tr[i].Write?) && tr[|tr| - 1] == Write(h, head)
    requires h < |d| && d' == d[h := head]
    ensures CacheCrash(d, tr, |tr|, d')
  {
    NoFlush(tr, |tr|);
    assert tr[..0] == [];
    forall b: nat | b < |d| ensures MayHold(d, tr, |tr|, b, d'[b]) {}
  }

  /** Recovery does not flush between its home writes and the cleared header either: a commit header
      on the platter guarantees the new state exactly when the transaction changes no home block. */
  lemma LastingIffNothing(g: Geometry, pre: Disk, view: Disk, lh: seq<Entry>, tr: seq<Io>)
    requires Ready(g, pre, view, lh) && CommitTrace(g, view, lh, tr) && lh != []
    ensures Lasting(g, pre, view, tr) <==> HomeEqual(g, pre, view)
  {
    hide Sealed, HeadOk, ReadHead, Covered, CommitTrace, CacheCrash, FullRecovery, Cleared, TornRecovery, HasHeader;
    if HomeEqual(g, pre, view) {
      forall k: nat, boots: seq<Disk>, final: Disk | Ends(g, pre, tr, k, boots, final) && HasHeader(g, boots[0])
        ensures |final| == g.size && HomeEqual(g, final, view)
      {
        OneBlockIsAtomic(g, pre, view, lh, tr, k, boots, final);
      }
    } else {
      var d, d' := ForgottenCommit(g, pre, view, lh, tr);
      IdleRecovery(g, d');
      var boots := [d, d'];
      assert TornChain(g, boots);
      assert Ends(g, pre, tr, |lh| + 2, boots, d');
    }
  }
}

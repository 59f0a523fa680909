/** begin_op, log_write, end_op and the bookkeeping of commit in log.c, as the
    guarded code of one monitor shared by any number of processes. */
module GroupCommit {
  import opened Basics
  import opened LogHeader
  import Progress
  import SleepWakeup

  /** How far the commit of the current batch has come. */
  datatype Phase = Idle | Committing | Written

  /** entries: the blocks named by log.lh.  ops: the outstanding operations with
      the number of entries each has added.  admitted: operations let in so far. */
  datatype LogState = LogState(entries: seq<nat>, ops: map<nat, nat>, phase: Phase,
                     batchSize: nat, totalBatched: nat, admitted: nat)

  const EMPTY := LogState([], map[], Idle, 0, 0, 0)

  // ----- The guarded code

  /** begin_op must wait. */
  predicate Blocked(l: LogState) {
    l.phase != Idle || |l.entries| + (|l.ops| + 1) * MAXOPBLOCKS > LOGSIZE
  }

  ghost predicate Begin(p: nat, l: LogState, l': LogState) {
    && p !in l.ops && !Blocked(l)
    && l' == l.(ops := l.ops[p := 0], batchSize := l.batchSize + 1, admitted := l.admitted + 1)
  }

  /** log_write by p on block b stops the machine. */
  predicate Panics(nlog: nat, l: LogState) {
    |l.entries| >= LOGSIZE || |l.entries| >= nlog - 1
  }

  /** log_write by p on block b; an operation adds at most MAXOPBLOCKS entries. */
  ghost predicate LogWrite(nlog: nat, p: nat, b: nat, l: LogState, l': LogState) {
    && p in l.ops && !Panics(nlog, l)
    && if b in l.entries then l' == l
       else l.ops[p] < MAXOPBLOCKS
            && l' == l.(entries := l.entries + [b], ops := l.ops[p := l.ops[p] + 1])
  }

  /** The first half of end_op; it wakes the channel unless p was the last. */
  ghost predicate End(p: nat, l: LogState, l': LogState, wakes: bool) {
    && p in l.ops
    && l' == l.(ops := l.ops - {p}, phase := if l.ops.Keys == {p} then Committing else l.phase)
    && wakes == (l.ops.Keys != {p})
  }

  /** commit, run without the lock: it empties the header it wrote out. */
  ghost predicate Commit(l: LogState, l': LogState) {
    && l.phase == Committing
    && l' == if l.entries == [] then l.(phase := Written)
             else l.(phase := Written, entries := [], batchSize := 0,
                     totalBatched := l.totalBatched + l.batchSize)
  }

  /** The second half of end_op. */
  ghost predicate Finish(l: LogState, l': LogState) {
    l.phase == Written && l' == l.(phase := Idle)
  }

  ghost predicate Update(nlog: nat, p: nat, l: LogState, l': LogState, wakes: bool) {
    || (Begin(p, l, l') && !wakes)
    || ((exists b: nat :: LogWrite(nlog, p, b, l, l')) && !wakes)
    || End(p, l, l', wakes)
    || (Finish(l, l') && wakes)
  }

  ghost function LogMonitor(nlog: nat): SleepWakeup.Monitor<LogState> {
    SleepWakeup.Monitor(l => Blocked(l), (p, l, l', w) => Update(nlog, p, l, l', w), (l, l') => Commit(l, l'))
  }

  // ----- Reservation

  /** Entries the outstanding operations may still add. */
  ghost function Unused(ops: map<nat, nat>): nat
    requires forall p :: p in ops ==> ops[p] <= MAXOPBLOCKS
  {
    if ops == map[] then 0 else
      var p :| p in ops;
      (MAXOPBLOCKS - ops[p]) + Unused(ops - {p})
  }

  /** The choice of operation does not matter. */
  lemma {:induction false} UnusedSplit(ops: map<nat, nat>, p: nat)
    requires (forall q :: q in ops ==> ops[q] <= MAXOPBLOCKS) && p in ops
    ensures Unused(ops) == (MAXOPBLOCKS - ops[p]) + Unused(ops - {p})
    decreases |ops|
  {
    var q :| q in ops && Unused(ops) == (MAXOPBLOCKS - ops[q]) + Unused(ops - {q});
    if q != p {
      UnusedSplit(ops - {q}, p);
      UnusedSplit(ops - {p}, q);
      assert ops - {q} - {p} == ops - {p} - {q};
    }
  }

  lemma {:induction false} UnusedBound(ops: map<nat, nat>)
    requires forall q :: q in ops ==> ops[q] <= MAXOPBLOCKS
    ensures Unused(ops) <= |ops| * MAXOPBLOCKS
    decreases |ops|
  {
    if p :| p in ops {
      UnusedSplit(ops, p);
      UnusedBound(ops - {p});
      assert |ops - {p}| == |ops| - 1;
    }
  }

  ghost predicate Inv(l: LogState) {
    && Distinct(l.entries)
    && (forall p :: p in l.ops ==> l.ops[p] <= MAXOPBLOCKS)
    && |l.entries| + Unused(l.ops) <= LOGSIZE
    && (l.phase != Idle ==> l.ops == map[])
    && (l.phase == Written ==> l.entries == [])
    && (l.phase == Idle && l.ops == map[] ==> l.entries == [])
    && l.totalBatched + l.batchSize == l.admitted
  }

  lemma BeginKeeps(p: nat, l: LogState, l': LogState)
    requires Inv(l) && Begin(p, l, l')
    ensures Inv(l')
  {
    UnusedSplit(l'.ops, p);
    assert l'.ops - {p} == l.ops;
    UnusedBound(l.ops);
  }

  lemma LogWriteKeeps(nlog: nat, p: nat, b: nat, l: LogState, l': LogState)
    requires Inv(l) && LogWrite(nlog, p, b, l, l')
    ensures Inv(l')
  {
    if b !in l.entries {
      UnusedSplit(l.ops, p);
      UnusedSplit(l'.ops, p);
      assert l'.ops - {p} == l.ops - {p};
      assert p in l'.ops;
    }
  }

  lemma EndKeeps(p: nat, l: LogState, l': LogState, wakes: bool)
    requires Inv(l) && End(p, l, l', wakes)
    ensures Inv(l')
  {
    UnusedSplit(l.ops, p);
    assert l'.ops.Keys == l.ops.Keys - {p};
    assert l'.ops == map[] <==> l'.ops.Keys == {};
  }

  lemma UpdateKeeps(nlog: nat, p: nat, l: LogState, l': LogState, wakes: bool)
    requires Inv(l) && Update(nlog, p, l, l', wakes)
    ensures Inv(l')
  {
    if Begin(p, l, l') { BeginKeeps(p, l, l'); }
    else if b: nat :| LogWrite(nlog, p, b, l, l') { LogWriteKeeps(nlog, p, b, l, l'); }
    else if End(p, l, l', wakes) { EndKeeps(p, l, l', wakes); }
  }

  lemma CommitKeeps(l: LogState, l': LogState)
    requires Inv(l) && Commit(l, l')
    ensures Inv(l')
  {}

  /** The code keeps the monitor discipline: only begin_op waits, and the one
      change that unblocks without the lock held happens while it is still blocked. */
  lemma LogIsDisciplined(nlog: nat)
    ensures SleepWakeup.Disciplined(LogMonitor(nlog))
  {
    forall p: nat, l: LogState, l': LogState | Update(nlog, p, l, l', false) && Blocked(l)
      ensures Blocked(l')
    {
      if b: nat :| LogWrite(nlog, p, b, l, l') {
        if b !in l.entries { assert l'.ops.Keys == l.ops.Keys; assert |l'.ops| == |l'.ops.Keys| == |l.ops|; }
      }
    }
  }

  /** Every run of the log, at every moment: reservations fit, entries are
      distinct, no operation runs during a commit, an idle log is empty, no
      operation is counted twice or dropped, and no waiter is left behind. */
  lemma LogRun(nlog: nat, run: seq<SleepWakeup.State<LogState>>, i: nat)
    requires SleepWakeup.Run(LogMonitor(nlog), run) && run[0].data == EMPTY && i < |run|
    ensures Inv(run[i].data)
    ensures run[i].lk == SleepWakeup.Free ==>
      forall q: nat :: q < |run[i].procs| && run[i].procs[q] == SleepWakeup.Asleep ==> Blocked(run[i].data)
  {
    hide Inv, Blocked, Update, Commit, SleepWakeup.Run, SleepWakeup.Disciplined;
    var m := LogMonitor(nlog);
    LogIsDisciplined(nlog);
    EmptyInv();
    forall p: nat, d: LogState, d': LogState, w: bool | m.update(p, d, d', w) && Inv(d) ensures Inv(d') {
      UpdateKeeps(nlog, p, d, d', w);
    }
    forall d: LogState, d': LogState | m.background(d, d') && Inv(d) ensures Inv(d') {
      CommitKeeps(d, d');
    }
    SleepWakeup.DataInvariant(m, l => Inv(l), run, i);
    forall q: nat | run[i].lk == SleepWakeup.Free && q < |run[i].procs| && run[i].procs[q] == SleepWakeup.Asleep
      ensures Blocked(run[i].data)
    {
      SleepWakeup.NoLostWakeup(m, run, i, q);
    }
  }

  /** No deadlock: at every moment of every run each process can come to look at the log, unless it waits in
      begin_op and begin_op must still refuse it. */
  lemma LogIsReached(nlog: nat, run: seq<SleepWakeup.State<LogState>>, i: nat, q: nat)
    requires SleepWakeup.Run(LogMonitor(nlog), run) && i < |run| && q < |run[i].procs|
    requires !Blocked(run[i].data) || !SleepWakeup.Waiting(run[i].procs[q])
    ensures exists t ::
      Progress.Leads(LogMonitor(nlog), run[i], t) && q < |t.procs| && t.procs[q] == SleepWakeup.Inside
  {
    hide SleepWakeup.Run, SleepWakeup.Disciplined, Progress.Leads, Blocked, Update;
    LogIsDisciplined(nlog);
    var m := LogMonitor(nlog);
    forall p: nat, l: LogState ensures m.blocked(l) || Progress.Acts(m, p, l) {
      if !Blocked(l) {
        var l', w := ActsOnLog(nlog, p, l);
        assert m.update(p, l, l', w);
      }
    }
    Progress.NoDeadlock(m, run, i, q);
  }

  /** Whoever is not refused can begin an operation, or end the one it has. */
  lemma ActsOnLog(nlog: nat, p: nat, l: LogState) returns (l': LogState, wakes: bool)
    requires !Blocked(l)
    ensures Update(nlog, p, l, l', wakes)
  {
    if p in l.ops {
      wakes := l.ops.Keys != {p};
      l' := l.(ops := l.ops - {p}, phase := if wakes then l.phase else Committing);
      assert End(p, l, l', wakes);
    } else {
      wakes := false;
      l' := l.(ops := l.ops[p := 0], batchSize := l.batchSize + 1, admitted := l.admitted + 1);
      assert Begin(p, l, l');
    }
  }

  lemma EmptyInv() ensures Inv(EMPTY) {}

  // ----- Every batch ends

  /** begin_op would let p in, to an empty log. */
  ghost predicate Open(p: nat, l: LogState) { l.entries == [] && l.ops == map[] && exists l' :: Begin(p, l, l') }

  /** What commit makes of the log. */
  ghost function Committed(l: LogState): LogState {
    if l.entries == [] then l.(phase := Written)
    else l.(phase := Written, entries := [], batchSize := 0, totalBatched := l.totalBatched + l.batchSize)
  }

  /** A commit and the second half of end_op, from any state a commit can start in, leave an empty
      log that takes any new operation. */
  lemma CommitOpens(l: LogState, l1: LogState, l2: LogState, p: nat)
    requires Inv(l) && l.phase == Committing && Commit(l, l1) && Finish(l1, l2)
    ensures Open(p, l2) && Inv(l2)
  {
    CommitKeeps(l, l1);
    assert Begin(p, l2, l2.(ops := l2.ops[p := 0], batchSize := l2.batchSize + 1, admitted := l2.admitted + 1));
  }

  /** Both steps are there to be taken. */
  lemma CommitRuns(l: LogState) returns (l1: LogState, l2: LogState)
    requires l.phase == Committing
    ensures Commit(l, l1) && Finish(l1, l2)
  {
    l1 := Committed(l);
    l2 := l1.(phase := Idle);
  }

  /** A step that lets no new operation in. */
  ghost predicate Winds(nlog: nat, ls: seq<LogState>, i: nat)
    requires i + 1 < |ls|
  {
    DataStep(nlog, ls[i], ls[i + 1]) && ls[i + 1].admitted == ls[i].admitted
  }

  /** From l on, without any new operation, to a log that is open to p. */
  ghost predicate Drains(nlog: nat, l: LogState, ls: seq<LogState>, p: nat) {
    && |ls| > 0 && ls[0] == l && Open(p, ls[|ls| - 1])
    && forall i :: 0 <= i < |ls| - 1 ==> Winds(nlog, ls, i)
  }

  lemma DrainsFrom(nlog: nat, l: LogState, l1: LogState, ls: seq<LogState>, p: nat)
    requires DataStep(nlog, l, l1) && l1.admitted == l.admitted && Drains(nlog, l1, ls, p)
    ensures Drains(nlog, l, [l] + ls, p)
  {
    hide DataStep, Open;
    var more := [l] + ls;
    forall i: nat | i < |more| - 1 ensures Winds(nlog, more, i) {
      if i > 0 { assert Winds(nlog, ls, i - 1); }
    }
  }

  /** From every reachable state the operations outstanding can end and their batch be committed,
      and then any process is admitted. */
  lemma {:induction false} EveryBatchEnds(nlog: nat, l: LogState, p: nat) returns (ls: seq<LogState>)
    requires Inv(l)
    ensures Drains(nlog, l, ls, p)
    decreases |l.ops|, if l.phase == Idle then 0 else if l.phase == Written then 1 else 2
  {
    hide Inv, DataStep, Open, Drains;
    if l.ops == map[] && l.phase == Idle {
      ls := [l];
      IdleIsOpen(nlog, l, p);
    } else if l.phase == Idle {
      var q :| q in l.ops;
      var l1 := EndOf(nlog, q, l);
      ls := EveryBatchEnds(nlog, l1, p);
      DrainsFrom(nlog, l, l1, ls, p);
      ls := [l] + ls;
    } else {
      var l1 := PhaseNext(nlog, l);
      ls := EveryBatchEnds(nlog, l1, p);
      DrainsFrom(nlog, l, l1, ls, p);
      ls := [l] + ls;
    }
  }

  lemma IdleIsOpen(nlog: nat, l: LogState, p: nat)
    requires Inv(l) && l.ops == map[] && l.phase == Idle
    ensures Drains(nlog, l, [l], p)
  {
    assert Begin(p, l, l.(ops := l.ops[p := 0], batchSize := l.batchSize + 1, admitted := l.admitted + 1));
  }

  lemma EndOf(nlog: nat, q: nat, l: LogState) returns (l1: LogState)
    requires Inv(l) && q in l.ops
    ensures DataStep(nlog, l, l1) && Inv(l1) && l1.admitted == l.admitted && |l1.ops| < |l.ops|
  {
    l1 := l.(ops := l.ops - {q}, phase := if l.ops.Keys == {q} then Committing else l.phase);
    var wakes := l.ops.Keys != {q};
    assert End(q, l, l1, wakes);
    assert Update(nlog, q, l, l1, wakes);
    EndKeeps(q, l, l1, wakes);
    assert l1.ops.Keys == l.ops.Keys - {q} && |l1.ops| == |l1.ops.Keys| && |l.ops| == |l.ops.Keys|;
  }

  lemma PhaseNext(nlog: nat, l: LogState) returns (l1: LogState)
    requires Inv(l) && l.phase != Idle
    ensures DataStep(nlog, l, l1) && Inv(l1) && l1.admitted == l.admitted && l1.ops == l.ops
    ensures l1.phase == if l.phase == Committing then Written else Idle
  {
    if l.phase == Committing {
      l1 := Committed(l);
      assert Commit(l, l1);
      CommitKeeps(l, l1);
    } else {
      l1 := l.(phase := Idle);
      assert Finish(l, l1);
      assert Update(nlog, 0, l, l1, true);
      UpdateKeeps(nlog, 0, l, l1, true);
    }
  }

  // ----- When log_write can stop the machine

  ghost predicate DataStep(nlog: nat, l: LogState, l': LogState) {
    Commit(l, l') || exists p: nat, w: bool :: Update(nlog, p, l, l', w)
  }

  /** The values the log takes one after the other. */
  ghost predicate Trace(nlog: nat, ls: seq<LogState>) {
    && |ls| > 0 && ls[0] == EMPTY
    && forall i :: 0 <= i < |ls| - 1 ==> DataStep(nlog, ls[i], ls[i + 1])
  }

  lemma {:induction false} TraceInv(nlog: nat, ls: seq<LogState>, i: nat)
    requires Trace(nlog, ls) && i < |ls|
    ensures Inv(ls[i])
  {
    hide Inv, Update, Commit;
    if i == 0 {
      EmptyInv();
    } else {
      TraceInv(nlog, ls, i - 1);
      assert DataStep(nlog, ls[i - 1], ls[i - 1 + 1]);
      if Commit(ls[i - 1], ls[i]) { CommitKeeps(ls[i - 1], ls[i]); }
      else {
        var p: nat, w: bool :| Update(nlog, p, ls[i - 1], ls[i], w);
        UpdateKeeps(nlog, p, ls[i - 1], ls[i], w);
      }
    }
  }

  ghost predicate Reachable(nlog: nat, l: LogState) {
    exists ls: seq<LogState> :: Trace(nlog, ls) && ls[|ls| - 1] == l
  }

  predicate HasBudget(l: LogState, p: nat) { p in l.ops && l.ops[p] < MAXOPBLOCKS }

  /** An operation with budget left can always log one more block. */
  ghost predicate NewBlocksFit(nlog: nat) {
    forall l: LogState, p: nat :: Reachable(nlog, l) && HasBudget(l, p) ==> !Panics(nlog, l)
  }

  function Share(k: nat, q: nat): nat {
    if k <= 10 * q then 0 else if k >= 10 * q + 10 then 10 else k - 10 * q
  }

  /** Three operations that have logged k blocks between them. */
  ghost function Filled(k: nat): LogState {
    LogState(seq(k, i => i), map[0 := Share(k, 0), 1 := Share(k, 1), 2 := Share(k, 2)], Idle, 3, 0, 3)
  }

  lemma Admit(nlog: nat) returns (ls: seq<LogState>)
    ensures Trace(nlog, ls) && ls[|ls| - 1] == Filled(0)
  {
    var l1 := LogState([], map[0 := 0], Idle, 1, 0, 1);
    var l2 := LogState([], map[0 := 0, 1 := 0], Idle, 2, 0, 2);
    ls := [EMPTY, l1, l2, Filled(0)];
    assert |map[0 := 0]| == 1 && |map[0 := 0, 1 := 0]| == 2;
    assert Begin(0, EMPTY, l1);
    assert Begin(1, l1, l2);
    assert Begin(2, l2, Filled(0));
    assert Update(nlog, 0, EMPTY, l1, false) && Update(nlog, 1, l1, l2, false) && Update(nlog, 2, l2, Filled(0), false);
  }

  lemma FillStep(nlog: nat, k: nat)
    requires k < LOGSIZE && k < nlog - 1
    ensures DataStep(nlog, Filled(k), Filled(k + 1))
  {
    var l, l', p := Filled(k), Filled(k + 1), k / 10;
    assert l'.entries == l.entries + [k];
    assert l'.ops == l.ops[p := l.ops[p] + 1];
    assert LogWrite(nlog, p, k, l, l');
    assert Update(nlog, p, l, l', false);
  }

  lemma {:induction false} Fill(nlog: nat, k: nat) returns (ls: seq<LogState>)
    requires k <= LOGSIZE && (k == 0 || k <= nlog - 1)
    ensures Trace(nlog, ls) && ls[|ls| - 1] == Filled(k)
  {
    if k == 0 {
      ls := Admit(nlog);
    } else {
      var before := Fill(nlog, k - 1);
      FillStep(nlog, k - 1);
      ls := before + [Filled(k)];
    }
  }

  /** Budgeted operations can log every new block exactly when the log region
      has more than LOGSIZE blocks, one of which is the header. */
  lemma NewBlocksFitIff(nlog: nat)
    ensures NewBlocksFit(nlog) <==> nlog > LOGSIZE
  {
    hide Trace, Inv;
    if nlog > LOGSIZE {
      forall l: LogState, p: nat | Reachable(nlog, l) && HasBudget(l, p)
        ensures !Panics(nlog, l)
      {
        ReachableInv(nlog, l);
        PanicsOnlyWhenFull(nlog, l);
      }
    } else {
      var k := if nlog == 0 then 0 else nlog - 1;
      var ls := Fill(nlog, k);
      assert HasBudget(Filled(k), k / 10);
      assert Reachable(nlog, Filled(k));
    }
  }

  lemma ReachableInv(nlog: nat, l: LogState)
    requires Reachable(nlog, l)
    ensures Inv(l)
  {
    var ls: seq<LogState> :| Trace(nlog, ls) && ls[|ls| - 1] == l;
    TraceInv(nlog, ls, |ls| - 1);
  }

  /** With room for the whole header, a write panics only when the log is full
      and every admitted operation has spent its budget. */
  lemma PanicsOnlyWhenFull(nlog: nat, l: LogState)
    requires nlog > LOGSIZE && Inv(l)
    ensures Panics(nlog, l) <==> |l.entries| == LOGSIZE
    ensures Panics(nlog, l) ==> forall p :: p in l.ops ==> l.ops[p] == MAXOPBLOCKS
  {
    if Panics(nlog, l) {
      forall p | p in l.ops ensures l.ops[p] == MAXOPBLOCKS { UnusedSplit(l.ops, p); }
    }
  }

  /** That state is reachable, and in it even a block already in the log, which
      needs no new entry, cannot be logged again. */
  lemma FullLogRefusesAbsorption(nlog: nat) returns (l: LogState)
    requires nlog > LOGSIZE
    ensures Reachable(nlog, l) && 0 in l.ops && 0 in l.entries && Panics(nlog, l)
  {
    var ls := Fill(nlog, LOGSIZE);
    l := Filled(LOGSIZE);
    assert l.entries[0] == 0;
  }
}

/** sleep and wakeup of proc.c as an interleaving of small steps, for any number
    of processes sharing one spinlock, one channel and some data.

    A monitor is the code that runs under that spinlock: it waits while its data
    is blocked, and its updates either wake the channel or must not unblock. */
module SleepWakeup {

  /** Where a process is.  Lock names: lk guards the data, pt is ptable.lock. */
  datatype Pc =
    | Outside
    | WantLock             // in acquire(lk)
    | Inside               // holds lk, running the guarded code
    | Leaving              // holds lk, about to release it
    | MustWake             // holds lk, in wakeup: acquire(pt)
    | Scanning(next: nat)  // holds lk and pt, wakeup1 has looked at slots below next
    | SleepEnter           // holds lk, in sleep: acquire(pt)
    | SleepBoth            // holds lk and pt
    | SleepCommitted       // holds pt only, state not yet SLEEPING
    | Asleep               // SLEEPING on the channel
    | Runnable             // woken, waiting for a scheduler
    | Resumed              // running again with pt, inherited from the scheduler

  datatype Holder = Free | Proc(p: nat) | Scheduler

  datatype State<D> = State(procs: seq<Pc>, lk: Holder, pt: Holder, data: D)

  /** blocked: the condition of the wait loop.  update: the changes process p may
      make under lk, and whether it calls wakeup after them.  background: the
      changes made without lk. */
  datatype Monitor<!D> = Monitor(
    blocked: D -> bool,
    update: (nat, D, D, bool) -> bool,
    background: (D, D) -> bool)

  /** A change that lets waiters go on is followed by a wakeup. */
  ghost predicate Disciplined<D(!new)>(m: Monitor<D>) {
    && (forall p: nat, d: D, d': D :: m.update(p, d, d', false) && m.blocked(d) ==> m.blocked(d'))
    && (forall d: D, d': D :: m.background(d, d') && m.blocked(d) ==> m.blocked(d'))
  }

  ghost predicate Init<D(!new)>(s: State<D>) {
    && s.lk == Free && s.pt == Free
    && forall q :: 0 <= q < |s.procs| ==> s.procs[q] == Outside
  }

  /** Process p moves from its current place to pc, the rest as given. */
  ghost predicate Moves<D(!new)>(s: State<D>, s': State<D>, p: nat, pc: Pc, lk: Holder, pt: Holder, data: D) {
    p < |s.procs| && s' == State(s.procs[p := pc], lk, pt, data)
  }

  /** One step of process p. */
  ghost predicate Step<D(!new)>(m: Monitor<D>, s: State<D>, s': State<D>, p: nat) {
    && p < |s.procs|
    && match s.procs[p]
       case Outside => Moves(s, s', p, WantLock, s.lk, s.pt, s.data)
       case WantLock => s.lk == Free && Moves(s, s', p, Inside, Proc(p), s.pt, s.data)
       case Inside =>
         || (m.blocked(s.data) && Moves(s, s', p, SleepEnter, s.lk, s.pt, s.data))
         || (m.update(p, s.data, s'.data, false) && Moves(s, s', p, Leaving, s.lk, s.pt, s'.data))
         || (m.update(p, s.data, s'.data, true) && Moves(s, s', p, MustWake, s.lk, s.pt, s'.data))
       case Leaving => Moves(s, s', p, Outside, Free, s.pt, s.data)
       case MustWake => s.pt == Free && Moves(s, s', p, Scanning(0), s.lk, Proc(p), s.data)
       case Scanning(i) =>
         if i < |s.procs| then s' == s.(procs := Scan(s.procs, i)[p := Scanning(i + 1)])
         else Moves(s, s', p, Leaving, s.lk, Free, s.data)
       case SleepEnter => s.pt == Free && Moves(s, s', p, SleepBoth, s.lk, Proc(p), s.data)
       case SleepBoth => Moves(s, s', p, SleepCommitted, Free, s.pt, s.data)
       case SleepCommitted => Moves(s, s', p, Asleep, s.lk, Scheduler, s.data)
       case Asleep => s.pt == Scheduler && Moves(s, s', p, Runnable, s.lk, s.pt, s.data)  // kill
       case Runnable => s.pt == Scheduler && Moves(s, s', p, Resumed, s.lk, Proc(p), s.data)
       case Resumed => Moves(s, s', p, WantLock, s.lk, Free, s.data)
  }

  /** One turn of the loop in wakeup1. */
  function Scan(procs: seq<Pc>, i: nat): seq<Pc>
    requires i < |procs|
  {
    if procs[i].Asleep? then procs[i := Runnable] else procs
  }

  /** Steps of everyone else: schedulers, kill, and updates made without the lock. */
  ghost predicate Environment<D(!new)>(m: Monitor<D>, s: State<D>, s': State<D>) {
    || (s.pt == Free && s' == s.(pt := Scheduler))
    || (s.pt == Scheduler && s' == s.(pt := Free))
    || (m.background(s.data, s'.data) && s' == s.(data := s'.data))
  }

  ghost predicate Next<D(!new)>(m: Monitor<D>, s: State<D>, s': State<D>) {
    Environment(m, s, s') || exists p: nat :: Step(m, s, s', p)
  }

  ghost predicate Run<D(!new)>(m: Monitor<D>, run: seq<State<D>>) {
    && |run| > 0 && Init(run[0])
    && forall i :: 0 <= i < |run| - 1 ==> Next(m, run[i], run[i + 1])
  }

  // ----- The invariant

  predicate HoldsLk(pc: Pc) {
    pc.Inside? || pc.Leaving? || pc.MustWake? || pc.Scanning? || pc.SleepEnter? || pc.SleepBoth?
  }

  predicate HoldsPt(pc: Pc) {
    pc.Scanning? || pc.SleepBoth? || pc.SleepCommitted? || pc.Resumed?
  }

  /** On its way to sleep or asleep: the wait condition has been found true. */
  predicate Waiting(pc: Pc) {
    pc.SleepEnter? || pc.SleepBoth? || pc.SleepCommitted? || pc.Asleep?
  }

  /** A wakeup that has not reached slot q yet. */
  ghost predicate WakeComing<D(!new)>(s: State<D>, q: nat) {
    s.lk.Proc? && s.lk.p < |s.procs|
    && (s.procs[s.lk.p].MustWake? || (s.procs[s.lk.p].Scanning? && s.procs[s.lk.p].next <= q))
  }

  ghost predicate Locks<D(!new)>(s: State<D>) {
    && (forall q: nat :: q < |s.procs| ==> (s.lk == Proc(q) <==> HoldsLk(s.procs[q])))
    && (forall q: nat :: q < |s.procs| ==> (s.pt == Proc(q) <==> HoldsPt(s.procs[q])))
  }

  ghost predicate NobodyForgotten<D(!new)>(m: Monitor<D>, s: State<D>) {
    forall q: nat :: q < |s.procs| && Waiting(s.procs[q]) ==> m.blocked(s.data) || WakeComing(s, q)
  }

  lemma StepKeepsLocks<D(!new)>(m: Monitor<D>, s: State<D>, s': State<D>, p: nat)
    requires Locks(s) && Step(m, s, s', p)
    ensures Locks(s')
  {}

  lemma StepKeepsWaiters<D(!new)>(m: Monitor<D>, s: State<D>, s': State<D>, p: nat)
    requires Disciplined(m) && Locks(s) && NobodyForgotten(m, s) && Step(m, s, s', p)
    ensures NobodyForgotten(m, s')
  {
    StepKeepsLocks(m, s, s', p);
    forall q: nat | q < |s'.procs| && Waiting(s'.procs[q])
      ensures m.blocked(s'.data) || WakeComing(s', q)
    {
      if q != p { assert Waiting(s.procs[q]); }
    }
  }

  lemma NextKeeps<D(!new)>(m: Monitor<D>, s: State<D>, s': State<D>)
    requires Disciplined(m) && Locks(s) && NobodyForgotten(m, s) && Next(m, s, s')
    ensures Locks(s') && NobodyForgotten(m, s') && |s'.procs| == |s.procs|
  {
    if !Environment(m, s, s') {
      var p: nat :| Step(m, s, s', p);
      StepKeepsLocks(m, s, s', p);
      StepKeepsWaiters(m, s, s', p);
    } else {
      forall q: nat | q < |s'.procs| && Waiting(s'.procs[q])
        ensures m.blocked(s'.data) || WakeComing(s', q)
      {
        assert Waiting(s.procs[q]);
      }
    }
  }

  lemma {:induction false} RunKeeps<D(!new)>(m: Monitor<D>, run: seq<State<D>>, i: nat)
    requires Disciplined(m) && Run(m, run) && i < |run|
    ensures Locks(run[i]) && NobodyForgotten(m, run[i])
  {
    if i > 0 {
      RunKeeps(m, run, i - 1);
      assert Next(m, run[i - 1], run[i - 1 + 1]);
      NextKeeps(m, run[i - 1], run[i]);
    }
  }

  /** No lost wakeup: at every moment of every run, whenever the spinlock is
      free, a process asleep on the channel is one whose condition still holds. */
  lemma NoLostWakeup<D(!new)>(m: Monitor<D>, run: seq<State<D>>, i: nat, q: nat)
    requires Disciplined(m) && Run(m, run) && i < |run| && q < |run[i].procs|
    requires run[i].lk == Free && run[i].procs[q] == Asleep
    ensures m.blocked(run[i].data)
  {
    RunKeeps(m, run, i);
  }

  /** Whatever every update keeps is true of the data throughout every run. */
  lemma {:induction false} DataInvariant<D(!new)>(m: Monitor<D>, inv: D -> bool, run: seq<State<D>>, i: nat)
    requires Run(m, run) && i < |run| && inv(run[0].data)
    requires forall p: nat, d: D, d': D, w: bool :: m.update(p, d, d', w) && inv(d) ==> inv(d')
    requires forall d: D, d': D :: m.background(d, d') && inv(d) ==> inv(d')
    ensures inv(run[i].data)
  {
    if i > 0 {
      DataInvariant(m, inv, run, i - 1);
      assert Next(m, run[i - 1], run[i - 1 + 1]);
      if !Environment(m, run[i - 1], run[i]) {
        var p: nat :| Step(m, run[i - 1], run[i], p);
      }
    }
  }
}

/** sleeplock.c as the guarded code of a monitor. */
module SleepLock {
  import opened SleepWakeup
  import Progress

  /** locked and pid; process p has pid p + 1, and 0 is nobody. */
  datatype Lock = Lock(locked: bool, pid: nat)

  const UNLOCKED := Lock(false, 0)

  /** acquiresleep once its wait is over. */
  predicate Acquire(p: nat, d: Lock, d': Lock) { !d.locked && d' == Lock(true, p + 1) }

  /** releasesleep by the process that holds the lock. */
  predicate Release(p: nat, d: Lock, d': Lock) { Holding(p, d) && d' == UNLOCKED }

  /** holdingsleep. */
  predicate Holding(p: nat, d: Lock) { d.locked && d.pid == p + 1 }

  function LockMonitor(): Monitor<Lock> {
    Monitor((d: Lock) => d.locked, (p, d, d', wakes) => Update(p, d, d', wakes), (d, d') => false)
  }

  predicate Update(p: nat, d: Lock, d': Lock, wakes: bool) {
    (Acquire(p, d, d') && !wakes) || (Release(p, d, d') && wakes)
  }

  /** A process asleep on a sleep-lock sleeps because the lock is held. */
  lemma SleeperSeesHeldLock(run: seq<State<Lock>>, i: nat, q: nat)
    requires Run(LockMonitor(), run) && i < |run| && q < |run[i].procs|
    requires run[i].lk == Free && run[i].procs[q] == Asleep
    ensures run[i].data.locked
  {
    hide Run;
    var m := LockMonitor();
    assert forall p: nat, d: Lock, d': Lock :: m.update(p, d, d', false) ==> Update(p, d, d', false);
    NoLostWakeup(LockMonitor(), run, i, q);
  }

  /** p holds the lock, and nobody else does. */
  ghost predicate OnlyHolder(p: nat, d: Lock) { forall q: nat :: Holding(q, d) <==> q == p }

  /** holdingsleep answers yes to one process at most, after acquiresleep to the caller alone, and
      after releasesleep to none; then any process can have the lock. */
  lemma OneHolder(p: nat, q: nat, d: Lock, d': Lock)
    ensures Holding(p, d) && Holding(q, d) ==> p == q
    ensures Acquire(p, d, d') ==> OnlyHolder(p, d')
    ensures Release(p, d, d') ==> OnlyHolder(p, d) && !Holding(q, d') && Acquire(q, d', Lock(true, q + 1))
  {}

  /** The step from run[k] is any step but p's own releasesleep. */
  ghost predicate Unreleased(run: seq<State<Lock>>, k: nat, p: nat)
    requires k + 1 < |run|
  {
    Next(LockMonitor(), run[k], run[k + 1]) && !Release(p, run[k].data, run[k + 1].data)
  }

  /** Mutual exclusion: from the step in which p acquires the lock until p itself gives it
      up, whatever steps come in between, p's own included, holdingsleep answers yes to p
      and to nobody else. */
  lemma HeldUntilReleased(run: seq<State<Lock>>, p: nat, i: nat, j: nat)
    requires i < j < |run| && Acquire(p, run[i].data, run[i + 1].data)
    requires forall k :: i < k < j ==> Unreleased(run, k, p)
    ensures OnlyHolder(p, run[j].data)
  {
    OneHolder(p, p, run[i].data, run[i + 1].data);
    StaysHeld(run, p, i + 1, j);
  }

  lemma {:induction false} StaysHeld(run: seq<State<Lock>>, p: nat, i: nat, j: nat)
    requires i <= j < |run| && OnlyHolder(p, run[i].data)
    requires forall k :: i <= k < j ==> Unreleased(run, k, p)
    ensures run[j].data == run[i].data
    decreases j
  {
    if i < j {
      StaysHeld(run, p, i, j - 1);
      assert Unreleased(run, j - 1, p);
      if !Environment(LockMonitor(), run[j - 1], run[j]) {
        var q: nat :| Step(LockMonitor(), run[j - 1], run[j], q);
        StepKeepsHolder(run[j - 1], run[j], p, q);
      }
    }
  }

  lemma StepKeepsHolder(s: State<Lock>, s': State<Lock>, p: nat, q: nat)
    requires OnlyHolder(p, s.data) && !Release(p, s.data, s'.data) && Step(LockMonitor(), s, s', q)
    ensures s'.data == s.data
  {
    assert Holding(p, s.data);
    assert !Update(q, s.data, s'.data, false) && !Update(q, s.data, s'.data, true);
  }

  /** No deadlock: at every moment of every run each process can come to test the lock, unless it waits for
      the lock and the lock is held. */
  lemma LockIsReached(run: seq<State<Lock>>, i: nat, q: nat)
    requires Run(LockMonitor(), run) && i < |run| && q < |run[i].procs|
    requires !run[i].data.locked || !Waiting(run[i].procs[q])
    ensures exists t :: Progress.Leads(LockMonitor(), run[i], t) && q < |t.procs| && t.procs[q] == Inside
  {
    hide Run, Progress.Leads;
    var m := LockMonitor();
    assert forall p: nat, d: Lock, d': Lock :: m.update(p, d, d', false) ==> Update(p, d, d', false);
    forall p: nat, d: Lock ensures m.blocked(d) || Progress.Acts(m, p, d) {
      assert m.blocked(d) || m.update(p, d, Lock(true, p + 1), false);
    }
    Progress.NoDeadlock(m, run, i, q);
  }
}

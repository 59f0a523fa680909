/** Sleep and wakeup without deadlock: whoever is not held up by the wait condition can always come to run the
    guarded code, and needs neither a kill nor a change made without the lock for it. */
module Progress {
  import opened SleepWakeup

  /** A step of a scheduler or of a process that is not asleep. */
  ghost predicate Quiet<D(!new)>(m: Monitor<D>, s: State<D>, s': State<D>) {
    || (s.pt == Free && s' == s.(pt := Scheduler))
    || (s.pt == Scheduler && s' == s.(pt := Free))
    || exists p: nat :: p < |s.procs| && !s.procs[p].Asleep? && Step(m, s, s', p)
  }

  ghost predicate Reaches<D(!new)>(m: Monitor<D>, s: State<D>, t: State<D>, n: nat)
    decreases n
  {
    if n == 0 then s == t else exists u :: Quiet(m, s, u) && Reaches(m, u, t, n - 1)
  }

  ghost predicate Leads<D(!new)>(m: Monitor<D>, s: State<D>, t: State<D>) { exists n: nat :: Reaches(m, s, t, n) }

  /** Under the lock a process can always go on: it waits, or there is something for it to do. */
  ghost predicate Total<D(!new)>(m: Monitor<D>) {
    forall p: nat, d: D :: m.blocked(d) || Acts(m, p, d)
  }

  ghost predicate Acts<D(!new)>(m: Monitor<D>, p: nat, d: D) { exists d': D, w: bool :: m.update(p, d, d', w) }

  /** The two locks are free or with the processes whose place says so. */
  ghost predicate Sane<D(!new)>(s: State<D>) {
    && Locks(s) && s.lk != Scheduler
    && (s.lk.Proc? ==> s.lk.p < |s.procs|) && (s.pt.Proc? ==> s.pt.p < |s.procs|)
    && (s.lk.Proc? && s.procs[s.lk.p].Scanning? ==> s.procs[s.lk.p].next <= |s.procs|)
  }

  /** Not about to sleep and not asleep, or a wakeup is coming. */
  ghost predicate Ready<D(!new)>(s: State<D>, q: nat) {
    q < |s.procs| && (Waiting(s.procs[q]) ==> WakeComing(s, q))
  }

  // ----- Composing steps

  lemma One<D(!new)>(m: Monitor<D>, s: State<D>, t: State<D>)
    requires Quiet(m, s, t)
    ensures Leads(m, s, t)
  {
    assert Reaches(m, t, t, 0);
    assert Reaches(m, s, t, 1);
  }

  lemma None<D(!new)>(m: Monitor<D>, s: State<D>)
    ensures Leads(m, s, s)
  {
    assert Reaches(m, s, s, 0);
  }

  lemma {:induction false} Append<D(!new)>(m: Monitor<D>, s: State<D>, t: State<D>, u: State<D>, n: nat, k: nat)
    requires Reaches(m, s, t, n) && Reaches(m, t, u, k)
    ensures Reaches(m, s, u, n + k)
    decreases n
  {
    if n > 0 {
      var v :| Quiet(m, s, v) && Reaches(m, v, t, n - 1);
      Append(m, v, t, u, n - 1, k);
    }
  }

  lemma Then<D(!new)>(m: Monitor<D>, s: State<D>, t: State<D>, u: State<D>)
    requires Leads(m, s, t) && Leads(m, t, u)
    ensures Leads(m, s, u)
  {
    var n: nat :| Reaches(m, s, t, n);
    var k: nat :| Reaches(m, t, u, k);
    Append(m, s, t, u, n, k);
  }

  lemma Goes<D(!new)>(m: Monitor<D>, s: State<D>, t: State<D>, p: nat)
    requires p < |s.procs| && !s.procs[p].Asleep? && Step(m, s, t, p)
    ensures Leads(m, s, t)
  {
    assert Quiet(m, s, t);
    One(m, s, t);
  }

  lemma StepSane<D(!new)>(m: Monitor<D>, s: State<D>, s': State<D>)
    requires Sane(s) && Next(m, s, s')
    ensures Sane(s')
  {
    if !Environment(m, s, s') {
      var p: nat :| Step(m, s, s', p);
      ProcSane(m, s, s', p);
    }
  }

  lemma ProcSane<D(!new)>(m: Monitor<D>, s: State<D>, s': State<D>, p: nat)
    requires Sane(s) && Step(m, s, s', p)
    ensures Sane(s')
  {
    StepKeepsLocks(m, s, s', p);
    assert s.lk == Proc(p) <==> HoldsLk(s.procs[p]);
    hide Locks;
  }

  lemma {:induction false} ReachesSane<D(!new)>(m: Monitor<D>, s: State<D>, t: State<D>, n: nat)
    requires Sane(s) && Reaches(m, s, t, n)
    ensures Sane(t)
    decreases n
  {
    if n > 0 {
      var u :| Quiet(m, s, u) && Reaches(m, u, t, n - 1);
      assert Next(m, s, u);
      StepSane(m, s, u);
      ReachesSane(m, u, t, n - 1);
    }
  }

  lemma LeadsSane<D(!new)>(m: Monitor<D>, s: State<D>, t: State<D>)
    requires Sane(s) && Leads(m, s, t)
    ensures Sane(t)
  {
    var n: nat :| Reaches(m, s, t, n);
    ReachesSane(m, s, t, n);
  }

  lemma {:induction false} RunSane<D(!new)>(m: Monitor<D>, run: seq<State<D>>, i: nat)
    requires Run(m, run) && i < |run|
    ensures Sane(run[i])
  {
    if i > 0 {
      RunSane(m, run, i - 1);
      assert Next(m, run[i - 1], run[i - 1 + 1]);
      StepSane(m, run[i - 1], run[i]);
    }
  }

  // ----- Finishing what is under way

  /** Every sleeper in slot i or above made runnable. */
  function Awake(procs: seq<Pc>, i: nat): seq<Pc> {
    seq(|procs|, j requires 0 <= j < |procs| => if j >= i && procs[j].Asleep? then Runnable else procs[j])
  }

  /** wakeup runs to its end: all sleepers from slot i on are runnable and both locks are free. */
  lemma {:induction false} WakeFinishes<D(!new)>(m: Monitor<D>, s: State<D>, p: nat, i: nat)
    requires p < |s.procs| && s.procs[p] == Scanning(i) && i <= |s.procs|
    ensures Leads(m, s, State(Awake(s.procs, i)[p := Outside], Free, Free, s.data))
    decreases |s.procs| - i
  {
    hide Leads;
    var end := State(Awake(s.procs, i)[p := Outside], Free, Free, s.data);
    if i < |s.procs| {
      var t := s.(procs := Scan(s.procs, i)[p := Scanning(i + 1)]);
      Goes(m, s, t, p);
      WakeFinishes(m, t, p, i + 1);
      assert Awake(t.procs, i + 1)[p := Outside] == end.procs;
      Then(m, s, t, end);
    } else {
      var t := s.(procs := s.procs[p := Leaving], pt := Free);
      Goes(m, s, t, p);
      Goes(m, t, t.(procs := t.procs[p := Outside], lk := Free), p);
      assert t.procs[p := Outside] == end.procs;
      Then(m, s, t, end);
    }
  }

  /** A process on its way to sleep gets there and leaves both locks free. */
  lemma SleepFinishes<D(!new)>(m: Monitor<D>, s: State<D>, p: nat)
    requires p < |s.procs|
    requires s.procs[p] == SleepCommitted || s.procs[p] == SleepBoth || (s.procs[p] == SleepEnter && s.pt == Free)
    ensures var lk := if s.procs[p] == SleepCommitted then s.lk else Free;
      Leads(m, s, State(s.procs[p := Asleep], lk, Free, s.data))
  {
    hide Leads;
    var lk := if s.procs[p] == SleepCommitted then s.lk else Free;
    var both := s.(procs := s.procs[p := SleepBoth], pt := Proc(p));
    var pt := if s.procs[p] == SleepEnter then Proc(p) else s.pt;
    var committed := State(s.procs[p := SleepCommitted], lk, pt, s.data);
    var asleep := State(s.procs[p := Asleep], lk, Scheduler, s.data);
    None(m, s);
    if s.procs[p] == SleepEnter {
      Goes(m, s, both, p);
      Goes(m, both, committed, p);
      Then(m, s, both, committed);
    } else if s.procs[p] == SleepBoth {
      Goes(m, s, committed, p);
    } else {
      assert committed == s;
    }
    Goes(m, committed, asleep, p);
    One(m, asleep, asleep.(pt := Free));
    Then(m, s, committed, asleep);
    Then(m, s, asleep, asleep.(pt := Free));
  }

  /** ptable.lock becomes free. */
  lemma FreePt<D(!new)>(m: Monitor<D>, s: State<D>, q: nat) returns (t: State<D>)
    requires Sane(s) && Ready(s, q)
    ensures Leads(m, s, t) && t.pt == Free && Ready(t, q)
  {
    hide Leads;
    if s.pt == Free {
      t := s;
      None(m, s);
    } else if s.pt == Scheduler {
      t := s.(pt := Free);
      One(m, s, t);
    } else {
      var p := s.pt.p;
      match s.procs[p]
      case Scanning(i) =>
        assert s.lk == Proc(p);
        WakeFinishes(m, s, p, i);
        t := State(Awake(s.procs, i)[p := Outside], Free, Free, s.data);
      case Resumed =>
        t := s.(procs := s.procs[p := WantLock], pt := Free);
        Goes(m, s, t, p);
      case SleepBoth =>
        SleepFinishes(m, s, p);
        t := State(s.procs[p := Asleep], Free, Free, s.data);
      case SleepCommitted =>
        SleepFinishes(m, s, p);
        t := State(s.procs[p := Asleep], s.lk, Free, s.data);
    }
  }

  /** Then the lock on the data becomes free too, whoever holds it. */
  lemma {:induction false} FreeLk<D(!new)>(m: Monitor<D>, s: State<D>, q: nat) returns (t: State<D>)
    requires Total(m) && Sane(s) && Ready(s, q) && s.pt == Free && !s.procs[q].Inside?
    ensures Leads(m, s, t) && t.lk == Free && t.pt == Free && Ready(t, q)
    decreases if s.lk.Proc? && s.lk.p < |s.procs| && s.procs[s.lk.p].Inside? then 1 else 0
  {
    hide Leads, Total;
    if s.lk == Free {
      t := s;
      None(m, s);
    } else {
      var p := s.lk.p;
      match s.procs[p]
      case Inside =>
        var u, pc := ActsOrSleeps(m, s, p);
        LeadsSane(m, s, u);
        t := FreeLk(m, u, q);
        Then(m, s, u, t);
      case Leaving =>
        t := s.(procs := s.procs[p := Outside], lk := Free);
        Goes(m, s, t, p);
      case MustWake =>
        var u := s.(procs := s.procs[p := Scanning(0)], pt := Proc(p));
        Goes(m, s, u, p);
        WakeFinishes(m, u, p, 0);
        t := State(Awake(u.procs, 0)[p := Outside], Free, Free, s.data);
        Then(m, s, u, t);
      case SleepEnter =>
        SleepFinishes(m, s, p);
        t := State(s.procs[p := Asleep], Free, Free, s.data);
    }
  }

  lemma ActsOrSleeps<D(!new)>(m: Monitor<D>, s: State<D>, p: nat) returns (t: State<D>, pc: Pc)
    requires Total(m) && p < |s.procs| && s.procs[p] == Inside
    ensures Leads(m, s, t) && t.lk == s.lk && t.pt == s.pt
    ensures t.procs == s.procs[p := pc] && (pc == SleepEnter || pc == Leaving || pc == MustWake)
  {
    if m.blocked(s.data) {
      pc := SleepEnter;
      t := s.(procs := s.procs[p := pc]);
    } else {
      assert Acts(m, p, s.data);
      var d', w :| m.update(p, s.data, d', w);
      pc := if w then MustWake else Leaving;
      t := s.(procs := s.procs[p := pc], data := d');
    }
    Goes(m, s, t, p);
  }

  /** With both locks free a process that is not asleep walks in. */
  lemma WalksIn<D(!new)>(m: Monitor<D>, s: State<D>, q: nat) returns (t: State<D>)
    requires Sane(s) && Ready(s, q) && s.lk == Free && s.pt == Free
    ensures Leads(m, s, t) && q < |t.procs| && t.procs[q] == Inside
  {
    hide Leads;
    var want := s.(procs := s.procs[q := WantLock]);
    t := s.(procs := s.procs[q := Inside], lk := Proc(q));
    Goes(m, want, t, q);
    match s.procs[q]
    case Outside =>
      Goes(m, s, want, q);
      Then(m, s, want, t);
    case WantLock =>
      assert want == s;
    case Runnable =>
      var sched := s.(pt := Scheduler);
      var resumed := s.(procs := s.procs[q := Resumed], pt := Proc(q));
      One(m, s, sched);
      Goes(m, sched, resumed, q);
      Goes(m, resumed, want, q);
      Then(m, s, sched, resumed);
      Then(m, s, resumed, want);
      Then(m, s, want, t);
  }

  lemma GetsIn<D(!new)>(m: Monitor<D>, s: State<D>, q: nat) returns (t: State<D>)
    requires Total(m) && Sane(s) && Ready(s, q)
    ensures Leads(m, s, t) && q < |t.procs| && t.procs[q] == Inside
  {
    hide Leads, Total, Sane;
    if s.procs[q] == Inside {
      t := s;
      None(m, s);
    } else {
      var a := FreePt(m, s, q);
      LeadsSane(m, s, a);
      if a.procs[q] == Inside { return a; }
      var b := FreeLk(m, a, q);
      LeadsSane(m, a, b);
      t := WalksIn(m, b, q);
      Then(m, s, a, b);
      Then(m, s, b, t);
    }
  }

  /** No deadlock: at every moment of every run each process can come to run the guarded code, unless it
      waits and what it waits for has not happened. */
  lemma NoDeadlock<D(!new)>(m: Monitor<D>, run: seq<State<D>>, i: nat, q: nat)
    requires Disciplined(m) && Total(m) && Run(m, run) && i < |run| && q < |run[i].procs|
    requires !m.blocked(run[i].data) || !Waiting(run[i].procs[q])
    ensures exists t :: Leads(m, run[i], t) && q < |t.procs| && t.procs[q] == Inside
  {
    hide Leads, Total;
    RunKeeps(m, run, i);
    RunSane(m, run, i);
    var t := GetsIn(m, run[i], q);
  }
}

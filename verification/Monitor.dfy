/** The wait/wake pattern shared by rwlock.c, sleeplock.c and log.c, over sleep() and wakeup() of
    proc.c: a spinlock `lk` guards some state; an operation sleeps on one channel while its guard
    holds, then changes the state and perhaps calls wakeup() before releasing `lk`.

    Steps are single lock operations of single processes, so the two-lock handover inside sleep()
    is interleaved with everything else, for any number of processes. */
module Monitor {
  import opened Collections

  type Pid = nat

  /** Where a process is in the code. */
  datatype Pc<Op> =
    | Out                // not in the monitor
    | Entry(op: Op)      // about to acquire(lk)
    | Test(op: Op)       // holds lk: at the top of the wait loop
    | SleepPt(op: Op)    // holds lk: in sleep(), about to acquire(ptable.lock)
    | SleepRel(op: Op)   // holds lk and ptable.lock: about to release(lk)
    | SleepMark(op: Op)  // holds ptable.lock: about to set SLEEPING and call sched()
    | Asleep(op: Op)     // SLEEPING on the channel
    | Ready(op: Op)      // RUNNABLE again
    | Resumed(op: Op)    // back from sched() holding ptable.lock: about to release it
    | Wake(op: Op)       // holds lk, state changed: in wakeup(), about to acquire(ptable.lock)
    | WakePt(op: Op)     // holds lk and ptable.lock: about to mark the sleepers RUNNABLE
    | Leave(op: Op)      // holds lk: about to release(lk)
    | Panicked(op: Op)   // holds lk: stopped in panic()

  /** What an operation does once it holds lk. `may` is the callers' side of the contract: who may
      call it when. */
  datatype Program<!S, !Op> = Program(
    may: (Op, Pid, S) -> bool,
    guard: (Op, Pid, S) -> bool,    // sleep while this holds
    panics: (Op, Pid, S) -> bool,   // checks after the wait loop
    effect: (Op, Pid, S) -> S,
    wakes: (Op, Pid, S) -> bool)    // calls wakeup() after the change; judged on the state before it

  datatype State<S, Op> = State(s: S, lk: Option<Pid>, pt: Option<Pid>, pc: map<Pid, Pc<Op>>)

  /** wakeup1: every sleeper becomes RUNNABLE. */
  function Awaken<Op>(pc: map<Pid, Pc<Op>>): (r: map<Pid, Pc<Op>>)
  {
    map q | q in pc :: if pc[q].Asleep? then Ready(pc[q].op) else pc[q]
  }

  /** One step of process p; a choice of operation is left to `op`. */
  ghost predicate StepBy<S, Op>(g: Program<S, Op>, st: State<S, Op>, st': State<S, Op>, p: Pid, op: Op)
    requires p in st.pc
  {
    match st.pc[p]
    case Out => g.may(op, p, st.s) && st' == st.(pc := st.pc[p := Entry(op)])
    case Entry(o) => st.lk == None && st' == st.(lk := Some(p), pc := st.pc[p := Test(o)])
    case Test(o) =>
      if g.guard(o, p, st.s) then st' == st.(pc := st.pc[p := SleepPt(o)])
      else if g.panics(o, p, st.s) then st' == st.(pc := st.pc[p := Panicked(o)])
      else st' == st.(s := g.effect(o, p, st.s),
                      pc := st.pc[p := if g.wakes(o, p, st.s) then Wake(o) else Leave(o)])
    case SleepPt(o) => st.pt == None && st' == st.(pt := Some(p), pc := st.pc[p := SleepRel(o)])
    case SleepRel(o) => st' == st.(lk := None, pc := st.pc[p := SleepMark(o)])
    case SleepMark(o) => st' == st.(pt := None, pc := st.pc[p := Asleep(o)])
    case Asleep(o) => st.pt == None && st' == st.(pc := st.pc[p := Ready(o)])    // woken from elsewhere
    case Ready(o) => st.pt == None && st' == st.(pt := Some(p), pc := st.pc[p := Resumed(o)])
    case Resumed(o) => st' == st.(pt := None, pc := st.pc[p := Entry(o)])
    case Wake(o) => st.pt == None && st' == st.(pt := Some(p), pc := st.pc[p := WakePt(o)])
    case WakePt(o) => st' == st.(pt := None, pc := Awaken(st.pc)[p := Leave(o)])
    case Leave(o) => st' == st.(lk := None, pc := st.pc[p := Out])
    case Panicked(o) => false
  }

  ghost predicate Next<S, Op(!new)>(g: Program<S, Op>, st: State<S, Op>, st': State<S, Op>)
  {
    exists p, op :: p in st.pc && StepBy(g, st, st', p, op)
  }

  ghost predicate Start<S, Op>(st: State<S, Op>)
  {
    st.lk == None && st.pt == None && forall q :: q in st.pc ==> st.pc[q].Out?
  }

  ghost predicate Run<S, Op(!new)>(g: Program<S, Op>, run: seq<State<S, Op>>)
  {
    && |run| > 0 && Start(run[0])
    && forall i :: 0 <= i < |run| - 1 ==> Next(g, run[i], run[i + 1])
  }

  // ----- what a program must promise ----------------------------------------------------------

  /** p may run op now: it is in the wait loop no more and passes the checks. */
  ghost predicate Fires<S, Op>(g: Program<S, Op>, op: Op, p: Pid, s: S)
  {
    g.may(op, p, s) && !g.guard(op, p, s) && !g.panics(op, p, s)
  }

  /** inv holds of the state whenever nobody is inside an update; a change either leaves every
      other caller's guard standing or is followed by wakeup(); callers keep their permissions. */
  ghost predicate Disciplined<S(!new), Op(!new)>(g: Program<S, Op>, inv: S -> bool)
  {
    && (forall op, p, s :: inv(s) && Fires(g, op, p, s) ==> inv(g.effect(op, p, s)))
    && (forall op, p, s, o, q :: inv(s) && Fires(g, op, p, s) && q != p && g.may(o, q, s) ==>
          Undisturbed(g, op, p, s, o, q))
  }

  /** Callers within their rights never trip a check. */
  ghost predicate Calm<S(!new), Op(!new)>(g: Program<S, Op>, inv: S -> bool)
  {
    forall op, p, s :: inv(s) && g.may(op, p, s) && !g.guard(op, p, s) ==> !g.panics(op, p, s)
  }

  ghost predicate Undisturbed<S, Op>(g: Program<S, Op>, op: Op, p: Pid, s: S, o: Op, q: Pid)
  {
    && g.may(o, q, g.effect(op, p, s))
    && (g.guard(o, q, s) && !g.wakes(op, p, s) ==> g.guard(o, q, g.effect(op, p, s)))
  }

  // ----- the invariant of every run -----------------------------------------------------------

  predicate HoldsLk<Op>(pc: Pc<Op>)
  {
    pc.Test? || pc.SleepPt? || pc.SleepRel? || pc.Wake? || pc.WakePt? || pc.Leave? || pc.Panicked?
  }

  predicate HoldsPt<Op>(pc: Pc<Op>) { pc.SleepRel? || pc.SleepMark? || pc.Resumed? || pc.WakePt? }

  /** Still to pass the guard. */
  predicate Pending<Op>(pc: Pc<Op>)
  {
    pc.Entry? || pc.Test? || pc.SleepPt? || pc.SleepRel? || pc.SleepMark? || pc.Asleep? || pc.Ready? || pc.Resumed?
  }

  /** The holder of lk is on its way to wake every sleeper. */
  predicate WakeComing<S, Op>(st: State<S, Op>)
  {
    st.lk.Some? && st.lk.value in st.pc && (st.pc[st.lk.value].Wake? || st.pc[st.lk.value].WakePt?)
  }

  ghost predicate ProcOk<S, Op>(g: Program<S, Op>, st: State<S, Op>, q: Pid)
    requires q in st.pc
  {
    var pc := st.pc[q];
    && (HoldsLk(pc) <==> st.lk == Some(q))
    && (HoldsPt(pc) <==> st.pt == Some(q))
    && (Pending(pc) ==> g.may(pc.op, q, st.s))
    && (pc.SleepPt? || pc.SleepRel? ==> g.guard(pc.op, q, st.s))
    && (pc.SleepMark? || pc.Asleep? ==> g.guard(pc.op, q, st.s) || WakeComing(st))
  }

  ghost predicate Sound<S, Op>(g: Program<S, Op>, inv: S -> bool, st: State<S, Op>)
  {
    && inv(st.s)
    && (st.lk.Some? ==> st.lk.value in st.pc)
    && (st.pt.Some? ==> st.pt.value in st.pc)
    && forall q :: q in st.pc ==> ProcOk(g, st, q)
  }

  lemma UpdateSound<S(!new), Op(!new)>(g: Program<S, Op>, inv: S -> bool, st: State<S, Op>, st': State<S, Op>, p: Pid,
                                       op: Op)
    requires Disciplined(g, inv) && Sound(g, inv, st) && p in st.pc && StepBy(g, st, st', p, op) && st.pc[p].Test?
    ensures Sound(g, inv, st')
  {
    var o := st.pc[p].op;
    assert ProcOk(g, st, p);
    if !g.guard(o, p, st.s) && !g.panics(o, p, st.s) {
      assert Fires(g, o, p, st.s);
      forall q | q in st'.pc
        ensures ProcOk(g, st', q)
      {
        assert ProcOk(g, st, q);
        if q != p && Pending(st.pc[q]) {
          assert Undisturbed(g, o, p, st.s, st.pc[q].op, q);
        }
      }
    } else {
      forall q | q in st'.pc
        ensures ProcOk(g, st', q)
      {
        assert ProcOk(g, st, q);
      }
    }
  }

  lemma WakeSound<S(!new), Op(!new)>(g: Program<S, Op>, inv: S -> bool, st: State<S, Op>, st': State<S, Op>, p: Pid,
                                     op: Op)
    requires Sound(g, inv, st) && p in st.pc && StepBy(g, st, st', p, op) && st.pc[p].WakePt?
    ensures Sound(g, inv, st')
  {
    assert ProcOk(g, st, p);
    forall q | q in st'.pc
      ensures ProcOk(g, st', q)
    {
      assert ProcOk(g, st, q);
    }
  }

  lemma LockStepSound<S(!new), Op(!new)>(g: Program<S, Op>, inv: S -> bool, st: State<S, Op>, st': State<S, Op>,
                                         p: Pid, op: Op)
    requires Sound(g, inv, st) && p in st.pc && StepBy(g, st, st', p, op)
    requires !st.pc[p].Test? && !st.pc[p].WakePt?
    ensures Sound(g, inv, st')
  {
    assert ProcOk(g, st, p);
    forall q | q in st'.pc
      ensures ProcOk(g, st', q)
    {
      assert ProcOk(g, st, q);
    }
  }

  lemma StepSound<S(!new), Op(!new)>(g: Program<S, Op>, inv: S -> bool, st: State<S, Op>, st': State<S, Op>)
    requires Disciplined(g, inv) && Sound(g, inv, st) && Next(g, st, st')
    ensures Sound(g, inv, st')
  {
    var p, op :| p in st.pc && StepBy(g, st, st', p, op);
    if st.pc[p].Test? {
      UpdateSound(g, inv, st, st', p, op);
    } else if st.pc[p].WakePt? {
      WakeSound(g, inv, st, st', p, op);
    } else {
      LockStepSound(g, inv, st, st', p, op);
    }
  }

  lemma {:induction false} RunSound<S(!new), Op(!new)>(g: Program<S, Op>, inv: S -> bool, run: seq<State<S, Op>>)
    requires Disciplined(g, inv) && Run(g, run) && inv(run[0].s)
    ensures Sound(g, inv, run[|run| - 1])
  {
    var n := |run| - 1;
    if n > 0 {
      assert Next(g, run[n - 1], run[n]);
      RunSound(g, inv, run[..n]);
      StepSound(g, inv, run[n - 1], run[n]);
    }
  }

  lemma {:induction false} RunCalm<S(!new), Op(!new)>(g: Program<S, Op>, inv: S -> bool, run: seq<State<S, Op>>, q: Pid)
    requires Disciplined(g, inv) && Calm(g, inv) && Run(g, run) && inv(run[0].s) && q in run[|run| - 1].pc
    ensures !run[|run| - 1].pc[q].Panicked?
  {
    var n := |run| - 1;
    if n > 0 {
      assert Next(g, run[n - 1], run[n]);
      var p, op :| p in run[n - 1].pc && StepBy(g, run[n - 1], run[n], p, op);
      RunCalm(g, inv, run[..n], q);
      RunSound(g, inv, run[..n]);
      assert ProcOk(g, run[n - 1], p);
    }
  }

  /** No lost wakeup: in every run of a disciplined program, whenever lk is free each sleeper's
      guard really holds, and at most one process is in a critical section. */
  lemma NoLostWakeup<S(!new), Op(!new)>(g: Program<S, Op>, inv: S -> bool, run: seq<State<S, Op>>, q: Pid)
    requires Disciplined(g, inv) && Run(g, run) && inv(run[0].s) && q in run[|run| - 1].pc
    ensures var st := run[|run| - 1];
            && inv(st.s)
            && (st.pc[q].Asleep? && !WakeComing(st) ==> g.guard(st.pc[q].op, q, st.s))
            && (st.lk == None && st.pc[q].Asleep? ==> g.guard(st.pc[q].op, q, st.s))
            && (HoldsLk(st.pc[q]) ==> st.lk == Some(q))
  {
    RunSound(g, inv, run);
    assert ProcOk(g, run[|run| - 1], q);
  }

  // ----- runs put together from whole operations ----------------------------------------------

  /** Nobody is in the monitor. */
  ghost predicate AllOut<S, Op>(st: State<S, Op>)
  {
    st.lk == None && st.pt == None && forall q :: q in st.pc ==> st.pc[q].Out?
  }

  lemma RunMore<S(!new), Op(!new)>(g: Program<S, Op>, run: seq<State<S, Op>>, st': State<S, Op>, p: Pid, op: Op)
    requires Run(g, run) && p in run[|run| - 1].pc && StepBy(g, run[|run| - 1], st', p, op)
    ensures Run(g, run + [st'])
  {
    var more := run + [st'];
    assert Next(g, run[|run| - 1], st');
    forall i | 0 <= i < |more| - 1
      ensures Next(g, more[i], more[i + 1])
    {
      assert i < |run| - 1 ==> Next(g, run[i], run[i + 1]);
    }
  }

  /** A process that calls op while nobody is in the monitor comes to the top of the wait loop. */
  lemma Enters<S(!new), Op(!new)>(g: Program<S, Op>, run: seq<State<S, Op>>, p: Pid, op: Op)
    returns (run': seq<State<S, Op>>)
    requires Run(g, run) && AllOut(run[|run| - 1]) && p in run[|run| - 1].pc && g.may(op, p, run[|run| - 1].s)
    ensures Run(g, run') && run'[0] == run[0]
    ensures var st := run[|run| - 1]; run'[|run'| - 1] == st.(lk := Some(p), pc := st.pc[p := Test(op)])
  {
    var st := run[|run| - 1];
    var s1 := st.(pc := st.pc[p := Entry(op)]);
    RunMore(g, run, s1, p, op);
    var s2 := s1.(lk := Some(p), pc := s1.pc[p := Test(op)]);
    RunMore(g, run + [s1], s2, p, op);
    run' := run + [s1] + [s2];
  }

  /** An operation that neither waits nor panics goes through, and nobody is in the monitor again. */
  lemma Completes<S(!new), Op(!new)>(g: Program<S, Op>, run: seq<State<S, Op>>, p: Pid, op: Op)
    returns (run': seq<State<S, Op>>)
    requires Run(g, run) && AllOut(run[|run| - 1]) && p in run[|run| - 1].pc && Fires(g, op, p, run[|run| - 1].s)
    ensures Run(g, run') && run'[0] == run[0]
    ensures var st := run[|run| - 1]; run'[|run'| - 1] == st.(s := g.effect(op, p, st.s))
  {
    var st := run[|run| - 1];
    run' := Enters(g, run, p, op);
    var s2 := st.(lk := Some(p), pc := st.pc[p := Test(op)]);
    var wakes := g.wakes(op, p, st.s);
    var s3 := s2.(s := g.effect(op, p, st.s), pc := s2.pc[p := if wakes then Wake(op) else Leave(op)]);
    RunMore(g, run', s3, p, op);
    run' := run' + [s3];
    if wakes {
      var s4 := s3.(pt := Some(p), pc := s3.pc[p := WakePt(op)]);
      RunMore(g, run', s4, p, op);
      run' := run' + [s4];
      assert Awaken(s4.pc) == s4.pc;
      s3 := s4.(pt := None, pc := Awaken(s4.pc)[p := Leave(op)]);
      RunMore(g, run', s3, p, op);
      run' := run' + [s3];
    }
    var s6 := s3.(lk := None, pc := s3.pc[p := Out]);
    RunMore(g, run', s6, p, op);
    run' := run' + [s6];
    assert s6.pc == st.pc;
  }
}

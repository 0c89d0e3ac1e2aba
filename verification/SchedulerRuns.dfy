/** What holds over whole runs of the scheduler: where processes are, what balancing does, how long
    a queued process waits on an E core, and which process a P core keeps choosing. */
module SchedulerRuns {
  import opened Collections
  import opened Scheduler

  // ----- every process is in one place --------------------------------------------------------

  predicate Queued(s: Sched, c: nat, p: nat) { c < |s.cpus| && p in s.cpus[c].queue }

  predicate RunsOn(s: Sched, c: nat, p: nat) { c < |s.cpus| && s.cpus[c].proc == Some(p) }

  lemma InvPlaces(s: Sched, p: nat)
    requires Inv(s) && p < NPROC
    ensures forall c: nat :: Queued(s, c, p) <==> s.home[p] == Some(c)
    ensures forall c: nat :: RunsOn(s, c, p) <==> s.on[p] == Some(c)
  {
    assert SlotOk(s, p);
    forall c: nat | Queued(s, c, p) ensures s.home[p] == Some(c) {
      assert CpuOk(s, c);
      var k := IndexOf(s.cpus[c].queue, p);
    }
    forall c: nat | RunsOn(s, c, p) ensures s.on[p] == Some(c) { assert CpuOk(s, c); }
  }

  /** In every state of every run: a queued process is RUNNABLE and on one queue, once; a process is
      RUNNING exactly when some CPU has it, and then only one does; RUNNABLE means queued, except
      for the slots kill() took out of sleep; pids 1 and 2 are never on a P core. */
  lemma RunQueueSafety(s: Sched, run: seq<Event>, p: nat)
    requires Boot(s) && Exec(s, run).Some? && p < NPROC
    ensures var t := Exec(s, run).value;
            && |t.procs| == NPROC
            && (t.procs[p].state == Runnable <==> (exists c: nat :: Queued(t, c, p)) || p in KilledAsleep(s, run))
            && (p in KilledAsleep(s, run) ==> !exists c: nat :: Queued(t, c, p))
            && (t.procs[p].state == Running <==> exists c: nat :: RunsOn(t, c, p))
            && (forall c: nat, d: nat :: Queued(t, c, p) && Queued(t, d, p) ==> c == d)
            && (forall c: nat, d: nat :: RunsOn(t, c, p) && RunsOn(t, d, p) ==> c == d)
            && (forall c :: 0 <= c < |t.cpus| ==> Distinct(t.cpus[c].queue))
            && (forall c: nat :: (Queued(t, c, p) || RunsOn(t, c, p)) && t.cpus[c].core == PCore ==> t.procs[p].pid > 2)
  {
    assert Inv(s);
    RunInv(s, run);
    var t := Exec(s, run).value;
    OrphansAreKilledSleepers(s, run);
    InvPlaces(t, p);
    assert SlotOk(t, p);
    forall c | 0 <= c < |t.cpus| ensures Distinct(t.cpus[c].queue) { assert CpuOk(t, c); }
    if t.home[p].Some? { assert Queued(t, t.home[p].value, p); }
    if t.on[p].Some? { assert RunsOn(t, t.on[p].value, p); }
  }

  /** The slots whose process was SLEEPING when a kill() of the run hit it. */
  ghost function KilledAsleep(s: Sched, run: seq<Event>): (r: set<nat>)
    decreases run
  {
    if run == [] || !Shape(s) || !Enabled(s, run[0]) then {}
    else
      var e := run[0];
      (if e.Kill? && s.procs[e.p].state == Sleeping then {e.p} else {}) + KilledAsleep(Step(s, e), run[1..])
  }

  lemma {:induction false} WakeupOrphans(s: Sched, chan: nat, i: nat)
    requires Shape(s) && i <= NPROC
    ensures Wakeup(s, chan, i).orphans == s.orphans
    decreases NPROC - i
  {
    if i < NPROC {
      WakeupOrphans(if s.procs[i].state == Sleeping && s.procs[i].chan == chan then Admit(s, i) else s, chan, i + 1);
    }
  }

  lemma {:induction false} OrphansAreKilledSleepers(s: Sched, run: seq<Event>)
    requires Exec(s, run).Some?
    ensures Exec(s, run).value.orphans == s.orphans + KilledAsleep(s, run)
    decreases run
  {
    if run != [] {
      var e := run[0];
      if e.WakeAll? { WakeupOrphans(s, e.chan, 0); }
      OrphansAreKilledSleepers(Step(s, e), run[1..]);
    }
  }

  /** A killed sleeper is lost: however the run goes on, it stays RUNNABLE and is never queued or run. */
  lemma KilledSleeperIsStranded(s: Sched, run: seq<Event>, p: nat)
    requires Inv(s) && p < NPROC && s.procs[p].state == Sleeping && Exec(Step(s, Kill(p)), run).Some?
    ensures var t := Exec(Step(s, Kill(p)), run).value;
            && |t.procs| == NPROC && t.procs[p].state == Runnable
            && (forall c: nat :: !Queued(t, c, p) && !RunsOn(t, c, p))
  {
    var s1 := Step(s, Kill(p));
    StepInv(s, Kill(p));
    RunInv(s1, run);
    OrphansAreKilledSleepers(s1, run);
    var t := Exec(s1, run).value;
    assert SlotOk(t, p);
    InvPlaces(t, p);
  }

  // ----- balancing ----------------------------------------------------------------------------

  function Square(n: nat): (r: nat) { n * n }

  /** Sum of the squared lengths of the first n queues. */
  function SumSquares(cpus: seq<Cpu>, n: nat): (r: nat)
    requires n <= |cpus|
  {
    if n == 0 then 0 else SumSquares(cpus, n - 1) + Square(|cpus[n - 1].queue|)
  }

  /** How often p is on the first n queues. */
  function TimesQueued(cpus: seq<Cpu>, p: nat, n: nat): (r: nat)
    requires n <= |cpus|
  {
    if n == 0 then 0 else TimesQueued(cpus, p, n - 1) + multiset(cpus[n - 1].queue)[p]
  }

  lemma {:induction false} SquaresUpdate(cpus: seq<Cpu>, c: nat, x: Cpu, n: nat)
    requires c < |cpus| && n <= |cpus|
    ensures SumSquares(cpus[c := x], n) ==
            SumSquares(cpus, n) + if c < n then Square(|x.queue|) - Square(|cpus[c].queue|) else 0
  {
    if n > 0 {
      SquaresUpdate(cpus, c, x, n - 1);
    }
  }

  lemma {:induction false} QueuedUpdate(cpus: seq<Cpu>, c: nat, x: Cpu, p: nat, n: nat)
    requires c < |cpus| && n <= |cpus|
    ensures TimesQueued(cpus[c := x], p, n) + (if c < n then multiset(cpus[c].queue)[p] else 0)
         == TimesQueued(cpus, p, n) + (if c < n then multiset(x.queue)[p] else 0)
  {
    if n > 0 {
      QueuedUpdate(cpus, c, x, p, n - 1);
    }
  }

  lemma SquaresDrop(n: nat, m: nat)
    requires n >= m + 3
    ensures Square(n - 1) + Square(m + 1) + 4 <= Square(n) + Square(m)
  {
  }

  /** One push: a process with pid above 2 goes from the E core to the end of a least loaded P
      core's queue, and no process changes otherwise. */
  lemma BalancePush(s: Sched, c: nat)
    requires Inv(s) && c < |s.cpus| && AllBelow(s.cpus[c].queue, NPROC) && BalanceMove(s, c).Some?
    ensures var t := Balance(s, c); var (v, d) := BalanceMove(s, c).value;
            && s.cpus[c].core == ECore && IsLightest(s.cpus, PCore, d) && v in s.cpus[c].queue && s.procs[v].pid > 2
            && t.cpus == s.cpus[c := s.cpus[c].(queue := Remove(s.cpus[c].queue, v))]
                               [d := s.cpus[d].(queue := s.cpus[d].queue + [v])]
            && t.procs == s.procs
  {
    CoreChoices(s.cpus);
  }

  /** The push keeps every process queued as often as it was, leaves the source longer than the
      target and lowers the sum of squared queue lengths by at least 4. */
  lemma BalanceProgress(s: Sched, c: nat)
    requires Inv(s) && c < |s.cpus| && AllBelow(s.cpus[c].queue, NPROC) && BalanceMove(s, c).Some?
    ensures var t := Balance(s, c); var n := |s.cpus|;
            && |t.cpus| == n && SumSquares(t.cpus, n) + 4 <= SumSquares(s.cpus, n)
            && |t.cpus[c].queue| > |t.cpus[BalanceMove(s, c).value.1].queue|
            && (forall p :: TimesQueued(t.cpus, p, n) == TimesQueued(s.cpus, p, n))
  {
    BalancePush(s, c);
    var (v, d) := BalanceMove(s, c).value;
    var q := s.cpus[c].queue;
    var source := s.cpus[c].(queue := Remove(q, v));
    var target := s.cpus[d].(queue := s.cpus[d].queue + [v]);
    RemoveAtKeeps(q, IndexOf(q, v));
    PushSquares(s.cpus, c, source, d, target);
    forall p ensures TimesQueued(Balance(s, c).cpus, p, |s.cpus|) == TimesQueued(s.cpus, p, |s.cpus|) {
      PushKeeps(s.cpus, c, source, d, target, v, p);
    }
  }

  lemma PushSquares(cpus: seq<Cpu>, c: nat, source: Cpu, d: nat, target: Cpu)
    requires c < |cpus| && d < |cpus| && c != d && |cpus[c].queue| >= |cpus[d].queue| + 3
    requires |source.queue| == |cpus[c].queue| - 1 && |target.queue| == |cpus[d].queue| + 1
    ensures SumSquares(cpus[c := source][d := target], |cpus|) + 4 <= SumSquares(cpus, |cpus|)
  {
    SquaresUpdate(cpus, c, source, |cpus|);
    SquaresUpdate(cpus[c := source], d, target, |cpus|);
    SquaresDrop(|cpus[c].queue|, |cpus[d].queue|);
  }

  lemma PushKeeps(cpus: seq<Cpu>, c: nat, source: Cpu, d: nat, target: Cpu, v: nat, p: nat)
    requires c < |cpus| && d < |cpus| && c != d && v in cpus[c].queue
    requires multiset(source.queue) == multiset(cpus[c].queue) - multiset{v} && target.queue == cpus[d].queue + [v]
    ensures TimesQueued(cpus[c := source][d := target], p, |cpus|) == TimesQueued(cpus, p, |cpus|)
  {
    QueuedUpdate(cpus, c, source, p, |cpus|);
    QueuedUpdate(cpus[c := source], d, target, p, |cpus|);
  }

  /** The E cores of cs balance one after the other and every one of them finds something to push. */
  ghost predicate EachMoves(s: Sched, cs: seq<nat>)
    decreases cs
  {
    cs == [] ||
    (&& Shape(s) && cs[0] < |s.cpus| && AllBelow(s.cpus[cs[0]].queue, NPROC) && BalanceMove(s, cs[0]).Some?
     && EachMoves(Balance(s, cs[0]), cs[1..]))
  }

  /** Balancing alone stops. */
  lemma {:induction false} BalancingStops(s: Sched, cs: seq<nat>)
    requires Inv(s) && EachMoves(s, cs)
    ensures 4 * |cs| <= SumSquares(s.cpus, |s.cpus|)
    decreases cs
  {
    if cs != [] {
      BalanceProgress(s, cs[0]);
      BalanceInv(s, cs[0]);
      BalancingStops(Balance(s, cs[0]), cs[1..]);
    }
  }

  // ----- waiting on an E core -----------------------------------------------------------------

  lemma AppendPosition(q: seq<nat>, x: nat, p: nat)
    requires p in q
    ensures IndexOf(q + [x], p) == IndexOf(q, p)
  {
    var k := IndexOf(q, p);
    assert (q + [x])[..k] == q[..k];
    FirstIndex(q + [x], p, k);
  }

  lemma RemovePosition(q: seq<nat>, x: nat, p: nat)
    requires Distinct(q) && x in q && p in q && p != x
    ensures p in Remove(q, x)
    ensures IndexOf(Remove(q, x), p) == IndexOf(q, p) - (if IndexOf(q, x) < IndexOf(q, p) then 1 else 0)
  {
    var m, k := IndexOf(q, x), IndexOf(q, p);
    assert Remove(q, x)[if k < m then k else k - 1] == p;
  }

  lemma {:induction false} WakeupCpu(s: Sched, chan: nat, i: nat, c: nat)
    requires Inv(s) && i <= NPROC && c < |s.cpus|
    ensures var t := Wakeup(s, chan, i);
            && t.cpus[c].proc == s.cpus[c].proc && t.cpus[c].core == s.cpus[c].core
            && (forall p :: p in s.cpus[c].queue ==>
               p in t.cpus[c].queue && IndexOf(t.cpus[c].queue, p) == IndexOf(s.cpus[c].queue, p))
            && (forall q :: 0 <= q < NPROC && s.on[q].Some? ==> t.procs[q] == s.procs[q])
    decreases NPROC - i
  {
    if i < NPROC {
      if s.procs[i].state == Sleeping && s.procs[i].chan == chan {
        var s1 := Admit(s, i);
        AdmitInv(s, i);
        assert SlotOk(s, i);
        WakeupCpu(s1, chan, i + 1, c);
        forall p | p in s.cpus[c].queue
          ensures p in s1.cpus[c].queue && IndexOf(s1.cpus[c].queue, p) == IndexOf(s.cpus[c].queue, p)
        {
          AppendPosition(s.cpus[c].queue, i, p);
        }
      } else {
        WakeupCpu(s, chan, i + 1, c);
      }
    }
  }

  /** fork and wakeup put a process at the end of a shortest queue of the E cores. */
  lemma AdmitPlaces(s: Sched, p: nat)
    requires Inv(s) && p < NPROC && (s.procs[p].state == Embryo || s.procs[p].state == Sleeping)
    ensures exists c: nat ::
              && c < |s.cpus| && IsLightest(s.cpus, ECore, c)
              && Admit(s, p).cpus == s.cpus[c := s.cpus[c].(queue := s.cpus[c].queue + [p])]
              && Admit(s, p).home == s.home[p := Some(c)]
  {
    CoreChoices(s.cpus);
  }

  ghost predicate QueuedOnE(s: Sched, p: nat) { exists c: nat :: Queued(s, c, p) && s.cpus[c].core == ECore }

  /** wakeup1 from slot i on makes RUNNABLE, and queues on an E core, the sleepers on the channel and
      no other process. */
  lemma {:induction false} WakeupExact(s: Sched, chan: nat, i: nat, p: nat)
    requires Inv(s) && i <= NPROC && p < NPROC
    ensures var t := Wakeup(s, chan, i);
            if p >= i && s.procs[p].state == Sleeping && s.procs[p].chan == chan then
              t.procs[p] == s.procs[p].(state := Runnable) && QueuedOnE(t, p)
            else t.procs[p] == s.procs[p] && t.home[p] == s.home[p]
    decreases NPROC - i
  {
    if i < NPROC {
      if s.procs[i].state == Sleeping && s.procs[i].chan == chan {
        AdmitInv(s, i);
        WakeupExact(Admit(s, i), chan, i + 1, p);
        if p == i {
          WokenStays(s, chan, i);
        }
      } else {
        WakeupExact(s, chan, i + 1, p);
      }
    }
  }

  lemma WokenStays(s: Sched, chan: nat, i: nat)
    requires Inv(s) && i < NPROC && s.procs[i].state == Sleeping
    ensures QueuedOnE(Wakeup(Admit(s, i), chan, i + 1), i)
  {
    AdmitInv(s, i);
    AdmitPlaces(s, i);
    var t := Admit(s, i);
    var c: nat :| c < |s.cpus| && IsLightest(s.cpus, ECore, c)
      && t.cpus == s.cpus[c := s.cpus[c].(queue := s.cpus[c].queue + [i])];
    assert i in t.cpus[c].queue;
    WakeupCpu(t, chan, i + 1, c);
    assert Queued(Wakeup(t, chan, i + 1), c, i);
  }

  lemma QueuedRunnable(s: Sched, c: nat, p: nat)
    requires Inv(s) && Queued(s, c, p)
    ensures p < NPROC && s.procs[p].state == Runnable && Distinct(s.cpus[c].queue) && AllBelow(s.cpus[c].queue, NPROC)
  {
    DequeueInv(s, c, p);
    assert CpuOk(s, c);
  }

  /** On an E core the dispatched process is the head of the queue. */
  lemma DispatchesHead(s: Sched, c: nat)
    requires Inv(s) && c < |s.cpus| && s.cpus[c].core == ECore && s.cpus[c].queue != []
    ensures AllBelow(s.cpus[c].queue, NPROC) && s.cpus[c].queue[0] < NPROC
    ensures s.cpus[c].queue[0] !in s.cpus[c].queue[1..]
    ensures var q := s.cpus[c].queue; var t := RunNext(s, c);
            && t.cpus == s.cpus[c := s.cpus[c].(queue := q[1..], proc := Some(q[0]))]
            && t.procs == s.procs[q[0] := s.procs[q[0]].(state := Running, slice := 0)]
  {
    var q := s.cpus[c].queue;
    QueuedRunnable(s, c, q[0]);
    assert Remove(q, q[0]) == q[1..];
  }

  /** Where p is after queue q lost its head to cpu c. */
  predicate OneStepAhead(q: seq<nat>, q': seq<nat>, p: nat)
  {
    p in q && p in q' && IndexOf(q', p) < IndexOf(q, p)
  }

  lemma HeadPosition(s: Sched, c: nat, p: nat)
    requires Inv(s) && Queued(s, c, p) && s.cpus[c].core == ECore
    ensures AllBelow(s.cpus[c].queue, NPROC)
    ensures var t := RunNext(s, c);
            RunsOn(t, c, p) || OneStepAhead(s.cpus[c].queue, t.cpus[c].queue, p)
  {
    DispatchesHead(s, c);
  }

  /** Nearer the head, running, or pushed to a P core. */
  ghost predicate MovedOn(s: Sched, t: Sched, c: nat, p: nat)
  {
    || (c < |s.cpus| && c < |t.cpus| && OneStepAhead(s.cpus[c].queue, t.cpus[c].queue, p))
    || RunsOn(t, c, p)
    || exists d: nat :: Queued(t, d, p) && t.cpus[d].core == PCore
  }

  lemma PushedOn(s: Sched, c: nat, p: nat)
    requires Inv(s) && Queued(s, c, p) && AllBelow(s.cpus[c].queue, NPROC) && BalanceMove(s, c).Some?
    ensures var s1 := Balance(s, c); var (v, d) := BalanceMove(s, c).value;
            && Inv(s1) && c != d && |s1.cpus| == |s.cpus| && s1.cpus[c].core == ECore
            && (p == v ==> Queued(s1, d, p) && s1.cpus[d].core == PCore)
            && (p != v ==> Queued(s1, c, p) && IndexOf(s1.cpus[c].queue, p) <= IndexOf(s.cpus[c].queue, p))
  {
    BalancePush(s, c);
    BalanceInv(s, c);
    var (v, d) := BalanceMove(s, c).value;
    if p != v {
      QueuedRunnable(s, c, p);
      RemovePosition(s.cpus[c].queue, v, p);
    } else {
      var q := Balance(s, c).cpus[d].queue;
      assert q[|q| - 1] == p;
    }
  }

  lemma QueueBelow(s: Sched, c: nat)
    requires Inv(s) && c < |s.cpus|
    ensures AllBelow(s.cpus[c].queue, NPROC)
  {
    assert CpuOk(s, c);
  }

  lemma RoundMoves(s: Sched, s1: Sched, c: nat, p: nat)
    requires Inv(s1) && c < |s1.cpus| && s1.cpus[c].core == ECore && Queued(s, c, p)
    requires AllBelow(s1.cpus[c].queue, NPROC)
    requires || (Queued(s1, c, p) && IndexOf(s1.cpus[c].queue, p) <= IndexOf(s.cpus[c].queue, p))
             || exists d: nat :: d != c && Queued(s1, d, p) && s1.cpus[d].core == PCore
    ensures MovedOn(s, RunNext(s1, c), c, p)
  {
    if Queued(s1, c, p) && IndexOf(s1.cpus[c].queue, p) <= IndexOf(s.cpus[c].queue, p) {
      HeadPosition(s1, c, p);
    } else {
      var d: nat :| d != c && Queued(s1, d, p) && s1.cpus[d].core == PCore;
      RunNextElsewhere(s1, c, d);
      assert Queued(RunNext(s1, c), d, p);
    }
  }

  /** What its core's scheduler does for a queued process in one round. */
  lemma ScheduleOutcome(s: Sched, c: nat, balance: bool, p: nat)
    requires Inv(s) && Enabled(s, Schedule(c, balance)) && s.cpus[c].core == ECore && Queued(s, c, p)
    ensures MovedOn(s, Step(s, Schedule(c, balance)), c, p)
  {
    if balance && BalanceMove(s, c).Some? {
      PushedOn(s, c, p);
      QueueBelow(Balance(s, c), c);
      RoundMoves(s, Balance(s, c), c, p);
    } else {
      HeadPosition(s, c, p);
    }
  }

  lemma RunNextElsewhere(s: Sched, c: nat, d: nat)
    requires Inv(s) && c < |s.cpus| && d < |s.cpus| && c != d && AllBelow(s.cpus[c].queue, NPROC)
    ensures |RunNext(s, c).cpus| == |s.cpus| && RunNext(s, c).cpus[d] == s.cpus[d]
  {
  }

  lemma OtherScheduler(s: Sched, d: nat, balance: bool, c: nat)
    requires Inv(s) && Enabled(s, Schedule(d, balance)) && c < |s.cpus| && c != d && s.cpus[c].core == ECore
    ensures |Step(s, Schedule(d, balance)).cpus| == |s.cpus| && Step(s, Schedule(d, balance)).cpus[c] == s.cpus[c]
  {
    if balance && BalanceMove(s, d).Some? {
      BalancePush(s, d);
      BalanceInv(s, d);
      assert CpuOk(Balance(s, d), d);
      RunNextElsewhere(Balance(s, d), d, c);
    } else {
      RunNextElsewhere(s, d, c);
    }
  }

  predicate SchedulesOn(e: Event, c: nat) { e.Schedule? && e.c == c }

  /** An event that is not cpu c's own scheduler keeps E core c's queue, possibly with additions at
      the end. */
  lemma PositionKept(s: Sched, e: Event, c: nat, p: nat)
    requires Inv(s) && Enabled(s, e) && !SchedulesOn(e, c) && Queued(s, c, p) && s.cpus[c].core == ECore
    ensures Queued(Step(s, e), c, p) && IndexOf(Step(s, e).cpus[c].queue, p) == IndexOf(s.cpus[c].queue, p)
  {
    match e
    case Schedule(d, balance) => OtherScheduler(s, d, balance, c);
    case WakeAll(chan) => WakeupCpu(s, chan, 0, c);
    case Start(q) => AppendPosition(s.cpus[c].queue, q, p);
    case Tick(d) => AppendPosition(s.cpus[c].queue, s.cpus[d].proc.value, p);
    case _ =>
  }

  /** Timer traps the process on cpu c has left. */
  function Slack(s: Sched, c: nat): (r: int)
  {
    if HasProc(s, c) && s.cpus[c].proc.value < |s.procs|
    then RR_QUANTUM_TICKS - s.procs[s.cpus[c].proc.value].slice else 0
  }

  lemma InvSlack(s: Sched, c: nat)
    requires Inv(s) && c < |s.cpus| && s.cpus[c].core == ECore
    ensures Slack(s, c) >= 0
  {
    assert CpuOk(s, c);
    if HasProc(s, c) { assert SlotOk(s, s.cpus[c].proc.value); }
  }

  /** A trap uses up slack; nothing but cpu c's own scheduler restores it. */
  lemma SlackStep(s: Sched, e: Event, c: nat)
    requires Inv(s) && Enabled(s, e) && c < |s.cpus| && s.cpus[c].core == ECore
    ensures SchedulesOn(e, c) ==> Slack(Step(s, e), c) <= RR_QUANTUM_TICKS
    ensures !SchedulesOn(e, c) ==> Slack(Step(s, e), c) <= Slack(s, c) - (if e == Tick(c) then 1 else 0)
  {
    InvSlack(s, c);
    assert CpuOk(s, c);
    if HasProc(s, c) { assert SlotOk(s, s.cpus[c].proc.value); }
    match e
    case Schedule(d, balance) => ScheduleSlack(s, d, balance, c);
    case WakeAll(chan) => WakeupCpu(s, chan, 0, c);
    case Tick(d) => TickSlack(s, d, c);
    case Sleep(d, _) => assert CpuOk(s, d);
    case Exit(d) => assert CpuOk(s, d);
    case Kill(_) =>
    case Alloc(q, _) => assert SlotOk(s, q);
    case AllocFail(q) =>
    case Start(q) => assert SlotOk(s, q);
    case Reap(q) =>
  }

  lemma TickSlack(s: Sched, d: nat, c: nat)
    requires Inv(s) && HasProc(s, d) && c < |s.cpus| && s.cpus[c].core == ECore
    ensures Slack(TimerTrap(s, d), c) <= Slack(s, c) - (if d == c then 1 else 0)
  {
    assert CpuOk(s, c) && CpuOk(s, d) && SlotOk(s, s.cpus[d].proc.value);
  }

  lemma ScheduleSlack(s: Sched, d: nat, balance: bool, c: nat)
    requires Inv(s) && Enabled(s, Schedule(d, balance)) && c < |s.cpus| && s.cpus[c].core == ECore
    ensures c == d ==> Slack(Step(s, Schedule(d, balance)), c) <= RR_QUANTUM_TICKS
    ensures c != d ==> Slack(Step(s, Schedule(d, balance)), c) <= Slack(s, c)
  {
    BalanceInv(s, d);
    var s1 := if balance then Balance(s, d) else s;
    assert s1.procs == s.procs && s1.cpus[c].proc == s.cpus[c].proc;
    QueueBelow(s1, d);
    RunNextSlack(s1, d, c);
  }

  lemma RunNextSlack(s: Sched, d: nat, c: nat)
    requires Inv(s) && c < |s.cpus| && d < |s.cpus| && s.cpus[d].proc == None && AllBelow(s.cpus[d].queue, NPROC)
    ensures Slack(RunNext(s, d), c) <= if c == d then RR_QUANTUM_TICKS else Slack(s, c)
  {
    if Pick(s.procs, s.cpus[d]).Some? {
      PickQueued(s.procs, s.cpus[d]);
      QueuedRunnable(s, d, Pick(s.procs, s.cpus[d]).value);
      assert CpuOk(s, c);
      if HasProc(s, c) { assert SlotOk(s, s.cpus[c].proc.value); }
    }
  }

  /** p is on cpu c's queue before, during and after the run. */
  ghost predicate Waits(s: Sched, run: seq<Event>, c: nat, p: nat)
    decreases run
  {
    && Shape(s) && Queued(s, c, p)
    && (run == [] || (Enabled(s, run[0]) && Waits(Step(s, run[0]), run[1..], c, p)))
  }

  function Dispatches(run: seq<Event>, c: nat): (n: nat)
  {
    if run == [] then 0 else (if SchedulesOn(run[0], c) then 1 else 0) + Dispatches(run[1..], c)
  }

  function Ticks(run: seq<Event>, c: nat): (n: nat)
  {
    if run == [] then 0 else (if run[0] == Tick(c) then 1 else 0) + Ticks(run[1..], c)
  }

  lemma ScheduleKeepsCore(s: Sched, d: nat, balance: bool, c: nat)
    requires Inv(s) && Enabled(s, Schedule(d, balance)) && c < |s.cpus|
    ensures |Step(s, Schedule(d, balance)).cpus| == |s.cpus|
    ensures Step(s, Schedule(d, balance)).cpus[c].core == s.cpus[c].core
  {
    var s1 := if balance then Balance(s, d) else s;
    assert |s1.cpus| == |s.cpus| && s1.cpus[c].core == s.cpus[c].core;
  }

  lemma CoreKept(s: Sched, e: Event, c: nat)
    requires Inv(s) && Enabled(s, e) && c < |s.cpus|
    ensures |Step(s, e).cpus| == |s.cpus| && Step(s, e).cpus[c].core == s.cpus[c].core
  {
    match e
    case WakeAll(chan) => WakeupCpu(s, chan, 0, c);
    case Schedule(d, balance) => ScheduleKeepsCore(s, d, balance, c);
    case _ =>
  }

  /** As long as p stays queued at position k of an E core, that core dispatches at most k times and
      takes at most 3(k + 1) timer traps. */
  lemma {:induction false} BoundedWaiting(s: Sched, run: seq<Event>, c: nat, p: nat)
    requires Inv(s) && Waits(s, run, c, p) && s.cpus[c].core == ECore
    ensures Dispatches(run, c) <= IndexOf(s.cpus[c].queue, p)
    ensures Ticks(run, c) <= RR_QUANTUM_TICKS * IndexOf(s.cpus[c].queue, p) + Slack(s, c)
    ensures Slack(s, c) <= RR_QUANTUM_TICKS
    decreases run
  {
    InvSlack(s, c);
    if run != [] {
      var e := run[0];
      var s1 := Step(s, e);
      StepInv(s, e);
      CoreKept(s, e, c);
      SlackStep(s, e, c);
      BoundedWaiting(s1, run[1..], c, p);
      if SchedulesOn(e, c) {
        QueuedStaysAhead(s, c, e.balance, p);
      } else {
        PositionKept(s, e, c, p);
      }
    }
  }

  lemma QueuedStaysAhead(s: Sched, c: nat, balance: bool, p: nat)
    requires Inv(s) && Enabled(s, Schedule(c, balance)) && s.cpus[c].core == ECore && Queued(s, c, p)
    requires Queued(Step(s, Schedule(c, balance)), c, p)
    ensures IndexOf(Step(s, Schedule(c, balance)).cpus[c].queue, p) < IndexOf(s.cpus[c].queue, p)
  {
    var t := Step(s, Schedule(c, balance));
    ScheduleOutcome(s, c, balance, p);
    StepInv(s, Schedule(c, balance));
    CoreKept(s, Schedule(c, balance), c);
    QueuedRunnable(t, c, p);
    InvPlaces(t, p);
    assert SlotOk(t, p);
  }

  // ----- the P core's favourite ---------------------------------------------------------------

  /** Every other process on cpu c's queue is younger than p. */
  predicate OldestThere(s: Sched, c: nat, p: nat)
    requires Shape(s) && c < |s.cpus| && p < NPROC
  {
    forall k :: 0 <= k < |s.cpus[c].queue| && s.cpus[c].queue[k] != p ==>
      s.cpus[c].queue[k] < NPROC && s.procs[p].ctime < s.procs[s.cpus[c].queue[k]].ctime
  }

  /** p runs on cpu c, or nobody does and p is queued there. */
  predicate Favourite(s: Sched, c: nat, p: nat)
  {
    c < |s.cpus| && (s.cpus[c].proc == Some(p) || (s.cpus[c].proc == None && p in s.cpus[c].queue))
  }

  lemma PCoreChooses(s: Sched, c: nat, balance: bool, p: nat)
    requires Inv(s) && Enabled(s, Schedule(c, balance)) && s.cpus[c].core == PCore && p < NPROC
    requires OldestThere(s, c, p) && Favourite(s, c, p)
    ensures Step(s, Schedule(c, balance)).cpus ==
            s.cpus[c := s.cpus[c].(queue := Remove(s.cpus[c].queue, p), proc := Some(p))]
  {
    QueuedRunnable(s, c, p);
    var q := s.cpus[c].queue;
    OldestChosen(s.procs, q, None);
    assert s.procs[q[IndexOf(q, p)]].state == Runnable;
    PickQueued(s.procs, s.cpus[c]);
  }

  lemma {:induction false} WakeupProcs(s: Sched, chan: nat, i: nat)
    requires Shape(s) && i <= NPROC
    ensures forall q :: 0 <= q < NPROC ==> Wakeup(s, chan, i).procs[q].ctime == s.procs[q].ctime
    decreases NPROC - i
  {
    if i < NPROC {
      WakeupProcs(if s.procs[i].state == Sleeping && s.procs[i].chan == chan then Admit(s, i) else s, chan, i + 1);
    }
  }

  /** Creation times are fixed for the life of a process. */
  lemma CtimeKept(s: Sched, e: Event, q: nat)
    requires Inv(s) && Enabled(s, e) && q < NPROC && s.procs[q].state != Unused
    ensures Shape(Step(s, e)) && Step(s, e).procs[q].ctime == s.procs[q].ctime
  {
    StepInv(s, e);
    match e
    case WakeAll(chan) => WakeupProcs(s, chan, 0);
    case Schedule(c, balance) => assert (if balance then Balance(s, c) else s).procs == s.procs;
    case _ =>
  }

  /** No process as old as p joins cpu c's queue in this step. */
  ghost predicate NoOlderArrives(s: Sched, t: Sched, c: nat, p: nat)
    requires Shape(s) && Shape(t) && p < NPROC
  {
    forall q: nat :: Queued(t, c, q) && !Queued(s, c, q) && q != p ==> q < NPROC && s.procs[p].ctime < t.procs[q].ctime
  }

  lemma OldestKept(s: Sched, e: Event, c: nat, p: nat)
    requires Inv(s) && Enabled(s, e) && c < |s.cpus| && p < NPROC && s.procs[p].state != Unused
    requires OldestThere(s, c, p) && Shape(Step(s, e)) && NoOlderArrives(s, Step(s, e), c, p)
    ensures c < |Step(s, e).cpus| && OldestThere(Step(s, e), c, p)
  {
    var t := Step(s, e);
    CoreKept(s, e, c);
    CtimeKept(s, e, p);
    forall k | 0 <= k < |t.cpus[c].queue| && t.cpus[c].queue[k] != p
      ensures t.cpus[c].queue[k] < NPROC && t.procs[p].ctime < t.procs[t.cpus[c].queue[k]].ctime
    {
      var q := t.cpus[c].queue[k];
      assert Queued(t, c, q);
      if Queued(s, c, q) {
        QueuedRunnable(s, c, q);
        CtimeKept(s, e, q);
        assert s.cpus[c].queue[IndexOf(s.cpus[c].queue, q)] == q;
      }
    }
  }

  /** Sleeping and exiting are the favourite's own ways to leave its P core; nothing else takes it away. */
  lemma FavouriteKept(s: Sched, e: Event, c: nat, p: nat)
    requires Inv(s) && Enabled(s, e) && p < NPROC && Favourite(s, c, p) && s.cpus[c].core == PCore
    requires OldestThere(s, c, p)
    requires !(e.Sleep? && e.c == c) && !(e.Exit? && e.c == c)
    ensures Favourite(Step(s, e), c, p)
  {
    match e
    case Schedule(d, balance) =>
      if d == c {
        PCoreChooses(s, c, balance, p);
      } else {
        ScheduleElsewhere(s, d, balance, c);
      }
    case WakeAll(chan) => WakeupCpu(s, chan, 0, c);
    case Tick(d) => assert CpuOk(s, d) && CpuOk(s, c);
    case _ =>
  }

  lemma ScheduleElsewhere(s: Sched, d: nat, balance: bool, c: nat)
    requires Inv(s) && Enabled(s, Schedule(d, balance)) && c < |s.cpus| && c != d
    ensures var t := Step(s, Schedule(d, balance));
            c < |t.cpus| && t.cpus[c].proc == s.cpus[c].proc && s.cpus[c].queue <= t.cpus[c].queue
  {
    BalanceInv(s, d);
    var s1 := if balance then Balance(s, d) else s;
    assert CpuOk(s1, d);
    RunNextElsewhere(s1, d, c);
  }

  /** The run in which p neither blocks nor exits on cpu c and no process as old joins its queue. */
  ghost predicate Undisturbed(s: Sched, run: seq<Event>, c: nat, p: nat)
    requires p < NPROC
    decreases run
  {
    run == [] ||
    (&& Shape(s) && Enabled(s, run[0]) && Shape(Step(s, run[0]))
     && !(run[0].Sleep? && run[0].c == c) && !(run[0].Exit? && run[0].c == c)
     && NoOlderArrives(s, Step(s, run[0]), c, p)
     && Undisturbed(Step(s, run[0]), run[1..], c, p))
  }

  /** A P core sticks to its oldest process: whatever yields happen, it is the only one to run
      there until it blocks, exits, or one as old arrives. */
  lemma {:induction false} PCoreSticks(s: Sched, run: seq<Event>, c: nat, p: nat)
    requires Inv(s) && p < NPROC && Favourite(s, c, p) && s.cpus[c].core == PCore && OldestThere(s, c, p)
    requires Undisturbed(s, run, c, p)
    ensures Exec(s, run).Some? && Favourite(Exec(s, run).value, c, p)
    decreases run
  {
    if run != [] {
      var e := run[0];
      FavouriteAlive(s, c, p);
      StepInv(s, e);
      CoreKept(s, e, c);
      FavouriteKept(s, e, c, p);
      OldestKept(s, e, c, p);
      PCoreSticks(Step(s, e), run[1..], c, p);
    }
  }

  lemma FavouriteAlive(s: Sched, c: nat, p: nat)
    requires Inv(s) && p < NPROC && Favourite(s, c, p)
    ensures s.procs[p].state != Unused
  {
    assert CpuOk(s, c) && SlotOk(s, p);
    if Queued(s, c, p) { QueuedRunnable(s, c, p); }
  }

  /** With distinct creation times, whatever a P core picks becomes its favourite. */
  lemma DispatchedIsOldest(s: Sched, c: nat, balance: bool)
    requires Inv(s) && Enabled(s, Schedule(c, balance)) && s.cpus[c].core == PCore && s.cpus[c].queue != []
    requires forall k, l :: 0 <= k < l < |s.cpus[c].queue| ==>
               s.procs[s.cpus[c].queue[k]].ctime != s.procs[s.cpus[c].queue[l]].ctime
    ensures exists p: nat ::
              && p < NPROC && Queued(s, c, p) && OldestThere(s, c, p) && Favourite(s, c, p)
              && Step(s, Schedule(c, balance)).cpus ==
                 s.cpus[c := s.cpus[c].(queue := Remove(s.cpus[c].queue, p), proc := Some(p))]
  {
    var q := s.cpus[c].queue;
    QueuedRunnable(s, c, q[0]);
    OldestChosen(s.procs, q, None);
    var p := Pick(s.procs, s.cpus[c]).value;
    PickQueued(s.procs, s.cpus[c]);
    forall k | 0 <= k < |q| && q[k] != p
      ensures s.procs[p].ctime < s.procs[q[k]].ctime
    {
      QueuedRunnable(s, c, q[k]);
      var m := IndexOf(q, p);
      assert q[m] == p && m != k;
    }
    assert OldestThere(s, c, p);
    PCoreChooses(s, c, balance, p);
  }
}

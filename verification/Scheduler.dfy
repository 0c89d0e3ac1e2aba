/** The scheduler of proc.c and the timer branch of trap.c as a state machine: per-CPU run queues,
    round robin on E cores, oldest process first on P cores, push balancing, sleep, wakeup, exit
    and kill. Every event is a section under ptable.lock; a run is any sequence of them. */
module Scheduler {
  import opened Collections

  const NPROC := 64
  const RR_QUANTUM_TICKS := 3

  datatype ProcState = Unused | Embryo | Sleeping | Runnable | Running | Zombie

  datatype Proc = Proc(state: ProcState, pid: nat, ctime: nat, slice: nat, chan: nat, killed: bool)

  datatype Core = ECore | PCore

  datatype Cpu = Cpu(core: Core, queue: seq<nat>, proc: Option<nat>)

  /** Processes are named by their slot in ptable.proc. The last three fields are history: the CPU
      whose queue holds a slot, the CPU that runs it, and the slots kill() took out of sleep. */
  datatype Sched = Sched(
    cpus: seq<Cpu>, procs: seq<Proc>, nextpid: nat,
    home: seq<Option<nat>>, on: seq<Option<nat>>, orphans: set<nat>)

  // ----- choosing a core and a process --------------------------------------------------------

  /** get_least_loaded_e_core's scan from cpu i on, with the best so far. */
  function ScanCores(cpus: seq<Cpu>, core: Core, best: Option<nat>, i: nat): (r: Option<nat>)
    requires i <= |cpus| && (best.Some? ==> best.value < i)
    ensures r.Some? ==> r.value < |cpus|
    decreases |cpus| - i
  {
    if i == |cpus| then best
    else
      var better := cpus[i].core == core && (best.None? || |cpus[i].queue| < |cpus[best.value].queue|);
      ScanCores(cpus, core, if better then Some(i) else best, i + 1)
  }

  /** c is the first least loaded core of its kind. */
  predicate IsLightest(cpus: seq<Cpu>, core: Core, c: nat)
  {
    && c < |cpus| && cpus[c].core == core
    && (forall d :: 0 <= d < |cpus| && cpus[d].core == core ==> |cpus[c].queue| <= |cpus[d].queue|)
    && (forall d :: 0 <= d < c && cpus[d].core == core ==> |cpus[c].queue| < |cpus[d].queue|)
  }

  lemma {:induction false} ScanFindsLightest(cpus: seq<Cpu>, core: Core, best: Option<nat>, i: nat)
    requires i <= |cpus| && (best.Some? ==> best.value < i)
    requires match best
             case None => forall d :: 0 <= d < i ==> cpus[d].core != core
             case Some(b) => IsLightest(cpus[..i], core, b)
    ensures match ScanCores(cpus, core, best, i)
            case None => forall d :: 0 <= d < |cpus| ==> cpus[d].core != core
            case Some(c) => IsLightest(cpus, core, c)
    decreases |cpus| - i
  {
    if i < |cpus| {
      var better := cpus[i].core == core && (best.None? || |cpus[i].queue| < |cpus[best.value].queue|);
      assert cpus[..i + 1] == cpus[..i] + [cpus[i]];
      ScanFindsLightest(cpus, core, if better then Some(i) else best, i + 1);
    } else {
      assert cpus[..i] == cpus;
    }
  }

  /** get_least_loaded_e_core; cpus[0] if there is no E core. */
  function LeastLoadedE(cpus: seq<Cpu>): (c: nat)
    requires |cpus| > 0
    ensures c < |cpus|
  {
    match ScanCores(cpus, ECore, None, 0)
    case Some(c) => c
    case None => 0
  }

  /** get_lightest_p_core */
  function LightestP(cpus: seq<Cpu>): (c: Option<nat>)
    ensures c.Some? ==> c.value < |cpus|
  {
    ScanCores(cpus, PCore, None, 0)
  }

  lemma CoreChoices(cpus: seq<Cpu>)
    requires |cpus| > 0 && cpus[0].core == ECore
    ensures IsLightest(cpus, ECore, LeastLoadedE(cpus))
    ensures LightestP(cpus).Some? ==> IsLightest(cpus, PCore, LightestP(cpus).value)
    ensures LightestP(cpus).None? ==> forall d :: 0 <= d < |cpus| ==> cpus[d].core == ECore
  {
    ScanFindsLightest(cpus, ECore, None, 0);
    ScanFindsLightest(cpus, PCore, None, 0);
  }

  /** First RUNNABLE process of a queue: any pid for round robin, only pids above 2 for the
      balancer's victim. */
  function FirstRunnable(procs: seq<Proc>, queue: seq<nat>, anyPid: bool): (r: Option<nat>)
    requires AllBelow(queue, |procs|)
    ensures r.Some? ==> r.value in queue && procs[r.value].state == Runnable && (anyPid || procs[r.value].pid > 2)
  {
    if queue == [] then None
    else
      var p := procs[queue[0]];
      if p.state == Runnable && (anyPid || p.pid > 2) then Some(queue[0])
      else FirstRunnable(procs, queue[1..], anyPid)
  }

  /** The P-core scan: smallest ctime among RUNNABLE processes, the earliest queued on a tie. */
  function Oldest(procs: seq<Proc>, queue: seq<nat>, best: Option<nat>): (r: Option<nat>)
    requires AllBelow(queue, |procs|) && (best.Some? ==> best.value < |procs|)
    ensures r.Some? ==> r.value < |procs|
  {
    if queue == [] then best
    else
      var q := queue[0];
      var older := procs[q].state == Runnable && (best.None? || procs[q].ctime < procs[best.value].ctime);
      Oldest(procs, queue[1..], if older then Some(q) else best)
  }

  /** What the scheduler loop picks on a core. */
  function Pick(procs: seq<Proc>, cpu: Cpu): (r: Option<nat>)
    requires AllBelow(cpu.queue, |procs|)
  {
    if cpu.core == ECore then FirstRunnable(procs, cpu.queue, true) else Oldest(procs, cpu.queue, None)
  }

  // ----- queue operations ---------------------------------------------------------------------

  function Enqueue(s: Sched, c: nat, p: nat): (r: Sched)
    requires c < |s.cpus| && p < |s.home|
  {
    s.(cpus := s.cpus[c := s.cpus[c].(queue := s.cpus[c].queue + [p])], home := s.home[p := Some(c)])
  }

  function Dequeue(s: Sched, c: nat, p: nat): (r: Sched)
    requires c < |s.cpus| && p < |s.home| && p in s.cpus[c].queue
  {
    s.(cpus := s.cpus[c := s.cpus[c].(queue := Remove(s.cpus[c].queue, p))], home := s.home[p := None])
  }

  function SetProc(s: Sched, p: nat, x: Proc): (r: Sched)
    requires p < |s.procs|
  {
    s.(procs := s.procs[p := x])
  }

  /** Make p RUNNABLE and put it on the least loaded E core. */
  function Admit(s: Sched, p: nat): (r: Sched)
    requires p < |s.procs| && p < |s.home| && |s.cpus| > 0
  {
    Enqueue(SetProc(s, p, s.procs[p].(state := Runnable)), LeastLoadedE(s.cpus), p)
  }

  /** load_balance on cpu c: the victim, if anything is to be moved, and where to. */
  function BalanceMove(s: Sched, c: nat): (r: Option<(nat, nat)>)
    requires c < |s.cpus| && AllBelow(s.cpus[c].queue, |s.procs|)
    ensures r.Some? ==> r.value.0 in s.cpus[c].queue && r.value.1 < |s.cpus|
  {
    if s.cpus[c].core != ECore then None
    else
      match LightestP(s.cpus)
      case None => None
      case Some(d) =>
        if |s.cpus[c].queue| < |s.cpus[d].queue| + 3 then None
        else
          match FirstRunnable(s.procs, s.cpus[c].queue, false)
          case None => None
          case Some(v) => Some((v, d))
  }

  function Balance(s: Sched, c: nat): (r: Sched)
    requires Shape(s) && c < |s.cpus| && AllBelow(s.cpus[c].queue, NPROC)
  {
    match BalanceMove(s, c)
    case None => s
    case Some((v, d)) => Enqueue(Dequeue(s, c, v), d, v)
  }

  /** wakeup1's loop over ptable from slot i on. */
  function Wakeup(s: Sched, chan: nat, i: nat): (r: Sched)
    requires Shape(s) && i <= NPROC
    ensures Shape(r) && |r.cpus| == |s.cpus|
    decreases NPROC - i
  {
    if i == NPROC then s
    else if s.procs[i].state == Sleeping && s.procs[i].chan == chan then Wakeup(Admit(s, i), chan, i + 1)
    else Wakeup(s, chan, i + 1)
  }

  /** yield() by the process on cpu c. */
  function YieldOn(s: Sched, c: nat): (r: Sched)
    requires c < |s.cpus| && s.cpus[c].proc.Some? && s.cpus[c].proc.value < |s.procs| == |s.home| == |s.on|
  {
    var p := s.cpus[c].proc.value;
    Enqueue(Depart(s, c, s.procs[p].(state := Runnable)), c, p)
  }

  /** The process on cpu c changes to x and returns to the scheduler, which clears c->proc. */
  function Depart(s: Sched, c: nat, x: Proc): (r: Sched)
    requires c < |s.cpus| && s.cpus[c].proc.Some? && s.cpus[c].proc.value < |s.procs| == |s.on|
  {
    var p := s.cpus[c].proc.value;
    SetProc(s, p, x).(cpus := s.cpus[c := s.cpus[c].(proc := None)], on := s.on[p := None])
  }

  // ----- events -------------------------------------------------------------------------------

  datatype Event =
    | Alloc(p: nat, ticks: nat)       // allocproc takes slot p
    | AllocFail(p: nat)               // out of memory: the slot is given back
    | Start(p: nat)                   // fork or userinit makes the new process RUNNABLE
    | Schedule(c: nat, balance: bool) // scheduler(): balance on a multiple of 5 ticks, then pick and run
    | Tick(c: nat)                    // timer trap on cpu c
    | Sleep(c: nat, chan: nat)        // sleep() by the process on cpu c
    | WakeAll(chan: nat)              // wakeup(chan)
    | Exit(c: nat)                    // exit() by the process on cpu c
    | Reap(p: nat)                    // wait() collects a zombie
    | Kill(p: nat)

  predicate Shape(s: Sched)
  {
    && |s.procs| == |s.home| == |s.on| == NPROC && |s.cpus| > 0 && s.cpus[0].core == ECore
  }

  predicate HasProc(s: Sched, c: nat)
  {
    c < |s.cpus| && s.cpus[c].proc.Some? && s.cpus[c].proc.value < NPROC
  }

  predicate Enabled(s: Sched, e: Event)
    requires Shape(s)
  {
    match e
    case Alloc(p, _) => p < NPROC && s.procs[p].state == Unused
    case AllocFail(p) => p < NPROC && s.procs[p].state == Embryo
    case Start(p) => p < NPROC && s.procs[p].state == Embryo
    case Schedule(c, _) => c < |s.cpus| && s.cpus[c].proc.None? && AllBelow(s.cpus[c].queue, NPROC)
    case Tick(c) => HasProc(s, c)
    case Sleep(c, _) => HasProc(s, c)
    case WakeAll(_) => true
    case Exit(c) => HasProc(s, c)
    case Reap(p) => p < NPROC && s.procs[p].state == Zombie
    case Kill(p) => p < NPROC
  }

  /** Pick and dequeue a process and switch to it. */
  function RunNext(s: Sched, c: nat): (r: Sched)
    requires Shape(s) && c < |s.cpus| && AllBelow(s.cpus[c].queue, NPROC)
  {
    match Pick(s.procs, s.cpus[c])
    case None => s
    case Some(p) =>
      if p !in s.cpus[c].queue then s     // dequeue() failed
      else
        var s1 := Dequeue(s, c, p);
        SetProc(s1, p, s1.procs[p].(state := Running, slice := 0))
          .(cpus := s1.cpus[c := s1.cpus[c].(proc := Some(p))], on := s1.on[p := Some(c)])
  }

  function TimerTrap(s: Sched, c: nat): (r: Sched)
    requires Shape(s) && HasProc(s, c)
  {
    var p := s.cpus[c].proc.value;
    var slice := s.procs[p].slice + 1;
    if s.cpus[c].core == PCore then YieldOn(SetProc(s, p, s.procs[p].(slice := slice)), c)
    else if slice >= RR_QUANTUM_TICKS then YieldOn(SetProc(s, p, s.procs[p].(slice := 0)), c)
    else SetProc(s, p, s.procs[p].(slice := slice))
  }

  function Step(s: Sched, e: Event): (r: Sched)
    requires Shape(s) && Enabled(s, e)
  {
    match e
    case Alloc(p, ticks) =>
      SetProc(s, p,
        s.procs[p].(state := Embryo, pid := s.nextpid, ctime := ticks, slice := 0)).(nextpid := s.nextpid + 1)
    case AllocFail(p) => SetProc(s, p, s.procs[p].(state := Unused))
    case Start(p) => Admit(s, p)
    case Schedule(c, balance) =>
      var s1 := if balance then Balance(s, c) else s;
      if AllBelow(s1.cpus[c].queue, NPROC) then RunNext(s1, c) else s1
    case Tick(c) => TimerTrap(s, c)
    case Sleep(c, chan) => Depart(s, c, s.procs[s.cpus[c].proc.value].(state := Sleeping, chan := chan))
    case WakeAll(chan) => Wakeup(s, chan, 0)
    case Exit(c) => Depart(s, c, s.procs[s.cpus[c].proc.value].(state := Zombie))
    case Reap(p) => SetProc(s, p, s.procs[p].(state := Unused, pid := 0, killed := false))
    case Kill(p) =>
      if s.procs[p].state == Sleeping then
        SetProc(s, p, s.procs[p].(killed := true, state := Runnable)).(orphans := s.orphans + {p})
      else SetProc(s, p, s.procs[p].(killed := true))
  }

  // ----- the invariant ------------------------------------------------------------------------

  predicate QueueOk(s: Sched, c: nat)
    requires Shape(s) && c < |s.cpus|
  {
    && AllBelow(s.cpus[c].queue, NPROC) && Distinct(s.cpus[c].queue)
    && (forall k :: 0 <= k < |s.cpus[c].queue| ==> s.home[s.cpus[c].queue[k]] == Some(c))
  }

  /** What a slot's state, queue and CPU have to do with each other. */
  predicate SlotOk(s: Sched, p: nat)
    requires Shape(s) && p < NPROC
  {
    var x := s.procs[p];
    && (s.home[p].Some? ==> s.home[p].value < |s.cpus| && p in s.cpus[s.home[p].value].queue)
    && (s.on[p].Some? ==> s.on[p].value < |s.cpus| && s.cpus[s.on[p].value].proc == Some(p))
    && (x.state == Runnable <==> s.home[p].Some? || p in s.orphans)
    && (x.state == Running <==> s.on[p].Some?)
    && !(s.home[p].Some? && p in s.orphans)
    && (x.state != Unused ==> x.pid > 0)
    && (s.home[p].Some? && s.cpus[s.home[p].value].core == PCore ==> x.pid > 2)
    && (s.on[p].Some? && s.cpus[s.on[p].value].core == PCore ==> x.pid > 2)
    && (s.on[p].Some? && s.cpus[s.on[p].value].core == ECore ==> x.slice < RR_QUANTUM_TICKS)
  }

  predicate CpuOk(s: Sched, c: nat)
    requires Shape(s) && c < |s.cpus|
  {
    QueueOk(s, c) && (s.cpus[c].proc.Some? ==> s.cpus[c].proc.value < NPROC && s.on[s.cpus[c].proc.value] == Some(c))
  }

  ghost predicate Inv(s: Sched)
  {
    && Shape(s) && s.nextpid > 0
    && (forall c :: 0 <= c < |s.cpus| ==> CpuOk(s, c))
    && (forall p :: 0 <= p < NPROC ==> SlotOk(s, p))
  }

  /** Before userinit: nothing allocated, empty queues. */
  predicate Boot(s: Sched)
  {
    && Shape(s) && s.nextpid == 1 && s.orphans == {}
    && (forall c :: 0 <= c < |s.cpus| ==> s.cpus[c].queue == [] && s.cpus[c].proc == None)
    && (forall p :: 0 <= p < NPROC ==> s.procs[p].state == Unused && s.home[p] == None && s.on[p] == None)
  }

  /** Changing one slot's record, with nothing about its place in queues or CPUs at stake. */
  lemma SetProcInv(s: Sched, p: nat, x: Proc)
    requires Inv(s) && p < NPROC && SlotOk(SetProc(s, p, x), p)
    ensures Inv(SetProc(s, p, x))
  {
    var s' := SetProc(s, p, x);
    forall c | 0 <= c < |s'.cpus| ensures CpuOk(s', c) { assert CpuOk(s, c); }
    forall q | 0 <= q < NPROC ensures SlotOk(s', q) { assert SlotOk(s, q); }
  }

  /** A process that is nowhere joins a queue. */
  lemma EnqueueInv(s: Sched, c: nat, p: nat, x: Proc)
    requires Inv(s) && c < |s.cpus| && p < NPROC && s.home[p] == None && s.on[p] == None && p !in s.orphans
    requires x.state == Runnable && x.pid > 0 && (s.cpus[c].core == PCore ==> x.pid > 2)
    ensures Inv(Enqueue(SetProc(s, p, x), c, p))
  {
    var s' := Enqueue(SetProc(s, p, x), c, p);
    assert CpuOk(s, c) && p !in s.cpus[c].queue;
    forall d | 0 <= d < |s'.cpus| ensures CpuOk(s', d) { assert CpuOk(s, d); }
    forall q | 0 <= q < NPROC ensures SlotOk(s', q) { assert SlotOk(s, q); }
  }

  /** Out of the queue and, for the moment, in no scheduling state at all. */
  function Detached(x: Proc): (r: Proc) { x.(state := Embryo) }

  lemma DequeueInv(s: Sched, c: nat, p: nat)
    requires Inv(s) && c < |s.cpus| && p in s.cpus[c].queue
    ensures p < NPROC && s.home[p] == Some(c) && s.on[p] == None && p !in s.orphans && s.procs[p].state == Runnable
    ensures s.procs[p].pid > 0
    ensures Inv(SetProc(Dequeue(s, c, p), p, Detached(s.procs[p])))
  {
    assert CpuOk(s, c);
    var m := IndexOf(s.cpus[c].queue, p);
    assert SlotOk(s, p);
    var s' := SetProc(Dequeue(s, c, p), p, Detached(s.procs[p]));
    forall d | 0 <= d < |s.cpus|
      ensures CpuOk(s', d)
    {
      assert CpuOk(s, d);
      assert d == c ==> p !in s'.cpus[d].queue;
      assert d != c ==> p !in s'.cpus[d].queue;
    }
    forall q | 0 <= q < NPROC
      ensures SlotOk(s', q)
    {
      assert SlotOk(s, q);
      if s.home[q] == Some(c) && q != p {
        var k := IndexOf(s.cpus[c].queue, q);
        assert Remove(s.cpus[c].queue, p)[if k < m then k else k - 1] == q;
      }
    }
  }

  /** The process on cpu c gives it up. */
  lemma DepartInv(s: Sched, c: nat, x: Proc)
    requires Inv(s) && HasProc(s, c) && (x.state == Sleeping || x.state == Zombie || x.state == Embryo)
    requires x.pid == s.procs[s.cpus[c].proc.value].pid
    ensures Inv(Depart(s, c, x))
  {
    var p := s.cpus[c].proc.value;
    var s' := Depart(s, c, x);
    assert CpuOk(s, c) && SlotOk(s, p);
    forall d | 0 <= d < |s.cpus| ensures CpuOk(s', d) { assert CpuOk(s, d); }
    forall q | 0 <= q < NPROC ensures SlotOk(s', q) { assert SlotOk(s, q); }
  }

  lemma YieldInv(s: Sched, c: nat)
    requires Inv(s) && HasProc(s, c)
    ensures Inv(YieldOn(s, c))
  {
    var p := s.cpus[c].proc.value;
    assert CpuOk(s, c) && SlotOk(s, p);
    var s1 := Depart(s, c, Detached(s.procs[p]));
    DepartInv(s, c, Detached(s.procs[p]));
    EnqueueInv(s1, c, p, s.procs[p].(state := Runnable));
    assert YieldOn(s, c) == Enqueue(SetProc(s1, p, s.procs[p].(state := Runnable)), c, p);
  }

  lemma TimerInv(s: Sched, c: nat)
    requires Inv(s) && HasProc(s, c)
    ensures Inv(TimerTrap(s, c))
  {
    var p := s.cpus[c].proc.value;
    assert CpuOk(s, c) && SlotOk(s, p);
    var slice := s.procs[p].slice + 1;
    if s.cpus[c].core == PCore {
      SetProcInv(s, p, s.procs[p].(slice := slice));
      YieldInv(SetProc(s, p, s.procs[p].(slice := slice)), c);
    } else if slice >= RR_QUANTUM_TICKS {
      SetProcInv(s, p, s.procs[p].(slice := 0));
      YieldInv(SetProc(s, p, s.procs[p].(slice := 0)), c);
    } else {
      SetProcInv(s, p, s.procs[p].(slice := slice));
    }
  }

  lemma AdmitInv(s: Sched, p: nat)
    requires Inv(s) && p < NPROC && (s.procs[p].state == Embryo || s.procs[p].state == Sleeping)
    ensures Inv(Admit(s, p))
  {
    assert SlotOk(s, p);
    CoreChoices(s.cpus);
    EnqueueInv(s, LeastLoadedE(s.cpus), p, s.procs[p].(state := Runnable));
  }

  lemma {:induction false} WakeupInv(s: Sched, chan: nat, i: nat)
    requires Inv(s) && i <= NPROC
    ensures Inv(Wakeup(s, chan, i))
    decreases NPROC - i
  {
    if i < NPROC {
      if s.procs[i].state == Sleeping && s.procs[i].chan == chan {
        AdmitInv(s, i);
        WakeupInv(Admit(s, i), chan, i + 1);
      } else {
        WakeupInv(s, chan, i + 1);
      }
    }
  }

  lemma BalanceInv(s: Sched, c: nat)
    requires Inv(s) && c < |s.cpus| && AllBelow(s.cpus[c].queue, NPROC)
    ensures Inv(Balance(s, c))
  {
    match BalanceMove(s, c)
    case None =>
    case Some((v, d)) =>
      DequeueInv(s, c, v);
      var x := s.procs[v];
      var s1 := SetProc(Dequeue(s, c, v), v, Detached(x));
      EnqueueInv(s1, d, v, x);
      assert Balance(s, c) == Enqueue(SetProc(s1, v, x), d, v);
  }

  lemma {:induction false} OldestChosen(procs: seq<Proc>, queue: seq<nat>, best: Option<nat>)
    requires AllBelow(queue, |procs|) && (best.Some? ==> best.value < |procs|)
    ensures var r := Oldest(procs, queue, best);
            && (r.Some? ==> r == best || (r.value in queue && procs[r.value].state == Runnable))
            && (best.Some? ==> r.Some? && procs[r.value].ctime <= procs[best.value].ctime)
            && (forall k :: 0 <= k < |queue| && procs[queue[k]].state == Runnable ==>
                  r.Some? && procs[r.value].ctime <= procs[queue[k]].ctime)
  {
    if queue != [] {
      var q := queue[0];
      var older := procs[q].state == Runnable && (best.None? || procs[q].ctime < procs[best.value].ctime);
      OldestChosen(procs, queue[1..], if older then Some(q) else best);
    }
  }

  /** What the scheduler picks is queued and RUNNABLE: its failed-dequeue branch is dead. */
  lemma PickQueued(procs: seq<Proc>, cpu: Cpu)
    requires AllBelow(cpu.queue, |procs|) && Pick(procs, cpu).Some?
    ensures Pick(procs, cpu).value in cpu.queue && procs[Pick(procs, cpu).value].state == Runnable
  {
    OldestChosen(procs, cpu.queue, None);
  }

  lemma RunNextInv(s: Sched, c: nat)
    requires Inv(s) && c < |s.cpus| && s.cpus[c].proc.None? && AllBelow(s.cpus[c].queue, NPROC)
    ensures Inv(RunNext(s, c))
  {
    match Pick(s.procs, s.cpus[c])
    case None =>
    case Some(p) =>
      PickQueued(s.procs, s.cpus[c]);
      DequeueInv(s, c, p);
      assert SlotOk(s, p);
      var s1 := SetProc(Dequeue(s, c, p), p, Detached(s.procs[p]));
      var s' := RunNext(s, c);
      forall d | 0 <= d < |s.cpus| ensures CpuOk(s', d) { assert CpuOk(s1, d); }
      forall q | 0 <= q < NPROC ensures SlotOk(s', q) { assert SlotOk(s1, q); }
  }

  lemma ScheduleInv(s: Sched, c: nat, balance: bool)
    requires Inv(s) && Enabled(s, Schedule(c, balance))
    ensures Inv(Step(s, Schedule(c, balance)))
  {
    var s1 := if balance then Balance(s, c) else s;
    BalanceInv(s, c);
    assert CpuOk(s1, c) && s1.cpus[c].proc.None?;
    RunNextInv(s1, c);
  }

  lemma KillInv(s: Sched, p: nat)
    requires Inv(s) && p < NPROC
    ensures Inv(Step(s, Kill(p)))
  {
    var s' := Step(s, Kill(p));
    assert SlotOk(s, p);
    forall c | 0 <= c < |s'.cpus| ensures CpuOk(s', c) { assert CpuOk(s, c); }
    forall q | 0 <= q < NPROC ensures SlotOk(s', q) { assert SlotOk(s, q); }
  }

  lemma StepInv(s: Sched, e: Event)
    requires Inv(s) && Enabled(s, e)
    ensures Inv(Step(s, e))
  {
    match e
    case Alloc(p, ticks) =>
      assert SlotOk(s, p);
      SetProcInv(s, p, s.procs[p].(state := Embryo, pid := s.nextpid, ctime := ticks, slice := 0));
      NextPidInv(SetProc(s, p, s.procs[p].(state := Embryo, pid := s.nextpid, ctime := ticks, slice := 0)));
    case AllocFail(p) =>
      assert SlotOk(s, p);
      SetProcInv(s, p, s.procs[p].(state := Unused));
    case Start(p) => AdmitInv(s, p);
    case Schedule(c, balance) => ScheduleInv(s, c, balance);
    case Tick(c) => TimerInv(s, c);
    case Sleep(c, chan) => DepartInv(s, c, s.procs[s.cpus[c].proc.value].(state := Sleeping, chan := chan));
    case WakeAll(chan) => WakeupInv(s, chan, 0);
    case Exit(c) => DepartInv(s, c, s.procs[s.cpus[c].proc.value].(state := Zombie));
    case Reap(p) =>
      assert SlotOk(s, p);
      SetProcInv(s, p, s.procs[p].(state := Unused, pid := 0, killed := false));
    case Kill(p) => KillInv(s, p);
  }

  lemma NextPidInv(s: Sched)
    requires Inv(s)
    ensures Inv(s.(nextpid := s.nextpid + 1))
  {
    var s' := s.(nextpid := s.nextpid + 1);
    forall c | 0 <= c < |s'.cpus| ensures CpuOk(s', c) { assert CpuOk(s, c); }
    forall q | 0 <= q < NPROC ensures SlotOk(s', q) { assert SlotOk(s, q); }
  }

  // ----- runs ---------------------------------------------------------------------------------

  /** The state after a run, if every event of it was enabled when it happened. */
  ghost function Exec(s: Sched, run: seq<Event>): (r: Option<Sched>)
    decreases run
  {
    if run == [] then Some(s)
    else if Shape(s) && Enabled(s, run[0]) then Exec(Step(s, run[0]), run[1..])
    else None
  }

  lemma {:induction false} RunInv(s: Sched, run: seq<Event>)
    requires Inv(s) && Exec(s, run).Some?
    ensures Inv(Exec(s, run).value)
    decreases run
  {
    if run != [] {
      StepInv(s, run[0]);
      RunInv(Step(s, run[0]), run[1..]);
    }
  }
}

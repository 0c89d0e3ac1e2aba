/** Admission control of the log (begin_op, end_op, log_write) as a monitor program: how much log
    space concurrent operations can use, and which per-operation budget rules out the panic in
    log_write. */
module LogAdmission {
  import opened Collections
  import opened Monitor

  const MAXOPBLOCKS := 10
  const LOGSIZE := 30        // MAXOPBLOCKS * 3
  const LOG_AREA := 30       // log.size: mkfs makes the log LOGSIZE blocks long, header included

  /** FinishCommit is the tail of end_op after commit(): clear the header, drop `committing`. */
  datatype LogOp = BeginOp | LogWrite(b: nat) | EndOp | FinishCommit

  /** `blocks` is lh.block[..lh.n]. `ops` records the operations between begin_op and end_op with
      the distinct blocks each has logged; `committer` the process inside commit(). */
  datatype LogState = LogState(
    outstanding: int, committing: bool, blocks: seq<nat>,
    ops: map<Pid, set<nat>>, committer: Option<Pid>)

  const INIT := LogState(0, false, [], map[], None)

  /** Operations follow the begin/end bracket and log at most `budget` distinct blocks each. */
  predicate May(budget: nat, op: LogOp, p: Pid, s: LogState)
  {
    match op
    case BeginOp => p !in s.ops && s.committer != Some(p)
    case LogWrite(b) => p in s.ops && |s.ops[p] + {b}| <= budget
    case EndOp => p in s.ops
    case FinishCommit => s.committer == Some(p)
  }

  predicate Waits(op: LogOp, p: Pid, s: LogState)
  {
    op.BeginOp? && (s.committing || |s.blocks| + (s.outstanding + 1) * MAXOPBLOCKS > LOGSIZE)
  }

  predicate Panics(op: LogOp, p: Pid, s: LogState)
  {
    match op
    case BeginOp => false
    case LogWrite(_) => |s.blocks| >= LOGSIZE || |s.blocks| >= LOG_AREA - 1 || s.outstanding < 1
    case EndOp => s.committing
    case FinishCommit => false
  }

  function Effect(op: LogOp, p: Pid, s: LogState): (r: LogState)
  {
    match op
    case BeginOp => s.(outstanding := s.outstanding + 1, ops := s.ops[p := {}])
    case LogWrite(b) =>
      s.(blocks := if b in s.blocks then s.blocks else s.blocks + [b],
         ops := if p in s.ops then s.ops[p := s.ops[p] + {b}] else s.ops)
    case EndOp =>
      var s1 := s.(outstanding := s.outstanding - 1, ops := s.ops - {p});
      if s1.outstanding == 0 then s1.(committing := true, committer := Some(p)) else s1
    case FinishCommit => s.(committing := false, committer := None, blocks := [])
  }

  predicate Wakes(op: LogOp, p: Pid, s: LogState)
  {
    op.FinishCommit? || (op.EndOp? && s.outstanding - 1 != 0)
  }

  function LogProgram(budget: nat): (g: Program<LogState, LogOp>)
  {
    Program((op, p, s) => May(budget, op, p, s), Waits, Panics, Effect, Wakes)
  }

  // ----- the space invariant ------------------------------------------------------------------

  /** Distinct blocks logged so far by the operations in progress. */
  ghost function Spent(ops: map<Pid, set<nat>>): (n: nat)
    decreases |ops|
  {
    if ops == map[] then 0
    else
      var p :| p in ops;
      assert |ops - {p}| < |ops| by { RestSize(ops, p); }
      |ops[p]| + Spent(ops - {p})
  }

  lemma RestSize(ops: map<Pid, set<nat>>, p: Pid)
    requires p in ops
    ensures |ops - {p}| == |ops| - 1
  {
    assert (ops - {p}).Keys == ops.Keys - {p};
    assert |ops.Keys - {p}| == |ops.Keys| - 1;
    assert |ops| == |ops.Keys| && |ops - {p}| == |(ops - {p}).Keys|;
  }

  /** Spent does not depend on which operation is counted first. */
  lemma {:induction false} SpentSplit(ops: map<Pid, set<nat>>, p: Pid)
    requires p in ops
    ensures Spent(ops) == |ops[p]| + Spent(ops - {p})
    decreases |ops|
  {
    var q :| q in ops && Spent(ops) == |ops[q]| + Spent(ops - {q});
    if q != p {
      RestSize(ops, q);
      RestSize(ops, p);
      SpentSplit(ops - {q}, p);
      SpentSplit(ops - {p}, q);
      assert (ops - {q}) - {p} == (ops - {p}) - {q};
    }
  }

  lemma SpentSet(ops: map<Pid, set<nat>>, p: Pid, bs: set<nat>)
    ensures Spent(ops[p := bs]) == |bs| + Spent(ops - {p})
  {
    SpentSplit(ops[p := bs], p);
    assert ops[p := bs] - {p} == ops - {p};
  }

  lemma {:induction false} SpentBound(ops: map<Pid, set<nat>>, budget: nat)
    requires forall p :: p in ops ==> |ops[p]| <= budget
    ensures Spent(ops) <= budget * |ops|
    decreases |ops|
  {
    if ops != map[] {
      var p :| p in ops;
      RestSize(ops, p);
      SpentSplit(ops, p);
      SpentBound(ops - {p}, budget);
      assert budget * |ops| == budget * |ops - {p}| + budget;
    }
  }

  /** Bookkeeping that holds under any budget. */
  predicate Books(budget: nat, s: LogState)
  {
    && s.outstanding == |s.ops|
    && (s.committing <==> s.committer.Some?)
    && (s.committing ==> s.ops == map[])
    && (s.ops == map[] && !s.committing ==> s.blocks == [])
    && Distinct(s.blocks)
    && (forall p :: p in s.ops ==> |s.ops[p]| <= budget && forall b :: b in s.ops[p] ==> b in s.blocks)
  }

  /** Blocks in the log plus the unspent nominal budgets of the operations in progress fit. */
  ghost predicate Reserved(s: LogState)
  {
    |s.blocks| + MAXOPBLOCKS * |s.ops| - Spent(s.ops) <= LOGSIZE
  }

  /** With one block less per operation there is always a spare block below the panic. */
  ghost predicate Spare(s: LogState)
  {
    |s.blocks| + (MAXOPBLOCKS - 1) * |s.ops| - Spent(s.ops) <= LOG_AREA - 2
  }

  ghost predicate LogInv(budget: nat, s: LogState)
  {
    Books(budget, s) && (budget <= MAXOPBLOCKS ==> Reserved(s)) && (budget < MAXOPBLOCKS ==> Spare(s))
  }

  /** One operation happens in full: the atomic view of a step past the wait loop. */
  predicate FiresOp(budget: nat, op: LogOp, p: Pid, s: LogState)
  {
    May(budget, op, p, s) && !Waits(op, p, s) && !Panics(op, p, s)
  }

  lemma SizeOfMap(ops: map<Pid, set<nat>>, p: Pid, bs: set<nat>)
    ensures |ops[p := bs]| == if p in ops then |ops| else |ops| + 1
    ensures p !in ops ==> ops - {p} == ops
  {
    assert ops[p := bs].Keys == ops.Keys + {p};
    assert |ops[p := bs]| == |ops[p := bs].Keys| && |ops| == |ops.Keys|;
  }

  lemma BeginKeeps(budget: nat, p: Pid, s: LogState)
    requires LogInv(budget, s) && FiresOp(budget, BeginOp, p, s)
    ensures LogInv(budget, Effect(BeginOp, p, s))
  {
    SizeOfMap(s.ops, p, {});
    SpentSet(s.ops, p, {});
  }

  lemma WriteKeeps(budget: nat, p: Pid, b: nat, s: LogState)
    requires LogInv(budget, s) && FiresOp(budget, LogWrite(b), p, s)
    ensures LogInv(budget, Effect(LogWrite(b), p, s))
  {
    SizeOfMap(s.ops, p, s.ops[p] + {b});
    SpentSet(s.ops, p, s.ops[p] + {b});
    SpentSplit(s.ops, p);
    assert b in s.ops[p] ==> s.ops[p] + {b} == s.ops[p];
    assert b !in s.ops[p] ==> |s.ops[p] + {b}| == |s.ops[p]| + 1;
  }

  lemma EndKeeps(budget: nat, p: Pid, s: LogState)
    requires LogInv(budget, s) && FiresOp(budget, EndOp, p, s)
    ensures LogInv(budget, Effect(EndOp, p, s))
  {
    RestSize(s.ops, p);
    SpentSplit(s.ops, p);
    assert |s.ops - {p}| == 0 ==> s.ops - {p} == map[];
  }

  lemma FireKeeps(budget: nat, op: LogOp, p: Pid, s: LogState)
    requires LogInv(budget, s) && FiresOp(budget, op, p, s)
    ensures LogInv(budget, Effect(op, p, s))
  {
    match op
    case BeginOp => BeginKeeps(budget, p, s);
    case LogWrite(b) => WriteKeeps(budget, p, b, s);
    case EndOp => EndKeeps(budget, p, s);
    case FinishCommit =>
  }

  /** Under a budget below MAXOPBLOCKS, no call that keeps to the bracket can panic. */
  lemma NoPanic(budget: nat, op: LogOp, p: Pid, s: LogState)
    requires budget < MAXOPBLOCKS && LogInv(budget, s) && May(budget, op, p, s)
    ensures !Panics(op, p, s)
  {
    if op.LogWrite? {
      SpentBound(s.ops, MAXOPBLOCKS - 1);
      RestSize(s.ops, p);
    }
  }

  lemma OthersUndisturbed(budget: nat, op: LogOp, p: Pid, s: LogState, o: LogOp, q: Pid)
    requires Books(budget, s) && FiresOp(budget, op, p, s) && q != p && May(budget, o, q, s)
    ensures May(budget, o, q, Effect(op, p, s))
    ensures Waits(o, q, s) && !Wakes(op, p, s) ==> Waits(o, q, Effect(op, p, s))
  {
  }

  lemma AdmissionDisciplined(budget: nat)
    ensures Disciplined(LogProgram(budget), s => LogInv(budget, s))
    ensures budget < MAXOPBLOCKS ==> Calm(LogProgram(budget), s => LogInv(budget, s))
  {
    var g := LogProgram(budget);
    forall op, p, s, o, q | LogInv(budget, s) && Fires(g, op, p, s) && q != p && g.may(o, q, s)
      ensures Undisturbed(g, op, p, s, o, q)
    {
      OthersUndisturbed(budget, op, p, s, o, q);
    }
    forall op, p, s | LogInv(budget, s) && Fires(g, op, p, s)
      ensures LogInv(budget, g.effect(op, p, s))
    {
      FireKeeps(budget, op, p, s);
    }
    forall op, p, s | budget < MAXOPBLOCKS && LogInv(budget, s) && g.may(op, p, s) && !g.guard(op, p, s)
      ensures !g.panics(op, p, s)
    {
      NoPanic(budget, op, p, s);
    }
  }

  /** For every interleaving and any number of processes: the header lists each block once, nothing
      is outstanding during a commit, reserved space fits, a process asleep in begin_op has an
      operation or a commit in progress that will wake it; and with a budget below MAXOPBLOCKS
      nobody ever panics. */
  lemma AdmissionSafety(budget: nat, run: seq<State<LogState, LogOp>>, q: Pid)
    requires Run(LogProgram(budget), run) && run[0].s == INIT && q in run[|run| - 1].pc
    ensures var st := run[|run| - 1]; var s := st.s;
            && Distinct(s.blocks) && s.outstanding == |s.ops| && (s.committing ==> s.outstanding == 0)
            && (budget <= MAXOPBLOCKS ==> |s.blocks| + MAXOPBLOCKS * s.outstanding - Spent(s.ops) <= LOGSIZE)
            && (st.lk == None && st.pc[q].Asleep? ==> s.outstanding > 0 || s.committer.Some?)
            && (budget < MAXOPBLOCKS ==> !st.pc[q].Panicked? && |s.blocks| <= LOG_AREA - 2)
  {
    var g := LogProgram(budget);
    var inv := s => LogInv(budget, s);
    AdmissionDisciplined(budget);
    assert inv(INIT);
    NoLostWakeup(g, inv, run, q);
    if budget < MAXOPBLOCKS {
      RunCalm(g, inv, run, q);
      SpentBound(run[|run| - 1].s.ops, MAXOPBLOCKS - 1);
    }
  }

  /** log_write makes its checks before it takes the lock; while its operation is open they pass at
      every moment of every run. */
  lemma ChecksPassUnlocked(budget: nat, run: seq<State<LogState, LogOp>>, q: Pid, b: nat)
    requires budget < MAXOPBLOCKS && Run(LogProgram(budget), run) && run[0].s == INIT
    requires q in run[|run| - 1].pc && q in run[|run| - 1].s.ops
    ensures !Panics(LogWrite(b), q, run[|run| - 1].s)
  {
    AdmissionSafety(budget, run, q);
    RestSize(run[|run| - 1].s.ops, q);
  }

  // ----- the budget is exact ------------------------------------------------------------------

  type Trace = seq<State<LogState, LogOp>>

  /** Some interleaving of some processes, each logging at most budget blocks per operation, panics. */
  ghost predicate PanicReachable(budget: nat)
  {
    exists run: Trace, p :: PanicsAt(budget, run, p)
  }

  ghost predicate PanicsAt(budget: nat, run: Trace, p: Pid)
  {
    && Run(LogProgram(budget), run) && run[0].s == INIT
    && p in run[|run| - 1].pc && run[|run| - 1].pc[p].Panicked?
  }

  /** A run to state s with nobody in the monitor, among processes 1, 2 and 3. */
  ghost predicate Reaches(budget: nat, run: Trace, s: LogState)
  {
    && Run(LogProgram(budget), run) && run[0].s == INIT && AllOut(run[|run| - 1]) && run[|run| - 1].s == s
    && run[|run| - 1].pc.Keys == {1, 2, 3}
  }

  lemma Perform(budget: nat, run: Trace, s: LogState, op: LogOp, p: Pid) returns (run': Trace, s': LogState)
    requires Reaches(budget, run, s) && FiresOp(budget, op, p, s) && p in {1, 2, 3}
    ensures Reaches(budget, run', s') && s' == Effect(op, p, s)
  {
    assert p in run[|run| - 1].pc.Keys;
    run' := Completes(LogProgram(budget), run, p, op);
    s' := Effect(op, p, s);
  }

  /** Process p logs k new blocks from lo on. */
  lemma {:induction false} WriteSpan(budget: nat, run: Trace, s: LogState, p: Pid, lo: nat, k: nat)
    returns (run': Trace, s': LogState)
    requires Reaches(budget, run, s) && p in {1, 2, 3} && p in s.ops && s.ops[p] == {} && s.outstanding >= 1
    requires k <= budget && |s.blocks| + k < LOG_AREA && forall b :: b in s.blocks ==> b < lo
    ensures Reaches(budget, run', s')
    ensures p in s'.ops && s' == s.(blocks := s'.blocks, ops := s.ops[p := s'.ops[p]])
    ensures |s'.blocks| == |s.blocks| + k && forall b :: b in s'.blocks ==> b < lo + k
    ensures |s'.ops[p]| == k && forall b :: b in s'.ops[p] ==> lo <= b < lo + k
  {
    if k == 0 {
      run', s' := run, s;
    } else {
      var run1, s1 := WriteSpan(budget, run, s, p, lo, k - 1);
      var b := lo + k - 1;
      assert b !in s1.blocks && |s1.ops[p] + {b}| == k;
      run', s' := Perform(budget, run1, s1, LogWrite(b), p);
      assert s'.ops == s.ops[p := s1.ops[p] + {b}];
    }
  }

  lemma BeginRun(budget: nat) returns (run: Trace)
    ensures Reaches(budget, run, INIT)
  {
    run := [State(INIT, None, None, map[1 := Out, 2 := Out, 3 := Out])];
  }

  /** Process 2 logs ten blocks and ends, 3 logs ten more, 1 logs nine. */
  lemma FillLog(budget: nat) returns (run: Trace, s: LogState)
    requires budget >= MAXOPBLOCKS
    ensures Reaches(budget, run, s) && |s.blocks| == 29 && 1 in s.ops && |s.ops[1]| == 9
  {
    run := BeginRun(budget);
    s := INIT;
    run, s := Perform(budget, run, s, BeginOp, 1);
    run, s := Perform(budget, run, s, BeginOp, 2);
    run, s := WriteSpan(budget, run, s, 2, 0, 10);
    run, s := Perform(budget, run, s, EndOp, 2);
    run, s := Perform(budget, run, s, BeginOp, 3);
    run, s := WriteSpan(budget, run, s, 3, 10, 10);
    run, s := WriteSpan(budget, run, s, 1, 20, 9);
  }

  /** Three operations that each keep to the nominal budget fill the log, and the next log_write
      panics. */
  lemma NominalBudgetPanics(budget: nat) returns (run: Trace)
    requires budget >= MAXOPBLOCKS
    ensures PanicsAt(budget, run, 1)
  {
    var s: LogState;
    run, s := FillLog(budget);
    assert |s.ops[1] + {0}| <= 10 && 1 in run[|run| - 1].pc.Keys;
    run := Enters(LogProgram(budget), run, 1, LogWrite(0));
    var last := run[|run| - 1];
    RunMore(LogProgram(budget), run, last.(pc := last.pc[1 := Panicked(LogWrite(0))]), 1, LogWrite(0));
    run := run + [last.(pc := last.pc[1 := Panicked(LogWrite(0))])];
  }

  /** Over all interleavings of any processes, a panic in log_write or end_op is reachable exactly when
      operations may log MAXOPBLOCKS blocks each. */
  lemma BudgetExact(budget: nat)
    ensures PanicReachable(budget) <==> budget >= MAXOPBLOCKS
  {
    if budget >= MAXOPBLOCKS {
      var run := NominalBudgetPanics(budget);
    } else {
      forall run: Trace, p
        ensures !PanicsAt(budget, run, p)
      {
        if Run(LogProgram(budget), run) && run[0].s == INIT && p in run[|run| - 1].pc {
          AdmissionSafety(budget, run, p);
        }
      }
    }
  }
}

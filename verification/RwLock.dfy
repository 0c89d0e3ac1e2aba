/** rwlock.c as a monitor program. */
module RwLock {
  import opened Collections
  import opened Monitor

  datatype RwOp = AcquireRead | ReleaseRead | AcquireWrite | ReleaseWrite

  /** read_count, writer and writer_pid; `readers` and `inside` record who is past its acquire and
      not yet past its release. */
  datatype Rw = Rw(readCount: int, writer: bool, writerPid: nat, readers: multiset<Pid>, inside: Option<Pid>)

  const INIT := Rw(0, false, 0, multiset{}, None)

  /** Releases belong to those who acquired; anyone may try to acquire at any time. */
  predicate May(op: RwOp, p: Pid, s: Rw)
  {
    match op
    case AcquireRead => true
    case AcquireWrite => true
    case ReleaseRead => p in s.readers
    case ReleaseWrite => s.inside == Some(p)
  }

  predicate Waits(op: RwOp, p: Pid, s: Rw)
  {
    match op
    case AcquireRead => s.writer
    case AcquireWrite => s.writer || s.readCount > 0
    case ReleaseRead => false
    case ReleaseWrite => false
  }

  predicate Panics(op: RwOp, p: Pid, s: Rw)
  {
    match op
    case AcquireRead => false
    case AcquireWrite => false
    case ReleaseRead => s.readCount < 1
    case ReleaseWrite => !s.writer || s.writerPid != p
  }

  function Effect(op: RwOp, p: Pid, s: Rw): (r: Rw)
  {
    match op
    case AcquireRead => s.(readCount := s.readCount + 1, readers := s.readers + multiset{p})
    case AcquireWrite => s.(writer := true, writerPid := p, inside := Some(p))
    case ReleaseRead => s.(readCount := s.readCount - 1, readers := s.readers - multiset{p})
    case ReleaseWrite => s.(writer := false, writerPid := 0, inside := None)
  }

  predicate Wakes(op: RwOp, p: Pid, s: Rw)
  {
    match op
    case AcquireRead => false
    case AcquireWrite => false
    case ReleaseRead => s.readCount - 1 == 0
    case ReleaseWrite => true
  }

  const RW: Program<Rw, RwOp> := Program(May, Waits, Panics, Effect, Wakes)

  /** The counters describe exactly who is inside, and a writer inside is alone. */
  predicate Exclusive(s: Rw)
  {
    && s.readCount == |s.readers|
    && (s.writer <==> s.inside.Some?)
    && (s.writer ==> s.readers == multiset{} && s.inside == Some(s.writerPid))
  }

  lemma RwDisciplined()
    ensures Disciplined(RW, Exclusive) && Calm(RW, Exclusive)
  {
    forall op, p, s, o, q | Exclusive(s) && Fires(RW, op, p, s) && q != p && RW.may(o, q, s)
      ensures Undisturbed(RW, op, p, s, o, q)
    {
      assert Undisturbed(RW, op, p, s, o, q) by {
        assert o.ReleaseRead? ==> q in Effect(op, p, s).readers;
      }
    }
    forall op, p, s | Exclusive(s) && RW.may(op, p, s) && !RW.guard(op, p, s)
      ensures !RW.panics(op, p, s) && Exclusive(RW.effect(op, p, s))
    {
      assert op.ReleaseRead? ==> p in s.readers && s.readers != multiset{};
      assert op.ReleaseRead? ==> |s.readers - multiset{p}| == |s.readers| - 1;
    }
  }

  /** Exclusion and no lost wakeup, in every run with any number of processes. */
  lemma RwSafety(run: seq<State<Rw, RwOp>>, q: Pid)
    requires Run(RW, run) && run[0].s == INIT && q in run[|run| - 1].pc
    ensures var st := run[|run| - 1]; var pc := st.pc[q];
            && Exclusive(st.s) && !pc.Panicked?
            && (st.lk == None && pc == Asleep(AcquireRead) ==> st.s.writer)
            && (st.lk == None && pc == Asleep(AcquireWrite) ==> st.s.writer || st.s.readCount > 0)
            && (pc.Asleep? ==> pc.op.AcquireRead? || pc.op.AcquireWrite? || WakeComing(st))
  {
    RwDisciplined();
    NoLostWakeup(RW, Exclusive, run, q);
    RunCalm(RW, Exclusive, run, q);
  }

  /** The owner check: releasing the write lock panics for everybody but the writer inside. */
  lemma OwnerCheck(s: Rw, p: Pid)
    requires Exclusive(s)
    ensures Panics(ReleaseWrite, p, s) <==> s.inside != Some(p)
  {
  }
}

/** sleeplock.c as a monitor program. */
module SleepLock {
  import opened Collections
  import opened Monitor

  datatype SlOp = AcquireSleep | ReleaseSleep

  /** locked and pid; `holder` records who is between acquiresleep and releasesleep. */
  datatype Sl = Sl(locked: bool, pid: nat, holder: Option<Pid>)

  const INIT := Sl(false, 0, None)

  predicate May(op: SlOp, p: Pid, s: Sl) { op.ReleaseSleep? ==> s.holder == Some(p) }

  predicate Waits(op: SlOp, p: Pid, s: Sl) { op.AcquireSleep? && s.locked }

  predicate Panics(op: SlOp, p: Pid, s: Sl) { op.ReleaseSleep? && (!s.locked || s.pid != p) }

  function Effect(op: SlOp, p: Pid, s: Sl): (r: Sl)
  {
    match op
    case AcquireSleep => Sl(true, p, Some(p))
    case ReleaseSleep => Sl(false, 0, None)
  }

  predicate Wakes(op: SlOp, p: Pid, s: Sl) { op.ReleaseSleep? }

  const SLEEPLOCK: Program<Sl, SlOp> := Program(May, Waits, Panics, Effect, Wakes)

  predicate Owned(s: Sl) { s.holder == if s.locked then Some(s.pid) else None }

  /** holdingsleep, called by a process with this pid. */
  predicate HoldingSleep(s: Sl, p: Pid) { s.locked && s.pid == p }

  lemma SlDisciplined()
    ensures Disciplined(SLEEPLOCK, Owned) && Calm(SLEEPLOCK, Owned)
  {
    forall op, p, s, o, q | Owned(s) && Fires(SLEEPLOCK, op, p, s) && q != p && SLEEPLOCK.may(o, q, s)
      ensures Undisturbed(SLEEPLOCK, op, p, s, o, q)
    {
    }
  }

  /** In every run, for any number of processes: holdingsleep is true of exactly the process inside,
      releasesleep panics for everybody else, and with lk free a sleeper implies the lock is held. */
  lemma SleepLockSafety(run: seq<State<Sl, SlOp>>, q: Pid)
    requires Run(SLEEPLOCK, run) && run[0].s == INIT && q in run[|run| - 1].pc
    ensures var st := run[|run| - 1]; var s := st.s;
            && (HoldingSleep(s, q) <==> s.holder == Some(q))
            && (Panics(ReleaseSleep, q, s) <==> s.holder != Some(q))
            && (st.lk == None && st.pc[q].Asleep? ==> s.locked && s.holder.Some?)
            && !st.pc[q].Panicked?
  {
    SlDisciplined();
    NoLostWakeup(SLEEPLOCK, Owned, run, q);
    RunCalm(SLEEPLOCK, Owned, run, q);
    assert Owned(run[|run| - 1].s);
  }
}

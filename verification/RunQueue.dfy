/** The run queues of proc.c as they are stored: a head pointer and a count per CPU, and one
    next_run link in every process, walked and rewired by loops. The abstract scheduler state is
    carried along, and every method is tied to the function of Scheduler it implements. */
module RunQueue {
  import opened Collections
  import opened Scheduler

  function At(q: seq<nat>, k: nat): (r: Option<nat>)
  {
    if k < |q| then Some(q[k]) else None
  }

  predicate LinkAt(q: seq<nat>, next: seq<Option<nat>>, k: nat)
    requires k < |q|
  {
    q[k] < |next| && next[q[k]] == At(q, k + 1)
  }

  /** The links of next, followed from head, run through q and end. */
  predicate Chain(q: seq<nat>, head: Option<nat>, next: seq<Option<nat>>)
  {
    head == At(q, 0) && forall k :: 0 <= k < |q| ==> LinkAt(q, next, k)
  }

  lemma ChainFrame(q: seq<nat>, head: Option<nat>, next: seq<Option<nat>>, next': seq<Option<nat>>)
    requires Chain(q, head, next) && |next| == |next'|
    requires forall k :: 0 <= k < |q| ==> q[k] < |next| && next'[q[k]] == next[q[k]]
    ensures Chain(q, head, next')
  {
    forall k | 0 <= k < |q| ensures LinkAt(q, next', k) { assert LinkAt(q, next, k); }
  }

  lemma ChainAppend(q: seq<nat>, head: Option<nat>, next: seq<Option<nat>>, p: nat)
    requires Chain(q, head, next) && Distinct(q) && p !in q && p < |next|
    ensures q == [] ==> Chain(q + [p], Some(p), next[p := None])
    ensures q != [] ==> LinkAt(q, next, |q| - 1) && Chain(q + [p], head, next[p := None][q[|q| - 1] := Some(p)])
  {
    assert q != [] ==> LinkAt(q, next, |q| - 1);
    if q != [] {
      var next' := next[p := None][q[|q| - 1] := Some(p)];
      forall k | 0 <= k < |q| ensures LinkAt(q + [p], next', k) { assert LinkAt(q, next, k); }
    }
  }

  /** The chain's links after q[m] was taken out, its predecessor taking over its link. */
  function Bypass(q: seq<nat>, next: seq<Option<nat>>, m: nat): (r: seq<Option<nat>>)
    requires m < |q| && q[m] < |next| && (m > 0 ==> q[m - 1] < |next|)
  {
    if m == 0 then next[q[m] := None] else next[q[m - 1] := next[q[m]]][q[m] := None]
  }

  lemma BypassAt(q: seq<nat>, next: seq<Option<nat>>, m: nat, k: nat)
    requires Distinct(q) && m < |q| && LinkAt(q, next, m) && (m > 0 ==> LinkAt(q, next, m - 1))
    requires k < |q| - 1 && LinkAt(q, next, if k < m then k else k + 1)
    ensures LinkAt(RemoveAt(q, m), Bypass(q, next, m), k)
  {
    var r, next' := RemoveAt(q, m), Bypass(q, next, m);
    var j := if k < m then k else k + 1;
    assert r[k] == q[j];
    assert At(r, k + 1) == if j + 1 == m then At(q, m + 1) else At(q, j + 1);
  }

  lemma ChainRemove(q: seq<nat>, head: Option<nat>, next: seq<Option<nat>>, m: nat)
    requires Chain(q, head, next) && Distinct(q) && m < |q|
    ensures LinkAt(q, next, m) && (m > 0 ==> LinkAt(q, next, m - 1))
    ensures Chain(RemoveAt(q, m), if m == 0 then next[q[0]] else head, Bypass(q, next, m))
  {
    assert LinkAt(q, next, m) && (m > 0 ==> LinkAt(q, next, m - 1));
    var r := RemoveAt(q, m);
    forall k | 0 <= k < |r|
      ensures LinkAt(r, Bypass(q, next, m), k)
    {
      assert LinkAt(q, next, if k < m then k else k + 1);
      BypassAt(q, next, m, k);
    }
  }

  /** What the run-queue fields hold at one moment. */
  datatype Links = Links(runq: seq<Option<nat>>, count: seq<nat>, next: seq<Option<nat>>)

  predicate CpuLinked(l: Links, s: Sched, c: nat)
    requires Shape(s) && c < |s.cpus| == |l.runq| == |l.count|
  {
    QueueOk(s, c) && l.count[c] == |s.cpus[c].queue| && Chain(s.cpus[c].queue, l.runq[c], l.next)
  }

  ghost predicate Linked(l: Links, s: Sched)
  {
    && Shape(s) && |s.cpus| == |l.runq| == |l.count| && |l.next| == NPROC
    && forall c :: 0 <= c < |s.cpus| ==> CpuLinked(l, s, c)
  }

  /** Behind the last process of the queue, or at its head if there is none. */
  function LinkLast(l: Links, c: nat, p: nat, last: Option<nat>): (r: Links)
    requires c < |l.runq| == |l.count| && p < |l.next| && (last.Some? ==> last.value < |l.next|)
  {
    var next := l.next[p := None];
    var count := l.count[c := l.count[c] + 1];
    match last
    case None => Links(l.runq[c := Some(p)], count, next)
    case Some(t) => Links(l.runq, count, next[t := Some(p)])
  }

  lemma LinkLastLinked(l: Links, s: Sched, c: nat, p: nat)
    requires Linked(l, s) && c < |s.cpus| && p < NPROC && s.home[p] == None
    ensures var q := s.cpus[c].queue;
            q == [] ==> Linked(LinkLast(l, c, p, None), Enqueue(s, c, p))
    ensures var q := s.cpus[c].queue;
            q != [] ==> q[|q| - 1] < NPROC && Linked(LinkLast(l, c, p, Some(q[|q| - 1])), Enqueue(s, c, p))
  {
    var q := s.cpus[c].queue;
    assert CpuLinked(l, s, c) && p !in q;
    ChainAppend(q, l.runq[c], l.next, p);
    var l' := LinkLast(l, c, p, if q == [] then None else Some(q[|q| - 1]));
    forall d | 0 <= d < |s.cpus|
      ensures CpuLinked(l', Enqueue(s, c, p), d)
    {
      assert CpuLinked(l, s, d);
      if d != c { ChainFrame(s.cpus[d].queue, l.runq[d], l.next, l'.next); }
    }
  }

  /** p taken out from behind prev, or from the head. */
  function Unlinked(l: Links, c: nat, p: nat, prev: Option<nat>): (r: Links)
    requires c < |l.runq| == |l.count| && p < |l.next| && l.count[c] > 0 && (prev.Some? ==> prev.value < |l.next|)
  {
    var count := l.count[c := l.count[c] - 1];
    match prev
    case None => Links(l.runq[c := l.next[p]], count, l.next[p := None])
    case Some(t) => Links(l.runq, count, l.next[t := l.next[p]][p := None])
  }

  lemma DistinctIndex(q: seq<nat>, m: nat)
    requires Distinct(q) && m < |q|
    ensures IndexOf(q, q[m]) == m && Remove(q, q[m]) == RemoveAt(q, m)
  {
    FirstIndex(q, q[m], m);
  }

  lemma UnlinkedHere(l: Links, s: Sched, c: nat, m: nat, l': Links)
    requires Linked(l, s) && c < |s.cpus| && m < |s.cpus[c].queue|
    requires var q := s.cpus[c].queue;
             q[m] < NPROC && l.count[c] > 0 && (m > 0 ==> q[m - 1] < NPROC)
             && l' == Unlinked(l, c, q[m], if m == 0 then None else Some(q[m - 1]))
    ensures CpuLinked(l', Dequeue(s, c, s.cpus[c].queue[m]), c)
  {
    var q := s.cpus[c].queue;
    assert CpuLinked(l, s, c);
    ChainRemove(q, l.runq[c], l.next, m);
    DistinctIndex(q, m);
  }

  lemma UnlinkedThere(l: Links, s: Sched, c: nat, m: nat, l': Links, d: nat)
    requires Linked(l, s) && c < |s.cpus| && m < |s.cpus[c].queue| && d < |s.cpus| && d != c
    requires var q := s.cpus[c].queue;
             q[m] < NPROC && l.count[c] > 0 && (m > 0 ==> q[m - 1] < NPROC)
             && l' == Unlinked(l, c, q[m], if m == 0 then None else Some(q[m - 1]))
    ensures CpuLinked(l', Dequeue(s, c, s.cpus[c].queue[m]), d)
  {
    var q := s.cpus[c].queue;
    assert CpuLinked(l, s, c) && CpuLinked(l, s, d);
    assert s.home[q[m]] == Some(c) && (m > 0 ==> s.home[q[m - 1]] == Some(c));
    ChainFrame(s.cpus[d].queue, l.runq[d], l.next, l'.next);
  }

  lemma UnlinkedLinked(l: Links, s: Sched, c: nat, m: nat)
    requires Linked(l, s) && c < |s.cpus| && m < |s.cpus[c].queue|
    ensures var q := s.cpus[c].queue; q[m] < NPROC && l.count[c] > 0 && (m > 0 ==> q[m - 1] < NPROC)
    ensures var q := s.cpus[c].queue;
            Linked(Unlinked(l, c, q[m], if m == 0 then None else Some(q[m - 1])), Dequeue(s, c, q[m]))
  {
    var q := s.cpus[c].queue;
    assert CpuLinked(l, s, c);
    assert m > 0 ==> LinkAt(q, l.next, m - 1);
    var l' := Unlinked(l, c, q[m], if m == 0 then None else Some(q[m - 1]));
    forall d | 0 <= d < |s.cpus|
      ensures CpuLinked(l', Dequeue(s, c, q[m]), d)
    {
      if d == c { UnlinkedHere(l, s, c, m, l'); } else { UnlinkedThere(l, s, c, m, l', d); }
    }
  }

  lemma QueueFits(s: Sched, c: nat)
    requires Shape(s) && c < |s.cpus| && QueueOk(s, c)
    ensures |s.cpus[c].queue| <= NPROC
  {
    var q := s.cpus[c].queue;
    DistinctSize(q);
    SubsetSize(Elements(q), Below(NPROC));
  }

  lemma FirstRunnableFrom(procs: seq<Proc>, q: seq<nat>, k: nat, anyPid: bool)
    requires AllBelow(q, |procs|) && k < |q|
    ensures FirstRunnable(procs, q[k..], anyPid)
         == if procs[q[k]].state == Runnable && (anyPid || procs[q[k]].pid > 2) then Some(q[k])
            else FirstRunnable(procs, q[k + 1..], anyPid)
  {
    assert q[k..][1..] == q[k + 1..];
  }

  class RunQueues {
    const core: seq<Core>
    var runq: seq<Option<nat>>
    var queueCount: seq<nat>
    var current: seq<Option<nat>>
    var procs: seq<Proc>
    var nextRun: seq<Option<nat>>
    ghost var sched: Sched

    ghost predicate Valid()
      reads this
    {
      && Linked(Links(runq, queueCount, nextRun), sched) && procs == sched.procs
      && |core| == |current| == |sched.cpus|
      && forall c :: 0 <= c < |sched.cpus| ==> core[c] == sched.cpus[c].core && current[c] == sched.cpus[c].proc
    }

    /** Boot: zeroed tables, cpu 0 an E core. */
    constructor (kinds: seq<Core>)
      requires kinds != [] && kinds[0] == ECore
      ensures Valid() && Boot(sched) && core == kinds
    {
      var none := seq(NPROC, (_: nat) => None);
      var table := seq(NPROC, (_: nat) => Proc(Unused, 0, 0, 0, 0, false));
      core := kinds;
      runq := seq(|kinds|, (_: nat) => None);
      current := seq(|kinds|, (_: nat) => None);
      queueCount := seq(|kinds|, (_: nat) => 0);
      procs := table;
      nextRun := none;
      sched := Sched(seq(|kinds|, (c: nat) requires c < |kinds| => Cpu(kinds[c], [], None)), table, 1, none, none, {});
    }

    /** enqueue: walk to the last process and link p behind it. */
    method Enqueue(c: nat, p: nat)
      requires Valid() && c < |core| && p < NPROC && sched.home[p] == None
      modifies this`runq, this`queueCount, this`nextRun, this`sched
      ensures Valid() && sched == Scheduler.Enqueue(old(sched), c, p)
    {
      ghost var q := sched.cpus[c].queue;
      assert CpuLinked(Links(runq, queueCount, nextRun), sched, c) && p !in q;
      LinkLastLinked(Links(runq, queueCount, nextRun), sched, c, p);
      nextRun := nextRun[p := None];
      if runq[c] == None {
        runq := runq[c := Some(p)];
      } else {
        var curr := runq[c].value;
        ghost var k := 0;
        assert LinkAt(q, old(nextRun), 0);
        while nextRun[curr].Some?
          invariant k < |q| && q[k] == curr && LinkAt(q, nextRun, k)
          decreases |q| - k
        {
          assert k + 1 < |q| ==> LinkAt(q, old(nextRun), k + 1);
          curr := nextRun[curr].value;
          k := k + 1;
        }
        nextRun := nextRun[curr := Some(p)];
      }
      queueCount := queueCount[c := queueCount[c] + 1];
      sched := Scheduler.Enqueue(sched, c, p);
    }

    /** dequeue: unlink p; -1 when it is not on the queue. */
    method Dequeue(c: nat, p: nat) returns (rc: int)
      requires Valid() && c < |core| && p < NPROC
      modifies this`runq, this`queueCount, this`nextRun, this`sched
      ensures Valid()
      ensures rc == if p in old(sched.cpus[c].queue) then 0 else -1
      ensures sched == if rc == 0 then Scheduler.Dequeue(old(sched), c, p) else old(sched)
      ensures rc == -1 ==> runq == old(runq) && nextRun == old(nextRun) && queueCount == old(queueCount)
    {
      ghost var q := sched.cpus[c].queue;
      assert CpuLinked(Links(runq, queueCount, nextRun), sched, c);
      if runq[c] == None {
        return -1;
      }
      if runq[c] == Some(p) {
        Unlink(c, p, None, 0);
        return 0;
      }
      var curr := runq[c].value;
      ghost var k := 0;
      while nextRun[curr].Some?
        invariant k < |q| && q[k] == curr && LinkAt(q, nextRun, k)
        invariant forall j :: 0 <= j <= k ==> q[j] != p
        decreases |q| - k
      {
        if nextRun[curr] == Some(p) {
          Unlink(c, p, Some(curr), k + 1);
          return 0;
        }
        curr := nextRun[curr].value;
        k := k + 1;
      }
      return -1;
    }

    /** The assignments with which dequeue takes out p, which is at position m behind prev. */
    method Unlink(c: nat, p: nat, prev: Option<nat>, ghost m: nat)
      requires Valid() && c < |core| && m < |sched.cpus[c].queue| && sched.cpus[c].queue[m] == p
      requires prev == if m == 0 then None else Some(sched.cpus[c].queue[m - 1])
      modifies this`runq, this`queueCount, this`nextRun, this`sched
      ensures p in old(sched.cpus[c].queue) && p < NPROC
      ensures Valid() && sched == Scheduler.Dequeue(old(sched), c, p)
    {
      UnlinkedLinked(Links(runq, queueCount, nextRun), sched, c, m);
      match prev {
        case None => runq := runq[c := nextRun[p]];
        case Some(curr) => nextRun := nextRun[curr := nextRun[p]];
      }
      queueCount := queueCount[c := queueCount[c] - 1];
      nextRun := nextRun[p := None];
      sched := Scheduler.Dequeue(sched, c, p);
    }

    /** The E core's choice, and the balancer's with anyPid false: the first RUNNABLE process. */
    method FindFirst(c: nat, anyPid: bool) returns (p: Option<nat>)
      requires Valid() && c < |core|
      ensures AllBelow(sched.cpus[c].queue, NPROC) && p == FirstRunnable(sched.procs, sched.cpus[c].queue, anyPid)
    {
      ghost var q := sched.cpus[c].queue;
      assert CpuLinked(Links(runq, queueCount, nextRun), sched, c);
      var curr := runq[c];
      ghost var k := 0;
      assert q[k..] == q;
      while curr.Some?
        invariant k <= |q| && curr == At(q, k)
        invariant FirstRunnable(sched.procs, q, anyPid) == FirstRunnable(sched.procs, q[k..], anyPid)
        decreases |q| - k
      {
        assert LinkAt(q, nextRun, k);
        FirstRunnableFrom(procs, q, k, anyPid);
        var x := procs[curr.value];
        if x.state == Runnable && (anyPid || x.pid > 2) {
          return curr;
        }
        curr := nextRun[curr.value];
        k := k + 1;
      }
      return None;
    }

    /** The P core's choice: the RUNNABLE process created first. */
    method FindOldest(c: nat) returns (oldest: Option<nat>)
      requires Valid() && c < |core|
      ensures AllBelow(sched.cpus[c].queue, NPROC) && oldest == Oldest(sched.procs, sched.cpus[c].queue, None)
    {
      ghost var q := sched.cpus[c].queue;
      assert CpuLinked(Links(runq, queueCount, nextRun), sched, c);
      var curr := runq[c];
      oldest := None;
      ghost var k := 0;
      assert q[k..] == q;
      while curr.Some?
        invariant k <= |q| && curr == At(q, k) && (oldest.Some? ==> oldest.value < NPROC)
        invariant Oldest(sched.procs, q, None) == Oldest(sched.procs, q[k..], oldest)
        decreases |q| - k
      {
        assert LinkAt(q, nextRun, k);
        if procs[curr.value].state == Runnable {
          if oldest == None || procs[curr.value].ctime < procs[oldest.value].ctime {
            oldest := curr;
          }
        }
        assert q[k..][1..] == q[k + 1..];
        curr := nextRun[curr.value];
        k := k + 1;
      }
    }

    /** The loop of get_least_loaded_e_core and of get_lightest_p_core. */
    method LightestCore(kind: Core) returns (best: Option<nat>)
      requires Valid()
      ensures best == ScanCores(sched.cpus, kind, None, 0)
    {
      best := None;
      var minLoad := 0x7FFFFFFF;
      var i := 0;
      while i < |core|
        invariant i <= |core| && (best == None ==> minLoad == 0x7FFFFFFF)
        invariant best.Some? ==> best.value < i && minLoad == |sched.cpus[best.value].queue|
        invariant ScanCores(sched.cpus, kind, None, 0) == ScanCores(sched.cpus, kind, best, i)
      {
        assert CpuLinked(Links(runq, queueCount, nextRun), sched, i);
        if core[i] == kind {
          QueueFits(sched, i);
          if queueCount[i] < minLoad {
            minLoad := queueCount[i];
            best := Some(i);
          }
        }
        i := i + 1;
      }
    }

    /** load_balance on cpu c */
    method LoadBalance(c: nat)
      requires Valid() && c < |core|
      modifies this`runq, this`queueCount, this`nextRun, this`sched
      ensures Valid() && AllBelow(old(sched.cpus[c].queue), NPROC) && sched == Balance(old(sched), c)
    {
      assert CpuLinked(Links(runq, queueCount, nextRun), sched, c);
      if core[c] != ECore {
        return;
      }
      var d := LightestCore(PCore);
      if d == None {
        return;
      }
      assert CpuLinked(Links(runq, queueCount, nextRun), sched, d.value);
      if queueCount[c] >= queueCount[d.value] + 3 {
        var victim := FindFirst(c, false);
        if victim.Some? {
          var rc := Dequeue(c, victim.value);
          Enqueue(d.value, victim.value);
        }
      }
    }

    /** One round of scheduler() up to the context switch. */
    method Dispatch(c: nat, balance: bool)
      requires Valid() && c < |core| && current[c] == None
      modifies this
      ensures Valid() && Enabled(old(sched), Event.Schedule(c, balance))
      ensures sched == Step(old(sched), Event.Schedule(c, balance))
    {
      assert CpuLinked(Links(runq, queueCount, nextRun), sched, c);
      if core[c] == ECore && balance {
        LoadBalance(c);
      }
      ghost var s1 := sched;
      assert CpuLinked(Links(runq, queueCount, nextRun), sched, c);
      var p := None;
      if runq[c].Some? {
        if core[c] == ECore {
          p := FindFirst(c, true);
        } else {
          p := FindOldest(c);
        }
      }
      if p.Some? {
        var rc := Dequeue(c, p.value);
        if rc != 0 {
          p := None;
        }
      }
      if p.Some? {
        Switch(c, p.value);
      }
    }

    /** The dequeued process becomes cpu c's. */
    method Switch(c: nat, p: nat)
      requires Valid() && c < |core| && p < NPROC
      modifies this`current, this`procs, this`sched
      ensures Valid()
      ensures sched == SetProc(old(sched), p, old(sched).procs[p].(state := Running, slice := 0))
                         .(cpus := old(sched).cpus[c := old(sched).cpus[c].(proc := Some(p))],
                           on := old(sched).on[p := Some(c)])
    {
      current := current[c := Some(p)];
      procs := procs[p := procs[p].(slice := 0)];
      procs := procs[p := procs[p].(state := Running)];
      ghost var s := sched;
      sched := SetProc(s, p, s.procs[p].(state := Running, slice := 0))
                 .(cpus := s.cpus[c := s.cpus[c].(proc := Some(p))], on := s.on[p := Some(c)]);
      ghost var l := Links(runq, queueCount, nextRun);
      forall d | 0 <= d < |sched.cpus| ensures CpuLinked(l, sched, d) { assert CpuLinked(l, s, d); }
    }

    /** p changes state while it is on no queue. */
    method SetState(p: nat, x: Proc)
      requires Valid() && p < NPROC
      modifies this`procs, this`sched
      ensures Valid() && sched == SetProc(old(sched), p, x)
    {
      ghost var s, l := sched, Links(runq, queueCount, nextRun);
      procs := procs[p := x];
      sched := SetProc(s, p, x);
      forall d | 0 <= d < |sched.cpus| ensures CpuLinked(l, sched, d) { assert CpuLinked(l, s, d); }
    }

    /** wakeup1: every sleeper on chan goes to the E core that is least loaded at its turn. */
    method WakeUp(chan: nat)
      requires Valid() && Inv(sched)
      modifies this`procs, this`runq, this`queueCount, this`nextRun, this`sched
      ensures Valid() && Inv(sched) && sched == Wakeup(old(sched), chan, 0)
    {
      var i := 0;
      while i < NPROC
        invariant 0 <= i <= NPROC && Valid() && Inv(sched)
        invariant Wakeup(old(sched), chan, 0) == Wakeup(sched, chan, i)
      {
        if procs[i].state == Sleeping && procs[i].chan == chan {
          AdmitInv(sched, i);
          WakeOne(i);
        }
        i := i + 1;
      }
    }

    /** The body of wakeup1's loop for a sleeper it finds. */
    method WakeOne(i: nat)
      requires Valid() && Inv(sched) && i < NPROC && procs[i].state == Sleeping
      modifies this`procs, this`runq, this`queueCount, this`nextRun, this`sched
      ensures Valid() && sched == Admit(old(sched), i)
    {
      assert SlotOk(sched, i);
      SetState(i, procs[i].(state := Runnable));
      var c := LightestCore(ECore);
      Enqueue(if c == None then 0 else c.value, i);
    }
  }
}

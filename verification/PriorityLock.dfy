/** The priority lock of spinlock.c: a spinlock-protected owner field and a list of waiters, each
    asleep on its own process pointer, with direct handover to the waiter of highest priority.

    plock_acquire sleeps once and does not re-check, so exclusion rests on nobody but
    plock_release ever waking a waiter. The step relation keeps other wakeups (exit() waking its
    parent) apart, and exactly when one of them breaks exclusion is proved. */
module PriorityLock {
  import opened Collections

  type Pid = nat

  datatype Waiter = Waiter(proc: Pid, priority: int)

  // ----- which waiter is next -----------------------------------------------------------------

  /** The scan of plock_release from index i on, with k the best so far. */
  function Scan(ws: seq<Waiter>, k: nat, i: nat): (r: nat)
    requires k < |ws| && i <= |ws|
    ensures r < |ws|
    decreases |ws| - i
  {
    if i == |ws| then k
    else Scan(ws, if ws[i].priority > ws[k].priority then i else k, i + 1)
  }

  /** The list is newest first, so this is the most recently queued of the highest priority. */
  function HighestIndex(ws: seq<Waiter>): (r: nat)
    requires ws != []
    ensures r < |ws|
  {
    Scan(ws, 0, 0)
  }

  lemma {:induction false} ScanFindsMax(ws: seq<Waiter>, k: nat, i: nat)
    requires k < |ws| && i <= |ws| && (k < i || k == i == 0)
    requires forall j :: 0 <= j < i ==> ws[j].priority <= ws[k].priority
    requires forall j :: 0 <= j < k ==> ws[j].priority < ws[k].priority
    ensures var r := Scan(ws, k, i);
            && (forall j :: 0 <= j < |ws| ==> ws[j].priority <= ws[r].priority)
            && (forall j :: 0 <= j < r ==> ws[j].priority < ws[r].priority)
    decreases |ws| - i
  {
    if i < |ws| {
      ScanFindsMax(ws, if ws[i].priority > ws[k].priority then i else k, i + 1);
    }
  }

  /** Maximum priority, and among equals the one nearest the head of the list. */
  lemma HighestIsMax(ws: seq<Waiter>)
    requires ws != []
    ensures var k := HighestIndex(ws);
            && (forall j :: 0 <= j < |ws| ==> ws[j].priority <= ws[k].priority)
            && (forall j :: 0 <= j < k ==> ws[j].priority < ws[k].priority)
  {
    ScanFindsMax(ws, 0, 0);
  }

  // ----- the linked list ----------------------------------------------------------------------

  class PlockNode {
    const proc: Pid
    const priority: int
    var next: PlockNode?

    constructor (proc: Pid, priority: int, next: PlockNode?)
      ensures this.proc == proc && this.priority == priority && this.next == next
    {
      this.proc, this.priority, this.next := proc, priority, next;
    }
  }

  function NodeAt(nodes: seq<PlockNode>, k: int): (r: PlockNode?)
  {
    if 0 <= k < |nodes| then nodes[k] else null
  }

  function WaitersOf(nodes: seq<PlockNode>): (ws: seq<Waiter>)
  {
    seq(|nodes|, k requires 0 <= k < |nodes| => Waiter(nodes[k].proc, nodes[k].priority))
  }

  lemma WaitersOfRest(nodes: seq<PlockNode>, k: nat)
    requires k < |nodes|
    ensures WaitersOf(RemoveAt(nodes, k)) == RemoveAt(WaitersOf(nodes), k)
  {
  }

  class WaitList {
    var head: PlockNode?
    ghost var nodes: seq<PlockNode>

    ghost predicate Valid()
      reads this, nodes
    {
      && Distinct(nodes)
      && head == NodeAt(nodes, 0)
      && forall k :: 0 <= k < |nodes| ==> nodes[k].next == NodeAt(nodes, k + 1)
    }

    ghost function Waiters(): (ws: seq<Waiter>)
      reads this
    {
      WaitersOf(nodes)
    }

    constructor ()
      ensures Valid() && nodes == []
    {
      head, nodes := null, [];
    }

    /** plock_acquire queues the new node at the head of the list. */
    method Push(proc: Pid, priority: int)
      requires Valid()
      modifies this
      ensures Valid()
      ensures Waiters() == [Waiter(proc, priority)] + old(Waiters())
    {
      var node := new PlockNode(proc, priority, head);
      head := node;
      nodes := [node] + nodes;
      assert forall k :: 0 < k < |nodes| ==> nodes[k] == old(nodes)[k - 1];
    }

    /** The scan of plock_release, through a pointer to the link that leads to the current node;
        a null `prev` stands for &pl->head. */
    method FindHighest() returns (highestPrev: PlockNode?, highest: PlockNode)
      requires Valid() && nodes != []
      ensures highest == nodes[HighestIndex(Waiters())]
      ensures highestPrev == NodeAt(nodes, HighestIndex(Waiters()) - 1)
    {
      highestPrev, highest := null, head;
      ghost var k := 0;
      var prev: PlockNode? := null;
      var current: PlockNode? := head;
      ghost var ws, i := Waiters(), 0;
      while current != null
        invariant 0 <= i <= |nodes| && 0 <= k < |nodes|
        invariant current == NodeAt(nodes, i) && prev == NodeAt(nodes, i - 1)
        invariant highest == nodes[k] && highestPrev == NodeAt(nodes, k - 1)
        invariant Scan(ws, 0, 0) == Scan(ws, k, i)
        decreases |nodes| - i
      {
        if current.priority > highest.priority {
          highestPrev, highest, k := prev, current, i;
        }
        prev, current := current, current.next;
        i := i + 1;
      }
    }

    /** plock_release takes the chosen node out of the list. */
    method Splice(highestPrev: PlockNode?, highest: PlockNode, ghost k: nat)
      requires Valid() && k < |nodes| && highest == nodes[k] && highestPrev == NodeAt(nodes, k - 1)
      modifies this, nodes
      ensures Valid() && nodes == RemoveAt(old(nodes), k)
    {
      RemoveAtKeeps(nodes, k);
      ghost var was := nodes;
      nodes := RemoveAt(nodes, k);
      if highestPrev == null {
        head := highest.next;
      } else {
        highestPrev.next := highest.next;
      }
      forall j | 0 <= j < |nodes|
        ensures nodes[j].next == NodeAt(nodes, j + 1)
      {
        var m := if j < k then j else j + 1;
        assert nodes[j] == was[m] && old(was[m].next) == NodeAt(was, m + 1);
        assert k > 0 ==> (nodes[j] == highestPrev <==> m == k - 1);
      }
    }

    /** plock_release's choice of the next owner. */
    method TakeHighest() returns (proc: Pid)
      requires Valid() && nodes != []
      modifies this, nodes
      ensures Valid()
      ensures var ws := old(Waiters()); var k := HighestIndex(ws);
              proc == ws[k].proc && Waiters() == RemoveAt(ws, k)
    {
      var highestPrev, highest := FindHighest();
      ghost var k := HighestIndex(Waiters());
      proc := highest.proc;
      WaitersOfRest(nodes, k);
      Splice(highestPrev, highest, k);
    }
  }

  // ----- the protocol -------------------------------------------------------------------------

  /** Where a process is: Q-states belong to plock_acquire after the process queued itself. */
  datatype Pc =
    | Out
    | Want(priority: int)     // about to acquire(&pl->lock) in plock_acquire
    | Got                     // holds pl->lock, owner at once: about to release(&pl->lock)
    | Queued                  // holds pl->lock: in sleep(), about to acquire(&ptable.lock)
    | QRel                    // holds both: about to release(&pl->lock)
    | QMark                   // holds ptable.lock: about to set SLEEPING
    | QAsleep
    | QReady                  // RUNNABLE again
    | QResumed                // holds ptable.lock: about to release it
    | QBack                   // about to reacquire pl->lock
    | QHave                   // holds pl->lock: about to release it and return
    | In                      // returned from plock_acquire
    | WantRelease             // about to acquire(&pl->lock) in plock_release
    | Waking(w: Pid)          // holds pl->lock, handed over to w: about to acquire(&ptable.lock)
    | WakingPt(w: Pid)        // holds both: about to mark w RUNNABLE
    | Leaving                 // holds pl->lock: about to release it
    | Panicked                // "plock_release: not owner"

  datatype State = State(
    locked: bool, owner: Option<Pid>, waiters: seq<Waiter>,
    lk: Option<Pid>, pt: Option<Pid>, pc: map<Pid, Pc>)

  /** One step of p. `priority` is the argument of a new plock_acquire; `release` picks between the
      two calls an outsider can make. A process calls plock_acquire only from outside. */
  ghost predicate StepBy(st: State, st': State, p: Pid, priority: int, release: bool)
    requires p in st.pc
  {
    match st.pc[p]
    case Out => st' == st.(pc := st.pc[p := if release then WantRelease else Want(priority)])
    case Want(prio) =>
      && st.lk == None
      && if !st.locked then st' == st.(locked := true, owner := Some(p), lk := Some(p), pc := st.pc[p := Got])
         else st' == st.(waiters := [Waiter(p, prio)] + st.waiters, lk := Some(p), pc := st.pc[p := Queued])
    case Got => st' == st.(lk := None, pc := st.pc[p := In])
    case Queued => st.pt == None && st' == st.(pt := Some(p), pc := st.pc[p := QRel])
    case QRel => st' == st.(lk := None, pc := st.pc[p := QMark])
    case QMark => st' == st.(pt := None, pc := st.pc[p := QAsleep])
    case QAsleep => false
    case QReady => st.pt == None && st' == st.(pt := Some(p), pc := st.pc[p := QResumed])
    case QResumed => st' == st.(pt := None, pc := st.pc[p := QBack])
    case QBack => st.lk == None && st' == st.(lk := Some(p), pc := st.pc[p := QHave])
    case QHave => st' == st.(lk := None, pc := st.pc[p := In])
    case In => st' == st.(pc := st.pc[p := WantRelease])
    case WantRelease =>
      && st.lk == None
      && if st.owner != Some(p) then st' == st.(lk := Some(p), pc := st.pc[p := Panicked])
         else if st.waiters == [] then
           st' == st.(locked := false, owner := None, lk := Some(p), pc := st.pc[p := Leaving])
         else
           var k := HighestIndex(st.waiters);
           var w := st.waiters[k].proc;
           st' == st.(owner := Some(w), waiters := RemoveAt(st.waiters, k), lk := Some(p), pc := st.pc[p := Waking(w)])
    case Waking(w) => st.pt == None && st' == st.(pt := Some(p), pc := st.pc[p := WakingPt(w)])
    case WakingPt(w) =>
      st' == st.(pt := None,
                 pc := (if w in st.pc && st.pc[w].QAsleep? then st.pc[w := QReady] else st.pc)[p := Leaving])
    case Leaving => st' == st.(lk := None, pc := st.pc[p := Out])
    case Panicked => false
  }

  ghost predicate Next(st: State, st': State)
  {
    exists p, priority, release :: p in st.pc && StepBy(st, st', p, priority, release)
  }

  /** A wakeup of q's own channel from anywhere else: exit() of a child. */
  ghost predicate StrayWake(st: State, st': State, q: Pid)
  {
    q in st.pc && st.pc[q].QAsleep? && st.pt == None && st' == st.(pc := st.pc[q := QReady])
  }

  ghost predicate Start(st: State)
  {
    && !st.locked && st.owner == None && st.waiters == [] && st.lk == None && st.pt == None
    && forall q :: q in st.pc ==> st.pc[q].Out?
  }

  ghost predicate Run(run: seq<State>)
  {
    && |run| > 0 && Start(run[0])
    && forall i :: 0 <= i < |run| - 1 ==> Next(run[i], run[i + 1])
  }

  predicate HoldsLk(pc: Pc)
  {
    pc.Got? || pc.Queued? || pc.QRel? || pc.QHave? || pc.Waking? || pc.WakingPt? || pc.Leaving? || pc.Panicked?
  }

  predicate HoldsPt(pc: Pc) { pc.QRel? || pc.QMark? || pc.QResumed? || pc.WakingPt? }

  /** In plock_acquire after queueing, before any wakeup. */
  predicate Waiting(pc: Pc) { pc.Queued? || pc.QRel? || pc.QMark? || pc.QAsleep? }

  /** In plock_acquire after a wakeup. */
  predicate Returning(pc: Pc) { pc.QReady? || pc.QResumed? || pc.QBack? || pc.QHave? }

  predicate OnList(ws: seq<Waiter>, q: Pid) { exists k :: 0 <= k < |ws| && ws[k].proc == q }

  /** The process holding pl->lock has handed over to q and has not woken it yet. */
  predicate WakeComing(st: State, q: Pid)
  {
    st.lk.Some? && st.lk.value in st.pc && (st.pc[st.lk.value] == Waking(q) || st.pc[st.lk.value] == WakingPt(q))
  }

  ghost predicate ProcOk(st: State, q: Pid)
    requires q in st.pc
  {
    var pc := st.pc[q];
    && (HoldsLk(pc) <==> st.lk == Some(q))
    && (HoldsPt(pc) <==> st.pt == Some(q))
    && (pc.Got? || pc.In? || Returning(pc) ==> st.owner == Some(q))
    && (st.owner == Some(q) ==>
       pc.Got? || pc.In? || pc.WantRelease? || Returning(pc) || (Waiting(pc) && WakeComing(st, q)))
    && (OnList(st.waiters, q) ==> Waiting(pc))
    && (Waiting(pc) ==> OnList(st.waiters, q) || st.owner == Some(q))
    && (pc.Waking? || pc.WakingPt? ==> st.owner == Some(pc.w))
  }

  ghost predicate Sound(st: State)
  {
    && (st.lk.Some? ==> st.lk.value in st.pc)
    && (st.pt.Some? ==> st.pt.value in st.pc)
    && (st.locked <==> st.owner.Some?)
    && (!st.locked ==> st.waiters == [])
    && (st.owner.Some? ==> st.owner.value in st.pc && !OnList(st.waiters, st.owner.value))
    && (forall k, l :: 0 <= k < l < |st.waiters| ==> st.waiters[k].proc != st.waiters[l].proc)
    && (forall k :: 0 <= k < |st.waiters| ==> st.waiters[k].proc in st.pc)
    && forall q :: q in st.pc ==> ProcOk(st, q)
  }

  /** Steps that touch neither the owner nor the list: those of a waiter, and the rest. */
  lemma WaiterStepSound(st: State, st': State, p: Pid, priority: int, release: bool)
    requires Sound(st) && p in st.pc && StepBy(st, st', p, priority, release)
    requires Waiting(st.pc[p]) || Returning(st.pc[p])
    ensures Sound(st')
  {
    assert ProcOk(st, p);
    forall q | q in st'.pc
      ensures ProcOk(st', q)
    {
      assert ProcOk(st, q);
    }
  }

  lemma LockStepSound(st: State, st': State, p: Pid, priority: int, release: bool)
    requires Sound(st) && p in st.pc && StepBy(st, st', p, priority, release)
    requires !st.pc[p].Want? && !(st.pc[p].WantRelease? && st.owner == Some(p)) && !st.pc[p].WakingPt?
    requires !Waiting(st.pc[p]) && !Returning(st.pc[p])
    ensures Sound(st')
  {
    assert ProcOk(st, p);
    forall q | q in st'.pc
      ensures ProcOk(st', q)
    {
      assert ProcOk(st, q);
    }
  }

  lemma AcquireSound(st: State, st': State, p: Pid, priority: int, release: bool)
    requires Sound(st) && p in st.pc && StepBy(st, st', p, priority, release) && st.pc[p].Want?
    ensures Sound(st')
  {
    assert ProcOk(st, p);
    if st.locked {
      assert forall k :: 0 < k < |st'.waiters| ==> st'.waiters[k] == st.waiters[k - 1];
      assert st'.waiters[0].proc == p;
      forall q
        ensures OnList(st'.waiters, q) <==> q == p || OnList(st.waiters, q)
      {
        if k :| 0 <= k < |st.waiters| && st.waiters[k].proc == q {
          assert st'.waiters[k + 1].proc == q;
        }
      }
    }
    forall q | q in st'.pc
      ensures ProcOk(st', q)
    {
      assert ProcOk(st, q);
    }
  }

  lemma ReleaseSound(st: State, st': State, p: Pid, priority: int, release: bool)
    requires Sound(st) && p in st.pc && StepBy(st, st', p, priority, release)
    requires st.pc[p].WantRelease? && st.owner == Some(p)
    ensures Sound(st')
  {
    assert ProcOk(st, p);
    if st.waiters != [] {
      var k := HighestIndex(st.waiters);
      var w := st.waiters[k].proc;
      RestOfList(st.waiters, k);
      assert OnList(st.waiters, w);
      assert ProcOk(st, w);
    }
    forall q | q in st'.pc
      ensures ProcOk(st', q)
    {
      assert ProcOk(st, q);
    }
  }

  /** Splicing one waiter out removes exactly that process from the list. */
  lemma RestOfList(ws: seq<Waiter>, k: nat)
    requires k < |ws| && forall i, j :: 0 <= i < j < |ws| ==> ws[i].proc != ws[j].proc
    ensures forall q :: OnList(RemoveAt(ws, k), q) <==> OnList(ws, q) && q != ws[k].proc
  {
    forall q
      ensures OnList(RemoveAt(ws, k), q) <==> OnList(ws, q) && q != ws[k].proc
    {
      if i :| 0 <= i < |ws| && ws[i].proc == q && i != k {
        assert RemoveAt(ws, k)[if i < k then i else i - 1].proc == q;
      }
    }
  }

  lemma WakeSound(st: State, st': State, p: Pid, priority: int, release: bool)
    requires Sound(st) && p in st.pc && StepBy(st, st', p, priority, release) && st.pc[p].WakingPt?
    ensures Sound(st')
  {
    assert ProcOk(st, p) && ProcOk(st, st.pc[p].w);
    forall q | q in st'.pc
      ensures ProcOk(st', q)
    {
      assert ProcOk(st, q);
    }
  }

  lemma StepSound(st: State, st': State)
    requires Sound(st) && Next(st, st')
    ensures Sound(st')
  {
    var p, priority, release :| p in st.pc && StepBy(st, st', p, priority, release);
    if st.pc[p].Want? {
      AcquireSound(st, st', p, priority, release);
    } else if st.pc[p].WakingPt? {
      WakeSound(st, st', p, priority, release);
    } else if st.pc[p].WantRelease? && st.owner == Some(p) {
      ReleaseSound(st, st', p, priority, release);
    } else if Waiting(st.pc[p]) || Returning(st.pc[p]) {
      WaiterStepSound(st, st', p, priority, release);
    } else {
      LockStepSound(st, st', p, priority, release);
    }
  }

  lemma {:induction false} RunSound(run: seq<State>)
    requires Run(run)
    ensures Sound(run[|run| - 1])
  {
    var n := |run| - 1;
    if n > 0 {
      assert Next(run[n - 1], run[n]);
      RunSound(run[..n]);
      StepSound(run[n - 1], run[n]);
    }
  }

  /** Past plock_acquire. */
  predicate Inside(pc: Pc) { pc.Got? || pc.In? }

  /** Exclusion, ownership and handover in every run where only plock_release wakes waiters. */
  lemma PlockSafety(run: seq<State>, q: Pid, r: Pid)
    requires Run(run) && q in run[|run| - 1].pc && r in run[|run| - 1].pc
    ensures var st := run[|run| - 1];
            && (Inside(st.pc[q]) ==> st.owner == Some(q))
            && (Inside(st.pc[q]) && Inside(st.pc[r]) ==> q == r)
            && (!st.locked ==> st.owner == None && st.waiters == [])
            && (st.lk == None && st.owner == Some(q) ==> !Waiting(st.pc[q]))
            && (st.lk == None && st.pc[q].QAsleep? ==> OnList(st.waiters, q) && st.owner.Some? && st.owner != Some(q))
  {
    RunSound(run);
    assert ProcOk(run[|run| - 1], q) && ProcOk(run[|run| - 1], r);
  }

  // ----- wakeups from elsewhere ---------------------------------------------------------------

  /** A wakeup from elsewhere keeps the invariant exactly if the sleeper has been handed the lock. */
  lemma StrayWakeSound(st: State, st': State, q: Pid)
    requires Sound(st) && StrayWake(st, st', q)
    ensures Sound(st') <==> st.owner == Some(q)
  {
    assert ProcOk(st, q);
    if st.owner == Some(q) {
      forall r | r in st'.pc
        ensures ProcOk(st', r)
      {
        assert ProcOk(st, r);
      }
    } else {
      assert q in st'.pc && Returning(st'.pc[q]) && !ProcOk(st', q);
    }
  }

  ghost predicate Path(path: seq<State>)
  {
    |path| > 0 && forall i :: 0 <= i < |path| - 1 ==> Next(path[i], path[i + 1])
  }

  /** Some steps of plock_acquire and plock_release lead from a to b. */
  ghost predicate Reaches(a: State, b: State)
  {
    exists path :: Path(path) && path[0] == a && path[|path| - 1] == b
  }

  lemma ReachSelf(a: State)
    ensures Reaches(a, a)
  {
    assert Path([a]);
  }

  lemma ReachMore(a: State, b: State, c: State, p: Pid)
    requires Reaches(a, b) && p in b.pc && StepBy(b, c, p, 0, false)
    ensures Reaches(a, c)
  {
    var path :| Path(path) && path[0] == a && path[|path| - 1] == b;
    assert Next(b, c);
    var more := path + [c];
    forall i | 0 <= i < |more| - 1
      ensures Next(more[i], more[i + 1])
    {
      assert i < |path| - 1 ==> Next(path[i], path[i + 1]);
    }
    assert Path(more);
  }

  /** r is in the section the lock guards: past plock_acquire, and not through plock_release if the lock
      is its own. */
  predicate InSection(st: State, r: Pid)
  {
    r in st.pc && (Inside(st.pc[r]) || (st.pc[r].WantRelease? && st.owner == Some(r)))
  }

  ghost predicate Broken(st: State)
  {
    exists q, r :: q != r && InSection(st, q) && InSection(st, r)
  }

  /** The lock's spinlock is held by a process that panicked. */
  predicate Dead(st: State)
  {
    st.lk.Some? && st.lk.value in st.pc && st.pc[st.lk.value].Panicked?
  }

  lemma SoundExclusive(st: State)
    requires Sound(st)
    ensures !Broken(st)
  {
    forall q, r | InSection(st, q) && InSection(st, r)
      ensures q == r
    {
      assert ProcOk(st, q) && ProcOk(st, r);
    }
  }

  lemma {:induction false} PathSound(path: seq<State>)
    requires Path(path) && Sound(path[0])
    ensures Sound(path[|path| - 1])
  {
    var n := |path| - 1;
    if n > 0 {
      PathSound(path[..n]);
      assert Next(path[n - 1], path[n]);
      StepSound(path[n - 1], path[n]);
    }
  }

  /** Nobody enters the section behind a process that panicked holding the spinlock. */
  ghost predicate Stuck(st: State)
  {
    && Dead(st) && !Broken(st)
    && (forall r :: r in st.pc ==> (HoldsLk(st.pc[r]) <==> st.lk == Some(r)))
    && (st.owner.Some? && st.owner.value in st.pc ==> !st.pc[st.owner.value].Out?)
  }

  lemma StuckStep(st: State, st': State, p: Pid, priority: int, release: bool)
    requires Stuck(st) && p in st.pc && StepBy(st, st', p, priority, release)
    ensures st' == st.(pt := st'.pt, pc := st.pc[p := st'.pc[p]])
    ensures !HoldsLk(st.pc[p]) && !HoldsLk(st'.pc[p]) && (InSection(st', p) ==> InSection(st, p))
    ensures st.owner == Some(p) ==> !st'.pc[p].Out?
  {
    assert HoldsLk(st.pc[p]) <==> st.lk == Some(p);
  }

  lemma StuckStays(st: State, st': State)
    requires Stuck(st) && Next(st, st')
    ensures Stuck(st')
  {
    var p, priority, release :| p in st.pc && StepBy(st, st', p, priority, release);
    StuckStep(st, st', p, priority, release);
    forall q | InSection(st', q)
      ensures InSection(st, q)
    {
    }
  }

  lemma {:induction false} PathStuck(path: seq<State>)
    requires Path(path) && Stuck(path[0])
    ensures Stuck(path[|path| - 1])
  {
    var n := |path| - 1;
    if n > 0 {
      PathStuck(path[..n]);
      assert Next(path[n - 1], path[n]);
      StuckStays(path[n - 1], path[n]);
    }
  }

  /** The holder of the spinlock, unless it panicked, comes to release it, while q stays woken and the
      owner either is in the section or is on its way there. */
  ghost predicate Half(st: State, q: Pid, r: Pid)
  {
    && q in st.pc && r in st.pc && q != r && st.owner == Some(r) && st.lk == None && st.pt == None
    && st.pc[q].QReady? && (st.pc[r].In? || st.pc[r].WantRelease? || st.pc[r].QReady? || st.pc[r].QBack?)
  }

  lemma HolderLeaves(st: State, a: State, q: Pid, r: Pid) returns (b: State)
    requires Sound(st) && StrayWake(st, a, q) && st.owner == Some(r) && r != q && !Dead(st)
    ensures Reaches(a, b) && Half(b, q, r)
  {
    ReachSelf(a);
    assert ProcOk(st, q) && ProcOk(st, r);
    if st.lk == None {
      b := a;
    } else {
      var h := st.lk.value;
      assert ProcOk(st, h) && h != q;
      match st.pc[h]
      case Got =>
        b := a.(lk := None, pc := a.pc[h := In]);
        ReachMore(a, a, b, h);
      case QHave =>
        b := a.(lk := None, pc := a.pc[h := In]);
        ReachMore(a, a, b, h);
      case Leaving =>
        b := a.(lk := None, pc := a.pc[h := Out]);
        ReachMore(a, a, b, h);
      case Queued =>
        var b1 := a.(pt := Some(h), pc := a.pc[h := QRel]);
        ReachMore(a, a, b1, h);
        var b2 := b1.(lk := None, pc := b1.pc[h := QMark]);
        ReachMore(a, b1, b2, h);
        b := b2.(pt := None, pc := b2.pc[h := QAsleep]);
        ReachMore(a, b2, b, h);
      case Waking(w) =>
        b := HandoverEnds(a, h, r);
    }
  }

  /** A releaser that has handed over to r wakes it and leaves. */
  lemma HandoverEnds(a: State, h: Pid, r: Pid) returns (b: State)
    requires h in a.pc && r in a.pc && h != r && a.pc[h] == Waking(r) && a.pt == None && a.lk == Some(h)
    ensures Reaches(a, b)
    ensures b == a.(lk := None, pc := a.pc[r := if a.pc[r].QAsleep? then QReady else a.pc[r]][h := Out])
  {
    ReachSelf(a);
    var woken := if a.pc[r].QAsleep? then QReady else a.pc[r];
    var b1 := a.(pt := Some(h), pc := a.pc[h := WakingPt(r)]);
    ReachMore(a, a, b1, h);
    var b2 := b1.(pt := None, pc := b1.pc[r := woken][h := Leaving]);
    assert b1.pc[r := b1.pc[r]] == b1.pc;
    ReachMore(a, b1, b2, h);
    b := b2.(lk := None, pc := b2.pc[h := Out]);
    ReachMore(a, b2, b, h);
    assert b.pc == a.pc[r := woken][h := Out];
  }

  /** A woken process with both spinlocks free returns from plock_acquire. */
  lemma Returns(a: State, st: State, q: Pid) returns (b: State)
    requires Reaches(a, st) && q in st.pc && st.lk == None && st.pt == None && (st.pc[q].QReady? || st.pc[q].QBack?)
    ensures Reaches(a, b) && b == st.(pc := st.pc[q := In])
  {
    var s := st;
    if st.pc[q].QReady? {
      var s1 := st.(pt := Some(q), pc := st.pc[q := QResumed]);
      ReachMore(a, st, s1, q);
      s := s1.(pt := None, pc := s1.pc[q := QBack]);
      ReachMore(a, s1, s, q);
    }
    var s3 := s.(lk := Some(q), pc := s.pc[q := QHave]);
    ReachMore(a, s, s3, q);
    b := s3.(lk := None, pc := s3.pc[q := In]);
    ReachMore(a, s3, b, q);
    assert b.pc == st.pc[q := In];
  }

  lemma BothEnter(a: State, st: State, q: Pid, r: Pid)
    requires Reaches(a, st) && Half(st, q, r)
    ensures exists t :: Reaches(a, t) && Broken(t)
  {
    var t := Returns(a, st, q);
    if !t.pc[r].In? && !t.pc[r].WantRelease? {
      t := Returns(a, t, r);
    }
    assert InSection(t, q) && InSection(t, r);
    assert Broken(t);
  }

  /** In every state of every run: one wakeup of a sleeper from elsewhere can lead to two processes in
      the section if and only if the sleeper has not been handed the lock and nobody has panicked
      holding its spinlock. */
  lemma StrayWakeBreaksExclusion(run: seq<State>, a: State, q: Pid)
    requires Run(run) && StrayWake(run[|run| - 1], a, q)
    ensures var st := run[|run| - 1];
            (exists t :: Reaches(a, t) && Broken(t)) <==> st.owner != Some(q) && !Dead(st)
  {
    var st := run[|run| - 1];
    RunSound(run);
    assert ProcOk(st, q);
    if st.owner == Some(q) {
      StrayWakeSound(st, a, q);
      forall t | Reaches(a, t) ensures !Broken(t) {
        var path :| Path(path) && path[0] == a && path[|path| - 1] == t;
        PathSound(path);
        SoundExclusive(t);
      }
    } else if Dead(st) {
      WokenStuck(st, a, q);
      forall t | Reaches(a, t) ensures !Broken(t) {
        var path :| Path(path) && path[0] == a && path[|path| - 1] == t;
        PathStuck(path);
      }
    } else {
      var b := HolderLeaves(st, a, q, st.owner.value);
      BothEnter(a, b, q, st.owner.value);
    }
  }

  lemma WokenStuck(st: State, a: State, q: Pid)
    requires Sound(st) && StrayWake(st, a, q) && Dead(st)
    ensures Stuck(a)
  {
    SoundExclusive(st);
    assert ProcOk(st, q);
    assert st.owner.Some? ==> ProcOk(st, st.owner.value);
    forall x, y | x != y && InSection(a, x) && InSection(a, y)
      ensures InSection(st, x) && InSection(st, y)
    {
    }
    forall r | r in a.pc
      ensures HoldsLk(a.pc[r]) <==> a.lk == Some(r)
    {
      assert ProcOk(st, r);
    }
  }

  /** There are such runs: r takes the lock and q queues behind it. */
  lemma SleeperBehindOwner(st: State, q: Pid, r: Pid) returns (run: seq<State>)
    requires Start(st) && q in st.pc && r in st.pc && q != r
    ensures Run(run) && run[0] == st
    ensures var t := run[|run| - 1];
            q in t.pc && r in t.pc && t.pc[q].QAsleep? && t.owner == Some(r) && t.pc[r].In? && t.lk == None
              && t.pt == None
  {
    var s1 := st.(pc := st.pc[r := Want(0)]);
    var s2 := s1.(locked := true, owner := Some(r), lk := Some(r), pc := s1.pc[r := Got]);
    var s3 := s2.(lk := None, pc := s2.pc[r := In]);
    var s4 := s3.(pc := s3.pc[q := Want(0)]);
    var s5 := s4.(waiters := [Waiter(q, 0)] + s4.waiters, lk := Some(q), pc := s4.pc[q := Queued]);
    var s6 := s5.(pt := Some(q), pc := s5.pc[q := QRel]);
    var s7 := s6.(lk := None, pc := s6.pc[q := QMark]);
    var s8 := s7.(pt := None, pc := s7.pc[q := QAsleep]);
    assert StepBy(st, s1, r, 0, false) && StepBy(s1, s2, r, 0, false) && StepBy(s2, s3, r, 0, false);
    assert StepBy(s3, s4, q, 0, false) && StepBy(s4, s5, q, 0, false) && StepBy(s5, s6, q, 0, false);
    assert StepBy(s6, s7, q, 0, false) && StepBy(s7, s8, q, 0, false);
    run := [st, s1, s2, s3, s4, s5, s6, s7, s8];
  }
}

/** pipe.c: a ring buffer indexed by two wrapping 32-bit counters, shared by any number of readers
    and writers that sleep when it is empty or full.

    The pipe's lock is held from the (re)acquisition to the next sleep or return, so one such
    section of pipewrite or piperead is one step. */
module Pipe {
  import opened Collections
  import opened Layout

  const PIPESIZE := 512

  type Pid = nat

  // ----- the ring -----------------------------------------------------------------------------

  /** nread and nwrite are uints: they wrap. */
  datatype Ring = Ring(data: seq<Byte>, nread: Uint, nwrite: Uint)

  /** x + n in uint arithmetic. */
  function Plus(x: Uint, n: nat): (r: Uint)
    requires n <= PIPESIZE
  {
    if x + n >= UINT_LIMIT then x + n - UINT_LIMIT else x + n
  }

  /** nwrite - nread in uint arithmetic. */
  function InFlight(r: Ring): (n: nat)
  {
    if r.nwrite >= r.nread then r.nwrite - r.nread else r.nwrite + UINT_LIMIT - r.nread
  }

  predicate RingOk(r: Ring) { |r.data| == PIPESIZE && InFlight(r) <= PIPESIZE }

  /** The bytes written and not yet read, oldest first. */
  function Contents(r: Ring): (s: seq<Byte>)
    requires RingOk(r)
    ensures |s| == InFlight(r)
  {
    seq(InFlight(r), k requires 0 <= k < InFlight(r) => r.data[Plus(r.nread, k) % PIPESIZE])
  }

  predicate IsFull(r: Ring) { r.nwrite == Plus(r.nread, PIPESIZE) }

  predicate IsEmpty(r: Ring) { r.nread == r.nwrite }

  lemma FullAndEmpty(r: Ring)
    requires RingOk(r)
    ensures IsFull(r) <==> InFlight(r) == PIPESIZE
    ensures IsEmpty(r) <==> InFlight(r) == 0
  {
  }

  /** pipewrite stores a byte and counts it. */
  function Put(r: Ring, b: Byte): (r': Ring)
    requires |r.data| == PIPESIZE
  {
    Ring(r.data[r.nwrite % PIPESIZE := b], r.nread, Plus(r.nwrite, 1))
  }

  lemma PutAppends(r: Ring, b: Byte)
    requires RingOk(r) && !IsFull(r)
    ensures RingOk(Put(r, b)) && Contents(Put(r, b)) == Contents(r) + [b]
  {
    var n := InFlight(r);
    FullAndEmpty(r);
    assert Plus(r.nread, n) == r.nwrite;
    forall k | 0 <= k < n
      ensures Plus(r.nread, k) % PIPESIZE != r.nwrite % PIPESIZE
    {
      SlotsDiffer(r.nread, k, n);
    }
    assert Contents(Put(r, b))[..n] == Contents(r);
  }

  /** PIPESIZE divides 2^32, so slots do not collide across the wrap. */
  lemma SlotsDiffer(x: Uint, k: nat, n: nat)
    requires k < n < PIPESIZE
    ensures Plus(x, k) % PIPESIZE != Plus(x, n) % PIPESIZE
  {
    assert Plus(x, k) % PIPESIZE == (x + k) % PIPESIZE;
    assert Plus(x, n) % PIPESIZE == (x + n) % PIPESIZE;
  }

  /** piperead takes a byte and counts it. */
  function Get(r: Ring): (r': Ring)
  {
    r.(nread := Plus(r.nread, 1))
  }

  lemma GetRemoves(r: Ring)
    requires RingOk(r) && !IsEmpty(r)
    ensures RingOk(Get(r)) && Contents(r) == [r.data[r.nread % PIPESIZE]] + Contents(Get(r))
  {
    FullAndEmpty(r);
    var s := Contents(Get(r));
    forall k | 0 <= k < |s|
      ensures s[k] == Contents(r)[k + 1]
    {
      assert Plus(Get(r).nread, k) == Plus(r.nread, k + 1);
    }
  }

  /** The copying loop of pipewrite until the pipe is full or the bytes are used up. */
  function Fill(r: Ring, bytes: seq<Byte>, i: nat): (res: (Ring, nat))
    requires |r.data| == PIPESIZE && i <= |bytes|
    decreases |bytes| - i
  {
    if i == |bytes| || IsFull(r) then (r, i) else Fill(Put(r, bytes[i]), bytes, i + 1)
  }

  lemma {:induction false} FillAppends(r: Ring, bytes: seq<Byte>, i: nat)
    requires RingOk(r) && i <= |bytes|
    ensures var (r', j) := Fill(r, bytes, i);
            && RingOk(r') && i <= j <= |bytes| && Contents(r') == Contents(r) + bytes[i..j]
            && (j < |bytes| ==> IsFull(r')) && r'.nread == r.nread
    decreases |bytes| - i
  {
    if i < |bytes| && !IsFull(r) {
      PutAppends(r, bytes[i]);
      FillAppends(Put(r, bytes[i]), bytes, i + 1);
      var j := Fill(r, bytes, i).1;
      assert bytes[i..j] == [bytes[i]] + bytes[i + 1..j];
    }
  }

  /** The copying loop of piperead: at most n bytes. */
  function Drain(r: Ring, n: nat): (res: (Ring, seq<Byte>))
    requires |r.data| == PIPESIZE
    decreases n
  {
    if n == 0 || IsEmpty(r) then (r, [])
    else
      var (r', rest) := Drain(Get(r), n - 1);
      (r', [r.data[r.nread % PIPESIZE]] + rest)
  }

  lemma {:induction false} DrainTakes(r: Ring, n: nat)
    requires RingOk(r)
    ensures var (r', out) := Drain(r, n);
            && RingOk(r') && Contents(r) == out + Contents(r') && |out| <= n
            && (|out| < n ==> IsEmpty(r')) && (IsEmpty(r) ==> r' == r)
    decreases n
  {
    if n > 0 && !IsEmpty(r) {
      GetRemoves(r);
      DrainTakes(Get(r), n - 1);
    }
  }

  // ----- the loops as they run ----------------------------------------------------------------

  class PipeBuffer {
    const data: array<Byte>
    var nread: Uint
    var nwrite: Uint

    ghost predicate Valid()
      reads this, data
    {
      data.Length == PIPESIZE
    }

    ghost function Abs(): (r: Ring)
      reads this, data
    {
      Ring(data[..], nread, nwrite)
    }

    constructor ()
      ensures Valid() && Abs().nread == Abs().nwrite == 0 && fresh(data)
    {
      data := new Byte[PIPESIZE](_ => 0);
      nread, nwrite := 0, 0;
    }

    method FillFrom(bytes: seq<Byte>, i: nat) returns (j: nat)
      requires Valid() && i <= |bytes|
      modifies this`nwrite, data
      ensures Valid() && (Abs(), j) == Fill(old(Abs()), bytes, i)
    {
      j := i;
      while j < |bytes| && nwrite != Plus(nread, PIPESIZE)
        invariant i <= j <= |bytes| && Valid()
        invariant Fill(Abs(), bytes, j) == Fill(old(Abs()), bytes, i)
      {
        ghost var before := Abs();
        data[nwrite % PIPESIZE] := bytes[j];
        nwrite := Plus(nwrite, 1);
        assert Abs() == Put(before, bytes[j]);
        j := j + 1;
      }
    }

    method DrainTo(n: nat) returns (out: seq<Byte>)
      requires Valid()
      modifies this`nread
      ensures Valid() && (Abs(), out) == Drain(old(Abs()), n)
    {
      out := [];
      var i := 0;
      assert [] + Drain(Abs(), n).1 == Drain(Abs(), n).1;
      while i < n && nread != nwrite
        invariant 0 <= i <= n && data[..] == old(data[..])
        invariant var (r, rest) := Drain(Abs(), n - i); Drain(old(Abs()), n) == (r, out + rest)
      {
        ghost var before, rest := out, Drain(Abs(), n - i).1;
        out := out + [data[nread % PIPESIZE]];
        nread := Plus(nread, 1);
        i := i + 1;
        assert before + rest == out + Drain(Abs(), n - i).1;
      }
      assert out + [] == out;
    }
  }

  // ----- the protocol -------------------------------------------------------------------------

  datatype Pc =
    | Idle
    | Writing(bytes: seq<Byte>, i: nat)    // in pipewrite, i bytes stored, about to take the lock
    | WSleep(bytes: seq<Byte>, i: nat)     // asleep on &p->nwrite
    | Reading(n: nat)                      // in piperead, about to take the lock
    | RSleep(n: nat)                       // asleep on &p->nread

  /** `accepted` and `delivered` are all bytes ever stored and handed out. */
  datatype State = State(
    ring: Ring, readopen: bool, writeopen: bool,
    pc: map<Pid, Pc>, killed: set<Pid>,
    accepted: seq<Byte>, delivered: seq<Byte>)

  datatype Event =
    | CallWrite(p: Pid, bytes: seq<Byte>)
    | CallRead(p: Pid, n: nat)
    | WriteSection(p: Pid)
    | ReadSection(p: Pid)
    | CloseWrite
    | CloseRead
    | Kill(p: Pid)

  function WakeReaders(pc: map<Pid, Pc>): (r: map<Pid, Pc>)
  {
    map q | q in pc :: if pc[q].RSleep? then Reading(pc[q].n) else pc[q]
  }

  function WakeWriters(pc: map<Pid, Pc>): (r: map<Pid, Pc>)
  {
    map q | q in pc :: if pc[q].WSleep? then Writing(pc[q].bytes, pc[q].i) else pc[q]
  }

  /** An end is used only while open, and closed only when no call on it is in progress: a process
      inside the call keeps the file open. */
  predicate Enabled(st: State, e: Event)
  {
    match e
    case CallWrite(p, _) => p in st.pc && st.pc[p].Idle? && st.writeopen
    case CallRead(p, _) => p in st.pc && st.pc[p].Idle? && st.readopen
    case WriteSection(p) => p in st.pc && st.pc[p].Writing? && st.pc[p].i <= |st.pc[p].bytes|
      && |st.ring.data| == PIPESIZE
    case ReadSection(p) => p in st.pc && st.pc[p].Reading? && |st.ring.data| == PIPESIZE
    case CloseWrite => st.writeopen && forall q :: q in st.pc ==> !st.pc[q].Writing? && !st.pc[q].WSleep?
    case CloseRead => st.readopen && forall q :: q in st.pc ==> !st.pc[q].Reading? && !st.pc[q].RSleep?
    case Kill(p) => p in st.pc
  }

  function Step(st: State, e: Event): (st': State)
    requires Enabled(st, e)
  {
    match e
    case CallWrite(p, bytes) => st.(pc := st.pc[p := Writing(bytes, 0)])
    case CallRead(p, n) => st.(pc := st.pc[p := Reading(n)])
    case WriteSection(p) => Write(st, p)
    case ReadSection(p) => Read(st, p)
    case CloseWrite => st.(writeopen := false, pc := WakeReaders(st.pc))
    case CloseRead => st.(readopen := false, pc := WakeWriters(st.pc))
    case Kill(p) =>
      var pc := st.pc[p];
      st.(killed := st.killed + {p},
          pc := st.pc[p := if pc.RSleep? then Reading(pc.n) else if pc.WSleep? then Writing(pc.bytes, pc.i) else pc])
  }

  /** pipewrite from the acquisition of the lock to the next sleep or return. */
  function Write(st: State, p: Pid): (st': State)
    requires Enabled(st, WriteSection(p))
  {
    var Writing(bytes, i) := st.pc[p];
    var (ring, j) := Fill(st.ring, bytes, i);
    var st1 := st.(ring := ring, accepted := st.accepted + if i <= j <= |bytes| then bytes[i..j] else []);
    if j >= |bytes| then st1.(pc := WakeReaders(st.pc)[p := Idle])
    else if !st.readopen || p in st.killed then st1.(pc := st.pc[p := Idle])
    else st1.(pc := WakeReaders(st.pc)[p := WSleep(bytes, j)])
  }

  /** piperead likewise. */
  function Read(st: State, p: Pid): (st': State)
    requires Enabled(st, ReadSection(p))
  {
    var n := st.pc[p].n;
    if IsEmpty(st.ring) && st.writeopen then
      st.(pc := st.pc[p := if p in st.killed then Idle else RSleep(n)])
    else
      var (ring, out) := Drain(st.ring, n);
      st.(ring := ring, delivered := st.delivered + out, pc := WakeWriters(st.pc)[p := Idle])
  }

  ghost predicate Start(st: State)
  {
    && |st.ring.data| == PIPESIZE && st.ring.nread == st.ring.nwrite == 0 && st.readopen && st.writeopen
    && st.accepted == st.delivered == [] && st.killed == {}
    && forall q :: q in st.pc ==> st.pc[q].Idle?
  }

  function Exec(st: State, run: seq<Event>): (r: Option<State>)
  {
    if run == [] then Some(st)
    else
      match Exec(st, run[..|run| - 1])
      case None => None
      case Some(st1) => if Enabled(st1, run[|run| - 1]) then Some(Step(st1, run[|run| - 1])) else None
  }

  predicate ProcOk(st: State, q: Pid)
    requires q in st.pc
  {
    var pc := st.pc[q];
    && (pc.Writing? || pc.WSleep? ==> st.writeopen && pc.i <= |pc.bytes|)
    && (pc.Reading? || pc.RSleep? ==> st.readopen)
    && (pc.WSleep? ==> IsFull(st.ring) && st.readopen)
    && (pc.RSleep? ==> st.writeopen)
  }

  ghost predicate Inv(st: State)
  {
    && RingOk(st.ring)
    && st.accepted == st.delivered + Contents(st.ring)
    && forall q :: q in st.pc ==> ProcOk(st, q)
  }

  lemma WriteKeepsBytes(st: State, p: Pid)
    requires Inv(st) && Enabled(st, WriteSection(p))
    ensures var st' := Write(st, p);
            RingOk(st'.ring) && st'.accepted == st'.delivered + Contents(st'.ring)
  {
    var Writing(bytes, i) := st.pc[p];
    FillAppends(st.ring, bytes, i);
    var more := bytes[i..Fill(st.ring, bytes, i).1];
    assert st.accepted + more == st.delivered + (Contents(st.ring) + more);
  }

  lemma WriteKeepsProc(st: State, p: Pid, q: Pid)
    requires Inv(st) && Enabled(st, WriteSection(p)) && q in st.pc
    ensures ProcOk(Write(st, p), q)
  {
    assert ProcOk(st, p) && ProcOk(st, q);
    var Writing(bytes, i) := st.pc[p];
    FillAppends(st.ring, bytes, i);
    var (ring, j) := Fill(st.ring, bytes, i);
    assert IsFull(st.ring) || j == i ==> ring == st.ring;
  }

  lemma WriteInv(st: State, p: Pid)
    requires Inv(st) && Enabled(st, WriteSection(p))
    ensures Inv(Write(st, p))
  {
    WriteKeepsBytes(st, p);
    forall q | q in Write(st, p).pc
      ensures ProcOk(Write(st, p), q)
    {
      WriteKeepsProc(st, p, q);
    }
  }

  lemma ReadKeepsBytes(st: State, p: Pid)
    requires Inv(st) && Enabled(st, ReadSection(p))
    ensures var st' := Read(st, p);
            RingOk(st'.ring) && st'.accepted == st'.delivered + Contents(st'.ring)
  {
    DrainTakes(st.ring, st.pc[p].n);
    var (ring, out) := Drain(st.ring, st.pc[p].n);
    assert st.delivered + (out + Contents(ring)) == (st.delivered + out) + Contents(ring);
  }

  lemma ReadInv(st: State, p: Pid)
    requires Inv(st) && Enabled(st, ReadSection(p))
    ensures Inv(Read(st, p))
  {
    var st' := Read(st, p);
    ReadKeepsBytes(st, p);
    assert ProcOk(st, p);
    DrainTakes(st.ring, st.pc[p].n);
    forall q | q in st'.pc
      ensures ProcOk(st', q)
    {
      assert ProcOk(st, q);
    }
  }

  lemma StepInv(st: State, e: Event)
    requires Inv(st) && Enabled(st, e)
    ensures Inv(Step(st, e))
  {
    if e.WriteSection? {
      WriteInv(st, e.p);
    } else if e.ReadSection? {
      ReadInv(st, e.p);
    } else {
      var st' := Step(st, e);
      forall q | q in st'.pc
        ensures ProcOk(st', q)
      {
        assert ProcOk(st, q);
      }
    }
  }

  lemma {:induction false} RunInv(st: State, run: seq<Event>)
    requires Start(st) && Exec(st, run).Some?
    ensures Inv(Exec(st, run).value)
  {
    if run == [] {
      assert st.accepted == st.delivered + Contents(st.ring);
    } else {
      RunInv(st, run[..|run| - 1]);
      StepInv(Exec(st, run[..|run| - 1]).value, run[|run| - 1]);
    }
  }

  /** In every run: bytes come out in the order they went in, none lost or duplicated, however often
      the counters wrapped; a sleeping writer means a full pipe with a reader, and a sleeping reader
      means a writer. */
  lemma PipeFifo(st: State, run: seq<Event>, q: Pid)
    requires Start(st) && Exec(st, run).Some? && q in Exec(st, run).value.pc
    ensures var s := Exec(st, run).value;
            && s.delivered <= s.accepted && RingOk(s.ring)
            && s.accepted[|s.delivered|..] == Contents(s.ring) && InFlight(s.ring) <= PIPESIZE
            && (s.pc[q].WSleep? ==> IsFull(s.ring) && s.readopen)
            && (s.pc[q].RSleep? ==> s.readopen && s.writeopen)
  {
    RunInv(st, run);
    assert ProcOk(Exec(st, run).value, q);
  }

  // ----- readers asleep with data in the pipe -------------------------------------------------

  /** q sleeps in piperead although there are bytes to read. */
  predicate Stranded(st: State, q: Pid)
    requires q in st.pc
  {
    st.pc[q].RSleep? && !IsEmpty(st.ring)
  }

  /** pipewrite's return at a full pipe, which calls no wakeup: p has more bytes than there is room
      for, and is killed or has no reader. */
  predicate SilentReturn(st: State, p: Pid)
    requires p in st.pc && st.pc[p].Writing?
  {
    |st.pc[p].bytes| - st.pc[p].i > PIPESIZE - InFlight(st.ring) && (!st.readopen || p in st.killed)
  }

  /** How far a writing section gets. */
  lemma FillStops(r: Ring, bytes: seq<Byte>, i: nat)
    requires RingOk(r) && i <= |bytes|
    ensures var (r', j) := Fill(r, bytes, i);
            && j == (if |bytes| - i <= PIPESIZE - InFlight(r) then |bytes| else i + PIPESIZE - InFlight(r))
            && InFlight(r') == InFlight(r) + (j - i)
  {
    FillAppends(r, bytes, i);
    FullAndEmpty(Fill(r, bytes, i).0);
  }

  /** What a writing section leaves of the readers. */
  lemma WriteWakes(st: State, p: Pid, q: Pid)
    requires Inv(st) && Enabled(st, WriteSection(p)) && q in st.pc && st.pc[q].RSleep?
    ensures q in Write(st, p).pc
    ensures Write(st, p).pc[q].RSleep? <==> SilentReturn(st, p)
    ensures InFlight(Write(st, p).ring) >= InFlight(st.ring)
    ensures SilentReturn(st, p) ==> IsFull(Write(st, p).ring)
    ensures RingOk(Write(st, p).ring)
  {
    assert ProcOk(st, p) && ProcOk(st, q);
    FillStops(st.ring, st.pc[p].bytes, st.pc[p].i);
    FillAppends(st.ring, st.pc[p].bytes, st.pc[p].i);
    FullAndEmpty(Write(st, p).ring);
  }

  /** A reader becomes stranded exactly by a killed writer, with more than a pipeful to write, that
      finds it asleep. */
  lemma StrandedExactly(st: State, e: Event, q: Pid)
    requires Inv(st) && Enabled(st, e) && q in st.pc && !Stranded(st, q)
    ensures q in Step(st, e).pc
    ensures Stranded(Step(st, e), q) <==>
            && st.pc[q].RSleep? && e.WriteSection? && e.p in st.killed
            && |st.pc[e.p].bytes| - st.pc[e.p].i > PIPESIZE
  {
    assert ProcOk(st, q);
    FullAndEmpty(st.ring);
    if e.WriteSection? {
      if st.pc[q].RSleep? {
        WriteWakes(st, e.p, q);
        FullAndEmpty(Write(st, e.p).ring);
      }
    } else if e.ReadSection? {
      DrainTakes(st.ring, st.pc[e.p].n);
    }
  }

  /** The events that end it: a kill of the reader, the closing of the write end, a writing section
      that does not return silently, and another reader's section that takes all the bytes. */
  predicate Rescues(st: State, e: Event, q: Pid)
    requires Enabled(st, e)
  {
    match e
    case Kill(p) => p == q
    case CloseWrite => true
    case WriteSection(p) => !SilentReturn(st, p)
    case ReadSection(p) => st.pc[p].n >= InFlight(st.ring)
    case _ => false
  }

  lemma RescuedExactly(st: State, e: Event, q: Pid)
    requires Inv(st) && Enabled(st, e) && q in st.pc && Stranded(st, q)
    ensures q in Step(st, e).pc
    ensures Stranded(Step(st, e), q) <==> !Rescues(st, e, q)
  {
    assert ProcOk(st, q);
    FullAndEmpty(st.ring);
    FullAndEmpty(Step(st, e).ring) by { StepInv(st, e); }
    if e.WriteSection? {
      WriteWakes(st, e.p, q);
    } else if e.ReadSection? {
      DrainTakes(st.ring, st.pc[e.p].n);
    }
  }

  /** The k-th event of the run is a killed writer's section with more than a pipeful to write, and q is
      asleep in piperead when it happens. */
  ghost predicate Strands(st: State, run: seq<Event>, k: nat, q: Pid)
  {
    && k < |run| && Exec(st, run[..k]).Some?
    && var s := Exec(st, run[..k]).value;
       && run[k].WriteSection? && Enabled(s, run[k]) && q in s.pc && s.pc[q].RSleep?
       && run[k].p in s.killed && |s.pc[run[k].p].bytes| - s.pc[run[k].p].i > PIPESIZE
  }

  /** In every run, a reader asleep with bytes in the pipe was stranded that way. */
  lemma {:induction false} StrandedHasCause(st: State, run: seq<Event>, q: Pid)
    requires Start(st) && Exec(st, run).Some? && q in Exec(st, run).value.pc && Stranded(Exec(st, run).value, q)
    ensures exists k: nat :: Strands(st, run, k, q)
  {
    if run != [] {
      var n := |run| - 1;
      var s := Exec(st, run[..n]).value;
      RunInv(st, run[..n]);
      SameProcs(s, run[n], q);
      if Stranded(s, q) {
        StrandedHasCause(st, run[..n], q);
        var k: nat :| Strands(st, run[..n], k, q);
        assert run[..n][..k] == run[..k] && Strands(st, run, k, q);
      } else {
        StrandedExactly(s, run[n], q);
        assert Strands(st, run, n, q);
      }
    }
  }

  lemma SameProcs(st: State, e: Event, q: Pid)
    requires Enabled(st, e)
    ensures q in Step(st, e).pc <==> q in st.pc
  {
  }

  lemma {:induction false} KilledStay(st: State, run: seq<Event>, k: nat)
    requires Exec(st, run).Some? && k <= |run|
    ensures Exec(st, run[..k]).Some? && Exec(st, run[..k]).value.killed <= Exec(st, run).value.killed
  {
    if k < |run| {
      var n := |run| - 1;
      KilledStay(st, run[..n], k);
      assert run[..n][..k] == run[..k];
    } else {
      assert run[..k] == run;
    }
  }

  /** Where nobody is killed, a sleeping reader means an empty pipe with a writer. */
  lemma NoKillNoStranding(st: State, run: seq<Event>, q: Pid)
    requires Start(st) && Exec(st, run).Some? && q in Exec(st, run).value.pc
    requires Exec(st, run).value.killed == {} && Exec(st, run).value.pc[q].RSleep?
    ensures IsEmpty(Exec(st, run).value.ring) && Exec(st, run).value.writeopen
  {
    PipeFifo(st, run, q);
    if Stranded(Exec(st, run).value, q) {
      StrandedHasCause(st, run, q);
      var k: nat :| Strands(st, run, k, q);
      KilledStay(st, run, k);
    }
  }

  lemma ExecMore(st: State, run: seq<Event>, s: State, e: Event)
    requires Exec(st, run) == Some(s) && Enabled(s, e)
    ensures Exec(st, run + [e]) == Some(Step(s, e))
  {
    assert (run + [e])[..|run|] == run;
  }

  /** It happens: in five events from any fresh pipe with two processes. */
  lemma KilledWriterLosesWakeup(st: State, p: Pid, q: Pid, bytes: seq<Byte>, n: nat) returns (run: seq<Event>)
    requires Start(st) && p in st.pc && q in st.pc && p != q && |bytes| > PIPESIZE
    ensures Exec(st, run).Some?
    ensures var s := Exec(st, run).value; q in s.pc && Stranded(s, q) && IsFull(s.ring)
  {
    run := [];
    ExecMore(st, run, st, CallRead(q, n));
    var s1 := Step(st, CallRead(q, n));
    run := run + [CallRead(q, n)];
    ExecMore(st, run, s1, ReadSection(q));
    var s2 := Step(s1, ReadSection(q));
    run := run + [ReadSection(q)];
    ExecMore(st, run, s2, CallWrite(p, bytes));
    var s3 := Step(s2, CallWrite(p, bytes));
    run := run + [CallWrite(p, bytes)];
    ExecMore(st, run, s3, Kill(p));
    var s4 := Step(s3, Kill(p));
    run := run + [Kill(p)];
    RunInv(st, run);
    ExecMore(st, run, s4, WriteSection(p));
    WriteWakes(s4, p, q);
    StrandedExactly(s4, WriteSection(p), q);
    run := run + [WriteSection(p)];
  }
}

/** The buffer cache (bio.c) over a synchronous disk.

    The cache is a value; its operations are functions on that value, one per atomic section of
    the C code, so a run is any interleaving of sections by any processes. LinkedBuffers holds the
    pointer-linked form, proved to compute the same functions. */
module BufferCache {
  import opened Collections
  import opened Layout

  const NBUF := 30

  type Pid = nat

  datatype Buf = Buf(
    dev: nat, blockno: nat,
    valid: bool, dirty: bool,
    refcnt: nat,
    holder: Option<Pid>,     // owner of the sleep lock
    data: Block)

  /** `order` is the MRU list from bcache.head.next on. The last five fields are history: which
      processes hold references, which held buffers were changed and not yet handed to
      log_write or bwrite, the latest contents of every block, and the time of each buffer's last
      release. */
  datatype Cache = Cache(
    disk: seq<Block>, bufs: seq<Buf>, order: seq<nat>,
    refs: seq<multiset<Pid>>, touched: set<nat>, logical: seq<Block>,
    released: seq<nat>, clock: nat)

  // ----- the atomic sections ------------------------------------------------------------------

  predicate Holds(b: Buf, dev: nat, blockno: nat) { b.dev == dev && b.blockno == blockno }

  predicate Recyclable(b: Buf) { b.refcnt == 0 && !b.dirty }

  /** First position in MRU order whose buffer caches the block. */
  function Lookup(bufs: seq<Buf>, order: seq<nat>, dev: nat, blockno: nat): (r: Option<nat>)
    requires AllBelow(order, |bufs|)
    ensures r.Some? ==> r.value in order && Holds(bufs[r.value], dev, blockno)
    ensures r.None? ==> forall k :: 0 <= k < |order| ==> !Holds(bufs[order[k]], dev, blockno)
  {
    if order == [] then None
    else if Holds(bufs[order[0]], dev, blockno) then Some(order[0])
    else Lookup(bufs, order[1..], dev, blockno)
  }

  /** Last position in MRU order whose buffer is unused: the least recently released one. */
  function Victim(bufs: seq<Buf>, order: seq<nat>): (r: Option<nat>)
    requires AllBelow(order, |bufs|)
    ensures r.Some? ==> r.value in order && Recyclable(bufs[r.value])
    ensures r.None? ==> forall k :: 0 <= k < |order| ==> !Recyclable(bufs[order[k]])
  {
    if order == [] then None
    else
      var i := order[|order| - 1];
      if Recyclable(bufs[i]) then Some(i) else Victim(bufs, order[..|order| - 1])
  }

  predicate Shape(c: Cache)
  {
    && |c.bufs| == |c.refs| == |c.released| == |c.order| == NBUF
    && |c.logical| == |c.disk|
    && AllBelow(c.order, NBUF)
    && Distinct(c.order)
  }

  /** bget up to its release of bcache.lock; None is the panic "no buffers". */
  function Bget(c: Cache, p: Pid, dev: nat, blockno: nat): (r: Option<(Cache, nat)>)
    requires Shape(c)
  {
    match Lookup(c.bufs, c.order, dev, blockno)
    case Some(i) =>
      Some((c.(bufs := c.bufs[i := c.bufs[i].(refcnt := c.bufs[i].refcnt + 1)],
               refs := c.refs[i := c.refs[i] + multiset{p}]), i))
    case None =>
      match Victim(c.bufs, c.order)
      case None => None
      case Some(i) =>
        Some((c.(bufs := c.bufs[i := c.bufs[i].(dev := dev, blockno := blockno, valid := false,
                                                dirty := false, refcnt := 1)],
                 refs := c.refs[i := multiset{p}]), i))
  }

  /** acquiresleep on the buffer's lock, once it is free. */
  function LockBuf(c: Cache, p: Pid, i: nat): (r: Cache)
    requires i < |c.bufs|
  {
    c.(bufs := c.bufs[i := c.bufs[i].(holder := Some(p))])
  }

  predicate IderwOk(c: Cache, i: nat)
    requires i < |c.bufs|
  {
    var b := c.bufs[i];
    (b.dirty || !b.valid) && b.dev == 1 && b.blockno < |c.disk|
  }

  /** iderw on the in-memory disk. */
  function Iderw(c: Cache, i: nat): (r: Cache)
    requires i < |c.bufs| && IderwOk(c, i)
  {
    var b := c.bufs[i];
    if b.dirty then
      c.(disk := c.disk[b.blockno := b.data], bufs := c.bufs[i := b.(dirty := false, valid := true)])
    else
      c.(bufs := c.bufs[i := b.(data := c.disk[b.blockno], valid := true)])
  }

  /** The holder stores into the buffer's data. */
  function Store(c: Cache, i: nat, data: Block): (r: Cache)
    requires i < |c.bufs| && c.bufs[i].blockno < |c.logical|
  {
    c.(bufs := c.bufs[i := c.bufs[i].(data := data)], touched := c.touched + {i},
       logical := c.logical[c.bufs[i].blockno := data])
  }

  /** log_write sets B_DIRTY. */
  function MarkDirty(c: Cache, i: nat): (r: Cache)
    requires i < |c.bufs|
  {
    c.(bufs := c.bufs[i := c.bufs[i].(dirty := true)], touched := c.touched - {i})
  }

  /** bwrite: set B_DIRTY and call iderw. */
  function Bwrite(c: Cache, i: nat): (r: Cache)
    requires i < |c.bufs| && IderwOk(MarkDirty(c, i), i)
  {
    Iderw(MarkDirty(c, i), i)
  }

  /** releasesleep inside brelse. */
  function Unlock(c: Cache, i: nat): (r: Cache)
    requires i < |c.bufs|
  {
    c.(bufs := c.bufs[i := c.bufs[i].(holder := None)])
  }

  function ToFront(s: seq<nat>, i: nat): (r: seq<nat>)
    requires i in s
  {
    [i] + Remove(s, i)
  }

  /** Move to the head of the list, "no one is waiting for it". */
  function Promote(c: Cache, i: nat): (r: Cache)
    requires i in c.order && i < |c.released|
  {
    c.(order := ToFront(c.order, i), released := c.released[i := c.clock], clock := c.clock + 1)
  }

  /** The section of brelse under bcache.lock. */
  function Unref(c: Cache, p: Pid, i: nat): (r: Cache)
    requires i < |c.bufs| && i < |c.refs| && i < |c.released| && i in c.order && c.bufs[i].refcnt > 0
  {
    var c1 := c.(bufs := c.bufs[i := c.bufs[i].(refcnt := c.bufs[i].refcnt - 1)],
                 refs := c.refs[i := c.refs[i] - multiset{p}]);
    if c1.bufs[i].refcnt > 0 then c1 else Promote(c1, i)
  }

  // ----- runs ---------------------------------------------------------------------------------

  /** One atomic section by one process. */
  datatype Event =
    | GetEvent(p: Pid, blockno: nat)
    | LockEvent(p: Pid, i: nat)
    | ReadEvent(p: Pid, i: nat)
    | StoreEvent(p: Pid, i: nat, data: Block)
    | DirtyEvent(p: Pid, i: nat)
    | WriteEvent(p: Pid, i: nat)
    | UnlockEvent(p: Pid, i: nat)
    | UnrefEvent(p: Pid, i: nat)

  predicate Owns(c: Cache, p: Pid, i: nat)
  {
    i < |c.bufs| && c.bufs[i].holder == Some(p)
  }

  /** The guards are those of the C code: only the holder of the sleep lock touches a buffer, and
      a changed buffer is handed to log_write or bwrite before it is released. */
  predicate Enabled(c: Cache, e: Event)
    requires Shape(c)
  {
    match e
    case GetEvent(p, b) => Bget(c, p, 1, b).Some?
    case LockEvent(p, i) => i < NBUF && p in c.refs[i] && c.bufs[i].holder == None
    case ReadEvent(p, i) => Owns(c, p, i) && !c.bufs[i].valid && IderwOk(c, i)
    case StoreEvent(p, i, _) => Owns(c, p, i) && c.bufs[i].valid && c.bufs[i].blockno < |c.disk|
    case DirtyEvent(p, i) => Owns(c, p, i) && c.bufs[i].valid
    case WriteEvent(p, i) => Owns(c, p, i) && c.bufs[i].valid && IderwOk(MarkDirty(c, i), i)
    case UnlockEvent(p, i) => Owns(c, p, i) && i !in c.touched
    case UnrefEvent(p, i) =>
      i < NBUF && p in c.refs[i] && c.bufs[i].holder != Some(p) && i in c.order && c.bufs[i].refcnt > 0
  }

  function Step(c: Cache, e: Event): (r: Cache)
    requires Shape(c) && Enabled(c, e)
  {
    match e
    case GetEvent(p, b) => Bget(c, p, 1, b).value.0
    case LockEvent(p, i) => LockBuf(c, p, i)
    case ReadEvent(p, i) => Iderw(c, i)
    case StoreEvent(p, i, d) => Store(c, i, d)
    case DirtyEvent(p, i) => MarkDirty(c, i)
    case WriteEvent(p, i) => Bwrite(c, i)
    case UnlockEvent(p, i) => Unlock(c, i)
    case UnrefEvent(p, i) => Unref(c, p, i)
  }

  /** The state after a run, if every event of it was enabled when it happened. */
  function Exec(c: Cache, run: seq<Event>): (r: Option<Cache>)
  {
    if run == [] then Some(c)
    else
      match Exec(c, run[..|run| - 1])
      case None => None
      case Some(c1) =>
        var e := run[|run| - 1];
        if Shape(c1) && Enabled(c1, e) then Some(Step(c1, e)) else None
  }

  predicate Claimed(b: Buf) { b.dev != 0 }

  predicate BufOk(c: Cache, i: nat)
    requires Shape(c) && i < NBUF
  {
    var b := c.bufs[i];
    && b.refcnt == |c.refs[i]|
    && (b.holder.Some? ==> b.holder.value in c.refs[i])
    && (b.dirty ==> b.valid)
    && (i in c.touched ==> b.valid && b.holder.Some?)
    && (b.valid ==> b.dev == 1 && b.blockno < |c.disk| && b.data == c.logical[b.blockno])
    && (b.valid && !b.dirty && i !in c.touched ==> b.data == c.disk[b.blockno])
    && c.released[i] < c.clock
  }

  predicate Unique(c: Cache)
    requires Shape(c)
  {
    forall i, j :: 0 <= i < j < NBUF && Claimed(c.bufs[i]) && Claimed(c.bufs[j]) ==>
      !(c.bufs[i].dev == c.bufs[j].dev && c.bufs[i].blockno == c.bufs[j].blockno)
  }

  predicate CachesValid(c: Cache, i: nat, b: nat)
    requires |c.bufs| == NBUF
  {
    i < NBUF && c.bufs[i].valid && c.bufs[i].blockno == b
  }

  ghost predicate UncachedOnDisk(c: Cache)
    requires Shape(c)
  {
    forall b :: 0 <= b < |c.disk| ==> (exists i :: CachesValid(c, i, b)) || c.logical[b] == c.disk[b]
  }

  /** The list is in order of last release, most recent first. */
  predicate Recency(c: Cache)
    requires Shape(c)
  {
    forall k, l :: 0 <= k < l < NBUF ==> c.released[c.order[k]] > c.released[c.order[l]]
  }

  ghost predicate Inv(c: Cache)
  {
    && Shape(c)
    && (forall i :: 0 <= i < NBUF ==> BufOk(c, i))
    && Unique(c)
    && UncachedOnDisk(c)
    && Recency(c)
  }

  function InitBufs(n: nat, d: Block): (r: seq<Buf>)
    ensures |r| == n && forall i :: 0 <= i < n ==> r[i] == Buf(0, 0, false, false, 0, None, d)
  {
    seq(n, _ => Buf(0, 0, false, false, 0, None, d))
  }

  /** After binit: every buffer has identity (0, 0) and the list is in reverse array order. */
  function Init(disk: seq<Block>): (c: Cache)
  {
    Cache(disk, InitBufs(NBUF, ZERO_BLOCK), seq(NBUF, k requires 0 <= k < NBUF => NBUF - 1 - k),
          seq(NBUF, _ => multiset{}), {}, disk, seq(NBUF, k requires 0 <= k => k), NBUF)
  }

  // ----- every section keeps the invariant ----------------------------------------------------

  lemma InitInv(disk: seq<Block>)
    ensures Inv(Init(disk))
  {
  }

  /** A section that leaves the disk and the latest contents alone, and evicts nothing valid that
      differs from disk, keeps every uncached block equal to disk. */
  lemma CoverageKept(c: Cache, c': Cache, i: nat)
    requires Shape(c) && Shape(c') && UncachedOnDisk(c) && i < NBUF
    requires c'.disk == c.disk && c'.logical == c.logical
    requires forall j :: 0 <= j < NBUF && j != i ==> c'.bufs[j] == c.bufs[j]
    requires c.bufs[i].valid ==>
               || (c'.bufs[i].valid && c'.bufs[i].blockno == c.bufs[i].blockno)
               || (c.bufs[i].blockno < |c.disk| && c.logical[c.bufs[i].blockno] == c.disk[c.bufs[i].blockno])
    ensures UncachedOnDisk(c')
  {
    forall b | 0 <= b < |c'.disk|
      ensures (exists j :: CachesValid(c', j, b)) || c'.logical[b] == c'.disk[b]
    {
      if j :| CachesValid(c, j, b) {
        if j != i || (c'.bufs[i].valid && c'.bufs[i].blockno == c.bufs[i].blockno) {
          assert CachesValid(c', j, b);
        }
      }
    }
  }

  lemma BgetInv(c: Cache, p: Pid, b: nat)
    requires Inv(c) && Bget(c, p, 1, b).Some?
    ensures var (c', i) := Bget(c, p, 1, b).value; Inv(c') && i < NBUF && p in c'.refs[i] && Holds(c'.bufs[i], 1, b)
  {
    var (c', i) := Bget(c, p, 1, b).value;
    assert i < NBUF && BufOk(c, i);
    if Lookup(c.bufs, c.order, 1, b).None? {
      forall j: nat | j < NBUF
        ensures !Holds(c.bufs[j], 1, b)
      {
        Covers(c.order, NBUF, j);
      }
    }
    forall j | 0 <= j < NBUF
      ensures BufOk(c', j)
    {
      assert BufOk(c, j);
    }
    CoverageKept(c, c', i);
  }

  /** A section that changes only buffer i, keeps its identity, and keeps BufOk of i. */
  lemma LocalInv(c: Cache, c': Cache, i: nat)
    requires Inv(c) && Shape(c') && i < NBUF
    requires c' == c.(bufs := c'.bufs, refs := c'.refs, touched := c'.touched)
    requires forall j :: 0 <= j < NBUF && j != i ==> c'.bufs[j] == c.bufs[j] && c'.refs[j] == c.refs[j]
    requires c'.touched - {i} == c.touched - {i}
    requires Holds(c'.bufs[i], c.bufs[i].dev, c.bufs[i].blockno) && (c.bufs[i].valid ==> c'.bufs[i].valid)
    requires BufOk(c', i)
    ensures Inv(c')
  {
    forall j | 0 <= j < NBUF
      ensures BufOk(c', j)
    {
      assert BufOk(c, j);
      assert j != i ==> (j in c'.touched <==> j in c'.touched - {i});
    }
    CoverageKept(c, c', i);
  }

  lemma LockInv(c: Cache, p: Pid, i: nat)
    requires Inv(c) && Enabled(c, LockEvent(p, i))
    ensures Inv(LockBuf(c, p, i))
  {
    assert BufOk(c, i);
    LocalInv(c, LockBuf(c, p, i), i);
  }

  lemma ReadInv(c: Cache, i: nat)
    requires Inv(c) && i < NBUF && c.bufs[i].holder.Some? && !c.bufs[i].valid && IderwOk(c, i)
    ensures Inv(Iderw(c, i))
    ensures Iderw(c, i).bufs[i].data == c.logical[c.bufs[i].blockno]
  {
    assert BufOk(c, i);
    var b := c.bufs[i].blockno;
    forall j: nat
      ensures !CachesValid(c, j, b)
    {
      if j < NBUF && j != i {
        assert BufOk(c, j);
      }
    }
    LocalInv(c, Iderw(c, i), i);
  }

  lemma StoreInv(c: Cache, p: Pid, i: nat, d: Block)
    requires Inv(c) && Enabled(c, StoreEvent(p, i, d))
    ensures Inv(Store(c, i, d))
  {
    var c' := Store(c, i, d);
    var x := c.bufs[i].blockno;
    assert BufOk(c, i);
    forall j | 0 <= j < NBUF
      ensures BufOk(c', j)
    {
      assert BufOk(c, j);
    }
    forall b | 0 <= b < |c'.disk|
      ensures (exists j :: CachesValid(c', j, b)) || c'.logical[b] == c'.disk[b]
    {
      if b == x {
        assert CachesValid(c', i, b);
      } else if j :| CachesValid(c, j, b) {
        assert CachesValid(c', j, b);
      }
    }
  }

  lemma DirtyInv(c: Cache, p: Pid, i: nat)
    requires Inv(c) && Enabled(c, DirtyEvent(p, i))
    ensures Inv(MarkDirty(c, i))
  {
    assert BufOk(c, i);
    LocalInv(c, MarkDirty(c, i), i);
  }

  lemma WriteInv(c: Cache, p: Pid, i: nat)
    requires Inv(c) && Enabled(c, WriteEvent(p, i))
    ensures Inv(Bwrite(c, i))
  {
    var c' := Bwrite(c, i);
    var x := c.bufs[i].blockno;
    assert BufOk(c, i);
    forall j | 0 <= j < NBUF
      ensures BufOk(c', j)
    {
      assert BufOk(c, j);
    }
    forall b | 0 <= b < |c'.disk|
      ensures (exists j :: CachesValid(c', j, b)) || c'.logical[b] == c'.disk[b]
    {
      if j :| CachesValid(c, j, b) {
        assert CachesValid(c', j, b);
      }
    }
  }

  lemma UnlockInv(c: Cache, p: Pid, i: nat)
    requires Inv(c) && Enabled(c, UnlockEvent(p, i))
    ensures Inv(Unlock(c, i))
  {
    assert BufOk(c, i);
    LocalInv(c, Unlock(c, i), i);
  }

  /** The list behind the front after a move to it. */
  lemma RestOrder(c: Cache, i: nat, k: nat)
    requires Inv(c) && i in c.order && k < NBUF - 1
    ensures var rest := Remove(c.order, i); var m := IndexOf(c.order, i);
            && rest[k] == c.order[if k < m then k else k + 1] && rest[k] < NBUF && rest[k] != i
            && c.released[rest[k]] < c.clock
  {
    var rest := Remove(c.order, i);
    assert rest[k] in rest;
    assert BufOk(c, rest[k]);
  }

  lemma FrontPermutes(c: Cache, i: nat)
    requires Inv(c) && i in c.order
    ensures var order := ToFront(c.order, i); |order| == NBUF && Distinct(order) && AllBelow(order, NBUF)
  {
    var rest, order := Remove(c.order, i), ToFront(c.order, i);
    forall k: nat | 0 < k < NBUF
      ensures order[k] == rest[k - 1] && order[k] < NBUF && order[k] != i
    {
      RestOrder(c, i, k - 1);
    }
  }

  lemma FrontReleases(c: Cache, i: nat, k: nat, l: nat)
    requires Inv(c) && i in c.order && k < l < NBUF
    ensures var order := ToFront(c.order, i);
            && |order| == NBUF && order[k] < NBUF && order[l] < NBUF && i < NBUF
            && c.released[i := c.clock][order[k]] > c.released[i := c.clock][order[l]]
  {
    FrontPermutes(c, i);
    RestOrder(c, i, l - 1);
    if k > 0 { RestOrder(c, i, k - 1); }
  }

  /** Moving a buffer to the front with a fresh release time keeps the list a permutation in
      release order. */
  lemma ToFrontOrder(c: Cache, i: nat)
    requires Inv(c) && i in c.order
    ensures var order := ToFront(c.order, i);
            && |order| == NBUF && Distinct(order) && AllBelow(order, NBUF)
            && forall k, l :: 0 <= k < l < NBUF ==>
                 c.released[i := c.clock][order[k]] > c.released[i := c.clock][order[l]]
  {
    FrontPermutes(c, i);
    forall k: nat, l: nat | k < l < NBUF
      ensures var released := c.released[i := c.clock]; var order := ToFront(c.order, i);
              released[order[k]] > released[order[l]]
    {
      FrontReleases(c, i, k, l);
    }
  }

  lemma PromoteInv(c: Cache, i: nat)
    requires Inv(c) && i in c.order
    ensures Inv(Promote(c, i))
  {
    var c' := Promote(c, i);
    ToFrontOrder(c, i);
    forall j | 0 <= j < NBUF
      ensures BufOk(c', j)
    {
      assert BufOk(c, j);
    }
    assert c'.bufs == c.bufs && i < NBUF;
    CoverageKept(c, c', i);
  }

  lemma UnrefInv(c: Cache, p: Pid, i: nat)
    requires Inv(c) && Enabled(c, UnrefEvent(p, i))
    ensures Inv(Unref(c, p, i))
  {
    assert BufOk(c, i);
    var c1 := c.(bufs := c.bufs[i := c.bufs[i].(refcnt := c.bufs[i].refcnt - 1)],
                 refs := c.refs[i := c.refs[i] - multiset{p}]);
    LocalInv(c, c1, i);
    PromoteInv(c1, i);
  }

  lemma StepInv(c: Cache, e: Event)
    requires Inv(c) && Enabled(c, e)
    ensures Inv(Step(c, e))
  {
    match e
    case GetEvent(p, b) => BgetInv(c, p, b);
    case LockEvent(p, i) => LockInv(c, p, i);
    case ReadEvent(p, i) => ReadInv(c, i);
    case StoreEvent(p, i, d) => StoreInv(c, p, i, d);
    case DirtyEvent(p, i) => DirtyInv(c, p, i);
    case WriteEvent(p, i) => WriteInv(c, p, i);
    case UnlockEvent(p, i) => UnlockInv(c, p, i);
    case UnrefEvent(p, i) => UnrefInv(c, p, i);
  }

  /** Every run from binit keeps the invariant. */
  lemma {:induction false} RunInv(disk: seq<Block>, run: seq<Event>)
    requires Exec(Init(disk), run).Some?
    ensures Inv(Exec(Init(disk), run).value)
  {
    if run == [] {
      InitInv(disk);
    } else {
      RunInv(disk, run[..|run| - 1]);
      StepInv(Exec(Init(disk), run[..|run| - 1]).value, run[|run| - 1]);
    }
  }

  /** The states of runs from binit, over any initial disk. */
  ghost predicate Reachable(c: Cache)
  {
    exists disk, run :: Exec(Init(disk), run) == Some(c)
  }

  lemma ReachableInv(c: Cache)
    requires Reachable(c)
    ensures Inv(c)
  {
    var disk, run :| Exec(Init(disk), run) == Some(c);
    RunInv(disk, run);
  }

  lemma ReachableStep(c: Cache, e: Event)
    requires Reachable(c) && Shape(c) && Enabled(c, e)
    ensures Reachable(Step(c, e))
  {
    var disk, run :| Exec(Init(disk), run) == Some(c);
    ExecMore(Init(disk), run, c, e);
  }

  lemma ExecMore(start: Cache, run: seq<Event>, c: Cache, e: Event)
    requires Exec(start, run) == Some(c) && Shape(c) && Enabled(c, e)
    ensures Exec(start, run + [e]) == Some(Step(c, e))
  {
    assert (run + [e])[..|run|] == run;
  }

  // ----- what the runs guarantee --------------------------------------------------------------

  /** Whoever holds a valid buffer sees the latest contents of its block; no other buffer caches
      that block; and a block that is stale on disk is pinned in a dirty or held buffer. */
  ghost predicate Coherent(c: Cache)
  {
    && |c.bufs| == NBUF && |c.logical| == |c.disk|
    && (forall i :: 0 <= i < NBUF && c.bufs[i].valid ==>
          c.bufs[i].blockno < |c.disk| && c.bufs[i].data == c.logical[c.bufs[i].blockno])
    && (forall i, j :: 0 <= i < j < NBUF && c.bufs[i].valid ==> !Holds(c.bufs[j], c.bufs[i].dev, c.bufs[i].blockno))
    && (forall b :: 0 <= b < |c.disk| && c.logical[b] != c.disk[b] ==> exists j: nat :: Pinned(c, j, b))
  }

  predicate Pinned(c: Cache, j: nat, b: nat)
    requires |c.bufs| == NBUF
  {
    CachesValid(c, j, b) && (c.bufs[j].dirty || c.bufs[j].holder.Some?)
  }

  lemma InvCoherent(c: Cache)
    requires Inv(c)
    ensures Coherent(c)
  {
    forall i | 0 <= i < NBUF && c.bufs[i].valid
      ensures c.bufs[i].dev == 1 && c.bufs[i].blockno < |c.disk|
      ensures c.bufs[i].data == c.logical[c.bufs[i].blockno]
    {
      assert BufOk(c, i);
    }
    forall b | 0 <= b < |c.disk| && c.logical[b] != c.disk[b]
      ensures exists j: nat :: Pinned(c, j, b)
    {
      var j: nat :| CachesValid(c, j, b);
      assert BufOk(c, j);
      assert Pinned(c, j, b);
    }
  }

  /** Cache refinement over every run, with arbitrary evictions. */
  lemma ReadsLatest(disk: seq<Block>, run: seq<Event>)
    requires Exec(Init(disk), run).Some?
    ensures Coherent(Exec(Init(disk), run).value)
  {
    RunInv(disk, run);
    InvCoherent(Exec(Init(disk), run).value);
  }

  /** Block b as the stores of the run left it: what the last store to it put there, else what was on
      the disk at the start. A store goes to the block its buffer caches at that moment. */
  function LastStore(disk: seq<Block>, run: seq<Event>, b: nat): (r: Block)
    requires Exec(Init(disk), run).Some? && b < |disk|
  {
    if run == [] then disk[b]
    else
      var n := |run| - 1;
      var e := run[n];
      if e.StoreEvent? && Exec(Init(disk), run[..n]).value.bufs[e.i].blockno == b then e.data
      else LastStore(disk, run[..n], b)
  }

  lemma StoresChangeContents(c: Cache, e: Event)
    requires Shape(c) && Enabled(c, e)
    ensures Step(c, e).logical == if e.StoreEvent? then c.logical[c.bufs[e.i].blockno := e.data] else c.logical
  {
  }

  lemma {:induction false} LatestIsLastStore(disk: seq<Block>, run: seq<Event>, b: nat)
    requires Exec(Init(disk), run).Some? && b < |disk|
    ensures var c := Exec(Init(disk), run).value; |c.logical| == |disk| && c.logical[b] == LastStore(disk, run, b)
  {
    if run != [] {
      var n := |run| - 1;
      LatestIsLastStore(disk, run[..n], b);
      StoresChangeContents(Exec(Init(disk), run[..n]).value, run[n]);
    }
  }

  /** In every run, whatever was evicted and read back in between: a valid buffer holds what the last
      store to its block put there, and so does the disk for every block that is in no valid buffer. */
  lemma ReadsLastStore(disk: seq<Block>, run: seq<Event>, i: nat, b: nat)
    requires Exec(Init(disk), run).Some? && i < NBUF && b < |disk|
    ensures var c := Exec(Init(disk), run).value;
            && |c.bufs| == NBUF && |c.disk| == |disk|
            && (c.bufs[i].valid ==>
               c.bufs[i].blockno < |disk| && c.bufs[i].data == LastStore(disk, run, c.bufs[i].blockno))
            && ((forall j :: 0 <= j < NBUF ==> !CachesValid(c, j, b)) ==> c.disk[b] == LastStore(disk, run, b))
  {
    var c := Exec(Init(disk), run).value;
    RunInv(disk, run);
    assert BufOk(c, i);
    LatestIsLastStore(disk, run, b);
    if c.bufs[i].valid {
      LatestIsLastStore(disk, run, c.bufs[i].blockno);
    }
  }

  /** A buffer that is referenced or dirty keeps its identity: log.c's blocks stay pinned, and a
      process that passed bget still waits on the block it asked for. */
  lemma PinnedIdentity(c: Cache, e: Event, i: nat)
    requires Inv(c) && Enabled(c, e) && i < NBUF
    requires c.bufs[i].refcnt > 0 || c.bufs[i].dirty
    ensures Holds(Step(c, e).bufs[i], c.bufs[i].dev, c.bufs[i].blockno)
  {
  }

  /** A miss recycles the unused buffer that was released longest ago, and fails only when every
      buffer is in use. */
  lemma LruVictim(c: Cache, i: nat)
    requires Inv(c) && i < NBUF && Recyclable(c.bufs[i])
    ensures Victim(c.bufs, c.order).Some?
    ensures c.released[Victim(c.bufs, c.order).value] <= c.released[i]
  {
    Covers(c.order, NBUF, i);
    var k := VictimIsLast(c.bufs, c.order, IndexOf(c.order, i));
  }

  lemma {:induction false} VictimIsLast(bufs: seq<Buf>, order: seq<nat>, k: nat) returns (v: nat)
    requires AllBelow(order, |bufs|) && k < |order| && Recyclable(bufs[order[k]])
    ensures k <= v < |order| && Victim(bufs, order) == Some(order[v])
  {
    v := |order| - 1;
    if !Recyclable(bufs[order[v]]) {
      v := VictimIsLast(bufs, order[..v], k);
    }
  }
}

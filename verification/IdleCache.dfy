/** What the log's block operations need from the cache in order to go through: nobody else is
    using a buffer, and two of the buffers are not pinned by the log. */
module IdleCache {
  import opened Collections
  import opened Layout
  import opened BufferCache
  import opened Log

  /** No process has a reference to a buffer. */
  predicate Idle(c: Cache)
  {
    |c.bufs| == NBUF && forall j :: 0 <= j < NBUF ==> c.bufs[j].refcnt == 0
  }

  /** j is the buffer of a change waiting for its transaction to be installed. */
  predicate Waiting(c: Cache, j: nat) { j < |c.bufs| && c.bufs[j].dirty }

  /** Two buffers are free of such changes: enough to copy a block. */
  ghost predicate Room(c: Cache)
  {
    |c.bufs| == NBUF && exists i, j :: 0 <= i < j < NBUF && !c.bufs[i].dirty && !c.bufs[j].dirty
  }

  ghost predicate Quiet(c: Cache) { Idle(c) && Room(c) }

  /** From c to c' no change began to wait, and none to the listed blocks waits any more. */
  ghost predicate Cleaned(c: Cache, c': Cache, done: seq<nat>)
  {
    && |c.bufs| == |c'.bufs|
    && forall j: nat :: Waiting(c', j) ==>
         Waiting(c, j) && c'.bufs[j].blockno == c.bufs[j].blockno && c.bufs[j].blockno !in done
  }

  /** The changes that wait are to the listed blocks. */
  ghost predicate WaitingIn(c: Cache, blocks: seq<nat>)
  {
    forall j: nat :: Waiting(c, j) ==> c.bufs[j].blockno in blocks
  }

  lemma CleanedTrans(c: Cache, c1: Cache, c2: Cache, done: seq<nat>, more: seq<nat>)
    requires Cleaned(c, c1, done) && Cleaned(c1, c2, more)
    ensures Cleaned(c, c2, done + more)
  {
  }

  lemma CleanedRoom(c: Cache, c': Cache, done: seq<nat>)
    requires Cleaned(c, c', done)
    ensures Room(c) ==> Room(c')
  {
    if Room(c) {
      var i: nat, j: nat :| 0 <= i < j < NBUF && !c.bufs[i].dirty && !c.bufs[j].dirty;
      assert !Waiting(c', i) && !Waiting(c', j);
    }
  }

  /** One more block of a loop over dsts. */
  lemma CleanedMore(c: Cache, c1: Cache, c2: Cache, dsts: seq<nat>, k: nat)
    requires k < |dsts| && Cleaned(c, c1, dsts[..k]) && Cleaned(c1, c2, [dsts[k]])
    ensures Cleaned(c, c2, dsts[..k + 1])
    ensures Room(c1) ==> Room(c2)
  {
    CleanedTrans(c, c1, c2, dsts[..k], [dsts[k]]);
    assert dsts[..k] + [dsts[k]] == dsts[..k + 1];
    CleanedRoom(c1, c2, [dsts[k]]);
  }

  /** Apart from one reference each to buffers x and y, nothing is in use. */
  predicate OnlyBusy(c: Cache, x: nat, y: nat)
  {
    |c.bufs| == NBUF && forall j :: 0 <= j < NBUF ==> c.bufs[j].refcnt == if j == x || j == y then 1 else 0
  }

  /** Where bget can recycle a buffer, it gives an unused one. */
  lemma BgetRuns(c: Cache, p: Pid, b: nat, busy: nat, spare: nat)
    requires Inv(c) && OnlyBusy(c, busy, busy)
    requires busy < NBUF ==> !Holds(c.bufs[busy], 1, b)
    requires spare < NBUF && spare != busy && !c.bufs[spare].dirty
    ensures Bget(c, p, 1, b).Some?
    ensures var i := Bget(c, p, 1, b).value.1; i < NBUF && i != busy
  {
    Covers(c.order, NBUF, spare);
    assert Recyclable(c.bufs[spare]);
  }

  lemma UnusedUnlocked(c: Cache, i: nat)
    requires Inv(c) && i < NBUF && c.bufs[i].refcnt == 0
    ensures c.bufs[i].holder == None && i !in c.touched
  {
    assert BufOk(c, i);
  }

  /** A bread of a block that no busy buffer caches goes through if some buffer can be recycled. */
  lemma BreadRuns(c: LiveCache, p: Pid, b: nat, busy: nat, spare: nat)
    requires OnlyBusy(c, busy, busy) && b < |c.disk|
    requires busy < NBUF ==> !Holds(c.bufs[busy], 1, b)
    requires spare < NBUF && spare != busy && !c.bufs[spare].dirty
    ensures Shape(c) && Bread(c, p, b).Some?
    ensures var (c', i) := Bread(c, p, b).value; i != busy && OnlyBusy(c', busy, i)
  {
    ReachableInv(c);
    BgetRuns(c, p, b, busy, spare);
    var i := Bget(c, p, 1, b).value.1;
    UnusedUnlocked(c, i);
    assert BufOk(c, i);
  }

  /** bread neither adds nor removes a change that waits. */
  lemma BreadWaiting(c: LiveCache, p: Pid, b: nat)
    requires Shape(c) && Bread(c, p, b).Some?
    ensures Cleaned(c, Bread(c, p, b).value.0, [])
  {
  }

  lemma BrelseFrees(c: LiveCache, p: Pid, i: nat)
    requires Owns(c, p, i) && i !in c.touched
    requires i < |c.refs| && i < |c.released| && i in c.order && c.bufs[i].refcnt > 0
    ensures Brelse(c, p, i).bufs == c.bufs[i := c.bufs[i].(holder := None, refcnt := c.bufs[i].refcnt - 1)]
  {
  }

  /** bwrite puts the change on disk: it waits no longer, and no other buffer caches the block. */
  lemma StoreWriteCleans(c: LiveCache, p: Pid, i: nat, d: Block)
    requires Owns(c, p, i) && c.bufs[i].valid && i !in c.touched
    ensures StoreWrite(c, p, i, d).bufs == c.bufs[i := c.bufs[i].(data := d, dirty := false)]
    ensures forall j :: 0 <= j < |c.bufs| && j != i && c.bufs[j].dirty ==> c.bufs[j].blockno != c.bufs[i].blockno
  {
    ReachableInv(c);
    assert BufOk(c, i);
    forall j | 0 <= j < |c.bufs| && j != i && c.bufs[j].dirty
      ensures c.bufs[j].blockno != c.bufs[i].blockno
    {
      assert BufOk(c, j);
    }
  }

  /** The two reads of the copying loops, in an idle cache with room. */
  lemma PairRuns(c: LiveCache, p: Pid, b: nat, b': nat)
    requires Quiet(c) && b < |c.disk| && b' < |c.disk| && b != b'
    ensures BreadPair(c, p, b, b').Some?
    ensures var (c', i, j) := BreadPair(c, p, b, b').value; OnlyBusy(c', i, j)
  {
    var x: nat, y: nat :| 0 <= x < y < NBUF && !c.bufs[x].dirty && !c.bufs[y].dirty;
    BreadRuns(c, p, b, NBUF, x);
    BreadOk(c, p, b);
    BreadWaiting(c, p, b);
    var (c1, i) := Bread(c, p, b).value;
    var spare := if x == i then y else x;
    assert !Waiting(c1, spare);
    BreadRuns(c1, p, b', i, spare);
  }

  lemma PairWaiting(c: LiveCache, p: Pid, b: nat, b': nat)
    requires BreadPair(c, p, b, b').Some?
    ensures Cleaned(c, BreadPair(c, p, b, b').value.0, [])
  {
    ReachableInv(c);
    BreadOk(c, p, b);
    BreadWaiting(c, p, b);
    BreadWaiting(Bread(c, p, b).value.0, p, b');
  }

  lemma CopyHeldBufs(c: LiveCache, p: Pid, to: nat, from: nat)
    requires Owns(c, p, to) && Owns(c, p, from) && to != from && c.bufs[to].valid
    requires to !in c.touched && from !in c.touched
    ensures |c.bufs| == NBUF && c.bufs[to].refcnt > 0 && c.bufs[from].refcnt > 0
    ensures var x, y := c.bufs[to], c.bufs[from];
            CopyHeld(c, p, to, from).bufs ==
            c.bufs[from := y.(holder := None, refcnt := y.refcnt - 1)]
                  [to := x.(data := y.data, dirty := false, holder := None, refcnt := x.refcnt - 1)]
  {
    ReachableInv(c);
    StoreWriteCleans(c, p, to, c.bufs[from].data);
    var c1 := StoreWrite(c, p, to, c.bufs[from].data);
    BrelseOk(c1, p, from);
    BrelseFrees(c1, p, from);
    var c2 := Brelse(c1, p, from);
    BrelseOk(c2, p, to);
    BrelseFrees(c2, p, to);
  }

  lemma CopyHeldFrees(c: LiveCache, p: Pid, to: nat, from: nat)
    requires Owns(c, p, to) && Owns(c, p, from) && to != from && c.bufs[to].valid
    requires to !in c.touched && from !in c.touched
    ensures Cleaned(c, CopyHeld(c, p, to, from), [c.bufs[to].blockno])
    ensures OnlyBusy(c, to, from) ==> Idle(CopyHeld(c, p, to, from))
  {
    CopyHeldBufs(c, p, to, from);
    StoreWriteCleans(c, p, to, c.bufs[from].data);
  }

  /** The bodies of write_log's and install_trans' loops go through. */
  lemma CopyRuns(c: LiveCache, p: Pid, dst: nat, src: nat, dstFirst: bool)
    requires Quiet(c) && dst < |c.disk| && src < |c.disk| && dst != src
    ensures CopyBlock(c, p, dst, src, dstFirst).Some?
    ensures Idle(CopyBlock(c, p, dst, src, dstFirst).value)
  {
    var first, second := if dstFirst then dst else src, if dstFirst then src else dst;
    PairRuns(c, p, first, second);
    var (c2, i, j) := BreadPair(c, p, first, second).value;
    if dstFirst {
      CopyHeldFrees(c2, p, i, j);
    } else {
      CopyHeldFrees(c2, p, j, i);
    }
  }

  /** The copied block's change no longer waits, whoever else uses the cache. */
  lemma CopyCleans(c: LiveCache, p: Pid, dst: nat, src: nat, dstFirst: bool)
    requires CopyBlock(c, p, dst, src, dstFirst).Some?
    ensures Cleaned(c, CopyBlock(c, p, dst, src, dstFirst).value, [dst])
  {
    var first, second := if dstFirst then dst else src, if dstFirst then src else dst;
    PairWaiting(c, p, first, second);
    var (c2, i, j) := BreadPair(c, p, first, second).value;
    if dstFirst {
      CopyHeldFrees(c2, p, i, j);
    } else {
      CopyHeldFrees(c2, p, j, i);
    }
  }

  /** A single bread, in an idle cache with room. */
  lemma SoloRuns(c: LiveCache, p: Pid, b: nat)
    requires Quiet(c) && b < |c.disk|
    ensures Shape(c) && Bread(c, p, b).Some?
    ensures var (c', i) := Bread(c, p, b).value; OnlyBusy(c', i, i)
  {
    var x: nat, y: nat :| 0 <= x < y < NBUF && !c.bufs[x].dirty && !c.bufs[y].dirty;
    BreadRuns(c, p, b, NBUF, x);
  }

  /** read_head's block. */
  lemma ReadRuns(c: LiveCache, p: Pid, b: nat)
    requires Quiet(c) && b < |c.disk|
    ensures ReadBlock(c, p, b).Some? && Idle(ReadBlock(c, p, b).value.0)
  {
    SoloRuns(c, p, b);
    BreadOk(c, p, b);
    var (c1, i) := Bread(c, p, b).value;
    BrelseOk(c1, p, i);
    BrelseFrees(c1, p, i);
  }

  lemma ReadCleans(c: LiveCache, p: Pid, b: nat)
    requires ReadBlock(c, p, b).Some?
    ensures Cleaned(c, ReadBlock(c, p, b).value.0, [])
  {
    ReachableInv(c);
    BreadOk(c, p, b);
    BreadWaiting(c, p, b);
    var (c1, i) := Bread(c, p, b).value;
    BrelseOk(c1, p, i);
    BrelseFrees(c1, p, i);
  }

  /** A block overwritten in its buffer, written out and released. */
  lemma RewriteFrees(c: LiveCache, p: Pid, i: nat, d: Block)
    requires Owns(c, p, i) && c.bufs[i].valid && i !in c.touched && |c.bufs| == NBUF
    ensures var c1 := StoreWrite(c, p, i, d);
            && i < |c1.refs| && i < |c1.released| && i in c1.order && c1.bufs[i].refcnt > 0
            && Cleaned(c, Brelse(c1, p, i), []) && (OnlyBusy(c, i, i) ==> Idle(Brelse(c1, p, i)))
  {
    StoreWriteCleans(c, p, i, d);
    var c1 := StoreWrite(c, p, i, d);
    BrelseOk(c1, p, i);
    BrelseFrees(c1, p, i);
  }

  /** write_head */
  lemma HeadRuns(c: LiveCache, p: Pid, start: nat, blocks: seq<Uint>)
    requires |blocks| <= LOGSIZE && Quiet(c) && start < |c.disk|
    ensures WriteHead(c, p, start, blocks).Some? && Idle(WriteHead(c, p, start, blocks).value)
  {
    SoloRuns(c, p, start);
    BreadOk(c, p, start);
    var (c1, i) := Bread(c, p, start).value;
    RewriteFrees(c1, p, i, Header(c1.bufs[i].data, blocks));
  }

  lemma HeadCleans(c: LiveCache, p: Pid, start: nat, blocks: seq<Uint>)
    requires |blocks| <= LOGSIZE && WriteHead(c, p, start, blocks).Some?
    ensures Cleaned(c, WriteHead(c, p, start, blocks).value, [])
  {
    ReachableInv(c);
    BreadOk(c, p, start);
    BreadWaiting(c, p, start);
    var (c1, i) := Bread(c, p, start).value;
    RewriteFrees(c1, p, i, Header(c1.bufs[i].data, blocks));
  }

  // ----- a logged update ----------------------------------------------------------------------

  lemma OpenRuns(c: LiveCache, p: Pid, b: nat, d: Block)
    requires Quiet(c) && b < |c.disk|
    ensures OpenUpdate(c, p, b, d).Some?
    ensures var (c', i) := OpenUpdate(c, p, b, d).value; OnlyBusy(c', i, i)
  {
    SoloRuns(c, p, b);
    BreadOk(c, p, b);
  }

  lemma OpenWaiting(c: LiveCache, p: Pid, b: nat, d: Block)
    requires OpenUpdate(c, p, b, d).Some?
    ensures forall blocks :: WaitingIn(c, blocks) ==> WaitingIn(OpenUpdate(c, p, b, d).value.0, blocks)
  {
    ReachableInv(c);
    BreadOk(c, p, b);
    BreadWaiting(c, p, b);
  }

  /** log_write's mark and brelse: the change waits, and nothing else new does. */
  lemma CloseUpdate(c: LiveCache, p: Pid, i: nat, blocks: seq<Uint>)
    requires Owns(c, p, i) && c.bufs[i].valid && WaitingIn(c, blocks) && c.bufs[i].blockno < UINT_LIMIT
    ensures var c1 := MarkDirty(c, i);
            && Reachable(c1) && i < |c1.refs| && i < |c1.released| && i in c1.order && c1.bufs[i].refcnt > 0
            && WaitingIn(Brelse(c1, p, i), Listed(blocks, c.bufs[i].blockno))
            && (|c.bufs| == NBUF && OnlyBusy(c, i, i) ==> Idle(Brelse(c1, p, i)))
  {
    ReachableInv(c);
    ReachableStep(c, DirtyEvent(p, i));
    var c1 := MarkDirty(c, i);
    BrelseOk(c1, p, i);
    BrelseFrees(c1, p, i);
    forall j: nat | Waiting(Brelse(c1, p, i), j)
      ensures c1.bufs[j].blockno in Listed(blocks, c.bufs[i].blockno)
    {
      if j != i {
        assert Waiting(c, j);
      }
    }
  }

  // ----- room from the length of the log ------------------------------------------------------

  /** How many of the first n buffers have a change that waits. */
  function WaitingCount(c: Cache, n: nat): (r: nat)
    requires n <= |c.bufs|
    ensures r <= n
  {
    if n == 0 then 0 else WaitingCount(c, n - 1) + if c.bufs[n - 1].dirty then 1 else 0
  }

  /** The blocks changed in the first n buffers: as many as buffers, since no two cache the same one. */
  lemma {:induction false} WaitingBlocks(c: Cache, blocks: seq<nat>, n: nat) returns (s: set<nat>)
    requires Inv(c) && n <= NBUF && WaitingIn(c, blocks)
    ensures |s| == WaitingCount(c, n)
    ensures forall b :: b in s ==> b in blocks && exists j: nat :: j < n && Waiting(c, j) && c.bufs[j].blockno == b
  {
    s := {};
    if n > 0 {
      s := WaitingBlocks(c, blocks, n - 1);
      if c.bufs[n - 1].dirty {
        assert BufOk(c, n - 1) && Waiting(c, n - 1);
        forall j: nat | j < n - 1 && Waiting(c, j)
          ensures c.bufs[j].blockno != c.bufs[n - 1].blockno
        {
          assert BufOk(c, j);
        }
        s := s + {c.bufs[n - 1].blockno};
      }
    }
  }

  lemma {:induction false} CleanOnes(c: Cache, n: nat)
    requires n <= |c.bufs|
    ensures WaitingCount(c, n) + 1 <= n ==> exists j: nat :: j < n && !c.bufs[j].dirty
    ensures WaitingCount(c, n) + 2 <= n ==> exists i: nat, j: nat :: i < j < n && !c.bufs[i].dirty && !c.bufs[j].dirty
  {
    if n > 0 {
      CleanOnes(c, n - 1);
    }
  }

  /** A transaction of at most NBUF - 2 blocks leaves room. */
  lemma LogLeavesRoom(c: Cache, blocks: seq<nat>)
    requires Inv(c) && WaitingIn(c, blocks) && Distinct(blocks) && |blocks| <= NBUF - 2
    ensures Room(c)
  {
    var s := WaitingBlocks(c, blocks, NBUF);
    DistinctSize(blocks);
    SubsetSize(s, Elements(blocks));
    CleanOnes(c, NBUF);
    var i: nat, j: nat :| i < j < NBUF && !c.bufs[i].dirty && !c.bufs[j].dirty;
  }

  lemma BootQuiet(disk: seq<Block>)
    ensures Quiet(Init(disk)) && forall j: nat :: !Waiting(Init(disk), j)
  {
    var c := Init(disk);
    assert !c.bufs[0].dirty && !c.bufs[1].dirty;
  }
}

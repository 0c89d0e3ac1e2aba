/** The redo log (log.c) over the buffer cache: commit, installation, recovery, and what a crash
    after any single disk write can leave behind. */
module Log {
  import opened Collections
  import opened Layout
  import opened BufferCache

  const LOGSIZE := 30

  /** A cache state of some run. */
  type LiveCache = c: Cache | Reachable(c) ghost witness InitReachable([])

  function InitReachable(disk: seq<Block>): (c: Cache)
    ensures Reachable(c) && c == Init(disk)
  {
    assert Exec(Init(disk), []) == Some(Init(disk));
    Init(disk)
  }

  // ----- bread, brelse and the two block-copying loop bodies -----------------------------------

  /** bread; None when bget panics, the block is out of range, or the buffer is held by another
      process (the caller would sleep). */
  function Bread(c: Cache, p: Pid, b: nat): (r: Option<(Cache, nat)>)
    requires Shape(c)
  {
    match Bget(c, p, 1, b)
    case None => None
    case Some((c1, i)) =>
      if i >= |c1.bufs| || c1.bufs[i].holder != None then None
      else
        var c2 := LockBuf(c1, p, i);
        if c2.bufs[i].valid then Some((c2, i))
        else if IderwOk(c2, i) then Some((Iderw(c2, i), i))
        else None
  }

  function Brelse(c: Cache, p: Pid, i: nat): (r: Cache)
    requires i < |c.bufs| && i < |c.refs| && i < |c.released| && i in c.order && c.bufs[i].refcnt > 0
  {
    Unref(Unlock(c, i), p, i)
  }

  lemma BreadOk(c: LiveCache, p: Pid, b: nat)
    requires Shape(c) && Bread(c, p, b).Some?
    ensures var (c', i) := Bread(c, p, b).value;
            && Reachable(c') && Shape(c') && Owns(c', p, i) && Holds(c'.bufs[i], 1, b) && c'.bufs[i].valid
            && b < |c.disk| && c'.bufs[i].data == c.logical[b]
            && c'.disk == c.disk && c'.logical == c.logical && c'.touched == c.touched
            && i !in c.touched && c.bufs[i].holder == None
            && forall j :: 0 <= j < NBUF && c.bufs[j].holder.Some? ==> c'.bufs[j] == c.bufs[j]
  {
    ReachableInv(c);
    BgetInv(c, p, b);
    ReachableStep(c, GetEvent(p, b));
    var (c1, i) := Bget(c, p, 1, b).value;
    assert BufOk(c, i) && BufOk(c1, i);
    forall j | 0 <= j < NBUF && c.bufs[j].holder.Some?
      ensures j != i ==> c1.bufs[j] == c.bufs[j]
    {
      assert BufOk(c, j);
    }
    var c2 := LockBuf(c1, p, i);
    LockInv(c1, p, i);
    ReachableStep(c1, LockEvent(p, i));
    assert BufOk(c2, i);
    if !c2.bufs[i].valid {
      ReadInv(c2, i);
      ReachableStep(c2, ReadEvent(p, i));
    }
  }

  lemma BrelseOk(c: LiveCache, p: Pid, i: nat)
    requires Owns(c, p, i) && i !in c.touched
    ensures i < |c.bufs| && i < |c.refs| && i < |c.released| && i in c.order && c.bufs[i].refcnt > 0
    ensures var c' := Brelse(c, p, i);
            && Reachable(c') && |c'.bufs| == |c.bufs|
            && c'.disk == c.disk && c'.logical == c.logical && c'.touched == c.touched
            && forall j :: 0 <= j < |c.bufs| && j != i ==> c'.bufs[j] == c.bufs[j]
  {
    ReachableInv(c);
    assert BufOk(c, i);
    Covers(c.order, NBUF, i);
    ReachableStep(c, UnlockEvent(p, i));
    UnlockInv(c, p, i);
    ReachableStep(Unlock(c, i), UnrefEvent(p, i));
  }

  /** The holder overwrites a buffer and calls bwrite. */
  function StoreWrite(c: LiveCache, p: Pid, i: nat, d: Block): (r: LiveCache)
    requires Owns(c, p, i) && c.bufs[i].valid && i !in c.touched
    ensures |r.bufs| == |c.bufs| && Owns(r, p, i) && c.bufs[i].blockno < |c.disk| == |c.logical|
    ensures r.disk == c.disk[c.bufs[i].blockno := d] && r.logical == c.logical[c.bufs[i].blockno := d]
    ensures r.touched == c.touched
    ensures forall j :: 0 <= j < |c.bufs| && j != i ==> r.bufs[j] == c.bufs[j]
  {
    ReachableInv(c);
    assert BufOk(c, i);
    ReachableStep(c, StoreEvent(p, i, d));
    var c1 := Store(c, i, d);
    StoreInv(c, p, i, d);
    ReachableStep(c1, WriteEvent(p, i));
    Bwrite(c1, i)
  }

  /** The copy between two held buffers, written out, and both released. */
  function CopyHeld(c: LiveCache, p: Pid, to: nat, from: nat): (r: LiveCache)
    requires Owns(c, p, to) && Owns(c, p, from) && to != from && c.bufs[to].valid
    requires to !in c.touched && from !in c.touched
    ensures c.bufs[to].blockno < |c.disk| == |c.logical|
    ensures r.disk == c.disk[c.bufs[to].blockno := c.bufs[from].data]
    ensures r.logical == c.logical[c.bufs[to].blockno := c.bufs[from].data]
    ensures r.touched == c.touched
  {
    var c1 := StoreWrite(c, p, to, c.bufs[from].data);
    BrelseOk(c1, p, from);
    var c2 := Brelse(c1, p, from);
    BrelseOk(c2, p, to);
    Brelse(c2, p, to)
  }

  /** Two blocks read, in this order, and their buffers held. */
  function BreadPair(c: LiveCache, p: Pid, b: nat, b': nat): (r: Option<(LiveCache, nat, nat)>)
    ensures r.Some? ==>
              var (c', i, j) := r.value;
              && Owns(c', p, i) && Owns(c', p, j) && i != j && c'.bufs[i].valid && c'.bufs[j].valid
              && i !in c.touched && j !in c.touched && b < |c.logical| && b' < |c.logical|
              && c'.bufs[i].blockno == b && c'.bufs[j].blockno == b'
              && c'.bufs[i].data == c.logical[b] && c'.bufs[j].data == c.logical[b']
              && c'.disk == c.disk && c'.logical == c.logical && c'.touched == c.touched
  {
    ReachableInv(c);
    match Bread(c, p, b)
    case None => None
    case Some((c1, i)) =>
      BreadOk(c, p, b);
      match Bread(c1, p, b')
      case None => None
      case Some((c2, j)) =>
        BreadOk(c1, p, b');
        Some((c2, i, j))
  }

  /** The body of the loops in write_log and install_trans: read both blocks, copy, write dst. */
  function CopyBlock(c: LiveCache, p: Pid, dst: nat, src: nat, dstFirst: bool): (r: Option<LiveCache>)
    ensures r.Some? ==>
              && dst < |c.disk| == |c.logical| && src < |c.disk|
              && r.value.disk == c.disk[dst := c.logical[src]]
              && r.value.logical == c.logical[dst := c.logical[src]]
              && r.value.touched == c.touched
  {
    if dstFirst then
      match BreadPair(c, p, dst, src)
      case None => None
      case Some((c2, i, j)) => Some(CopyHeld(c2, p, i, j))
    else
      match BreadPair(c, p, src, dst)
      case None => None
      case Some((c2, i, j)) => Some(CopyHeld(c2, p, j, i))
  }

  /** bread and brelse: the contents of a block. */
  function ReadBlock(c: LiveCache, p: Pid, b: nat): (r: Option<(LiveCache, Block)>)
    ensures r.Some? ==> b < |c.logical| && r.value.1 == c.logical[b]
    ensures r.Some? ==> var c' := r.value.0; c'.disk == c.disk && c'.logical == c.logical && c'.touched == c.touched
  {
    ReachableInv(c);
    match Bread(c, p, b)
    case None => None
    case Some((c1, i)) =>
      BreadOk(c, p, b);
      BrelseOk(c1, p, i);
      Some((Brelse(c1, p, i), c1.bufs[i].data))
  }

  /** bread and a store into the buffer: the first half of a logged update. */
  function OpenUpdate(c: LiveCache, p: Pid, b: nat, d: Block): (r: Option<(LiveCache, nat)>)
    ensures r.Some? ==>
              var (c', i) := r.value;
              && Owns(c', p, i) && c'.bufs[i].valid && c'.bufs[i].blockno == b < |c.logical|
              && c'.disk == c.disk && c'.logical == c.logical[b := d] && c'.touched == c.touched + {i}
              && i !in c.touched
  {
    ReachableInv(c);
    match Bread(c, p, b)
    case None => None
    case Some((c1, i)) =>
      BreadOk(c, p, b);
      ReachableStep(c1, StoreEvent(p, i, d));
      Some((Store(c1, i, d), i))
  }

  // ----- the log header -----------------------------------------------------------------------

  /** struct logheader in the header block: n, then block[0], block[1], ... Entries past n keep
      whatever the block held. */
  function Header(b: Block, blocks: seq<Uint>): (r: Block)
    requires |blocks| <= LOGSIZE
    ensures Word(r, 0) == |blocks|
    ensures forall k :: 0 <= k < |blocks| ==> Word(r, k + 1) == blocks[k]
  {
    WordRoundTrip(b, 0, |blocks|);
    SetEntries(SetWord(b, 0, |blocks|), blocks)
  }

  function SetEntries(b: Block, blocks: seq<Uint>): (r: Block)
    requires |blocks| <= LOGSIZE
    ensures Word(r, 0) == Word(b, 0)
    ensures forall k :: 0 <= k < |blocks| ==> Word(r, k + 1) == blocks[k]
  {
    if blocks == [] then b
    else
      var n := |blocks| - 1;
      var b1 := SetEntries(b, blocks[..n]);
      WordRoundTrip(b1, n + 1, blocks[n]);
      WordFrame(b1, n + 1, blocks[n], 0);
      assert forall k :: 0 <= k < n ==> Word(SetWord(b1, n + 1, blocks[n]), k + 1) == blocks[k] by {
        forall k | 0 <= k < n ensures Word(SetWord(b1, n + 1, blocks[n]), k + 1) == blocks[k] {
          WordFrame(b1, n + 1, blocks[n], k + 1);
        }
      }
      SetWord(b1, n + 1, blocks[n])
  }

  /** write_head: bread, fill in, bwrite, brelse. */
  function WriteHead(c: LiveCache, p: Pid, start: nat, blocks: seq<Uint>): (r: Option<LiveCache>)
    requires |blocks| <= LOGSIZE
    ensures r.Some? ==>
              && start < |c.disk| == |c.logical|
              && r.value.disk == c.disk[start := Header(c.logical[start], blocks)]
              && r.value.logical == c.logical[start := Header(c.logical[start], blocks)]
              && r.value.touched == c.touched
  {
    ReachableInv(c);
    match Bread(c, p, start)
    case None => None
    case Some((c1, i)) =>
      BreadOk(c, p, start);
      var h := Header(c1.bufs[i].data, blocks);
      var c2 := StoreWrite(c1, p, i, h);
      BrelseOk(c2, p, i);
      Some(Brelse(c2, p, i))
  }

  // ----- what recovery makes of a disk --------------------------------------------------------

  /** log.start and log.size. */
  datatype Area = Area(start: nat, size: nat)

  predicate IsHome(a: Area, b: nat) { b < a.start || a.start + a.size <= b }

  predicate AreaOk(a: Area, d: seq<Block>) { 0 < a.size && a.start + a.size <= |d| }

  /** The block numbers in the on-disk header. */
  function HeadList(a: Area, d: seq<Block>): (r: seq<Uint>)
    requires a.start < |d| && Word(d[a.start], 0) <= LOGSIZE
  {
    seq(Word(d[a.start], 0), k requires 0 <= k < LOGSIZE => Word(d[a.start], k + 1))
  }

  /** Distinct blocks of the disk, all outside the log, few enough to log. */
  predicate ListOk(a: Area, d: seq<Block>, homes: seq<Uint>)
  {
    && |homes| <= LOGSIZE && |homes| < a.size && Distinct(homes)
    && forall k :: 0 <= k < |homes| ==> homes[k] < |d| && IsHome(a, homes[k])
  }

  /** A header recovery can act on. */
  predicate HeaderOk(a: Area, d: seq<Block>)
  {
    AreaOk(a, d) && Word(d[a.start], 0) <= LOGSIZE && ListOk(a, d, HeadList(a, d))
  }

  /** The logged copies of the n listed blocks. */
  function Copies(a: Area, d: seq<Block>, n: nat): (r: seq<Block>)
    requires a.start + n < |d|
  {
    d[a.start + 1..a.start + 1 + n]
  }

  /** x with the first k copies stored at their homes. */
  function Install(x: seq<Block>, homes: seq<nat>, copies: seq<Block>, k: nat): (r: seq<Block>)
    requires k <= |homes| == |copies|
    ensures |r| == |x|
  {
    if k == 0 then x
    else
      var y := Install(x, homes, copies, k - 1);
      if homes[k - 1] < |x| then y[homes[k - 1] := copies[k - 1]] else y
  }

  /** The disks that installation of the first k blocks runs through. */
  function InstallTrace(d: seq<Block>, homes: seq<nat>, copies: seq<Block>, k: nat): (r: seq<seq<Block>>)
    requires k <= |homes| == |copies|
    ensures |r| == k
  {
    if k == 0 then [] else InstallTrace(d, homes, copies, k - 1) + [Install(d, homes, copies, k)]
  }

  /** The disk after the first k block writes of recover_from_log on d: k installed blocks, and
      finally the cleared header. */
  function RecoveryDisk(a: Area, d: seq<Block>, k: nat): (r: seq<Block>)
    requires HeaderOk(a, d) && k <= |HeadList(a, d)| + 1
  {
    var homes := HeadList(a, d);
    var copies := Copies(a, d, |homes|);
    if k <= |homes| then Install(d, homes, copies, k)
    else Install(d, homes, copies, |homes|)[a.start := Header(d[a.start], [])]
  }

  /** Contents outside the log area, which is all the file system ever sees. */
  function HomeOnly(a: Area, d: seq<Block>): (r: seq<Block>)
  {
    seq(|d|, b requires 0 <= b < |d| => if IsHome(a, b) then d[b] else ZERO_BLOCK)
  }

  /** What an uninterrupted recovery of d leaves the file system with. */
  function Recovered(a: Area, d: seq<Block>): (r: Option<seq<Block>>)
  {
    if HeaderOk(a, d) then Some(HomeOnly(a, RecoveryDisk(a, d, |HeadList(a, d)| + 1))) else None
  }

  lemma {:induction false} InstallAt(x: seq<Block>, homes: seq<nat>, copies: seq<Block>, k: nat, b: nat)
    requires k <= |homes| == |copies| && b < |x|
    ensures (forall j :: 0 <= j < k ==> homes[j] != b) ==> Install(x, homes, copies, k)[b] == x[b]
    ensures Distinct(homes) ==> forall j :: 0 <= j < k && homes[j] == b ==> Install(x, homes, copies, k)[b] == copies[j]
  {
    if k > 0 {
      InstallAt(x, homes, copies, k - 1, b);
    }
  }

  /** The log area is out of reach of installation. */
  lemma InstallKeepsLog(a: Area, x: seq<Block>, homes: seq<Uint>, copies: seq<Block>, k: nat, b: nat)
    requires ListOk(a, x, homes) && k <= |homes| == |copies| && b < |x| && !IsHome(a, b)
    ensures Install(x, homes, copies, k)[b] == x[b]
  {
    InstallAt(x, homes, copies, k, b);
  }

  /** Installing a prefix first and then everything is installing everything. */
  lemma InstallAgain(x: seq<Block>, homes: seq<Uint>, copies: seq<Block>, k: nat)
    requires k <= |homes| == |copies| && Distinct(homes)
    ensures var n := |homes|;
            Install(Install(x, homes, copies, k), homes, copies, n) == Install(x, homes, copies, n)
  {
    var y := Install(x, homes, copies, k);
    forall b: nat | b < |x|
      ensures Install(y, homes, copies, |homes|)[b] == Install(x, homes, copies, |homes|)[b]
    {
      InstallAt(x, homes, copies, |homes|, b);
      InstallAt(y, homes, copies, |homes|, b);
      InstallAt(x, homes, copies, k, b);
    }
  }

  /** With an empty header, recovery changes nothing. */
  lemma ClearedRecovers(a: Area, d: seq<Block>)
    requires AreaOk(a, d) && Word(d[a.start], 0) == 0
    ensures Recovered(a, d) == Some(HomeOnly(a, d))
  {
    assert HomeOnly(a, d[a.start := Header(d[a.start], [])]) == HomeOnly(a, d);
  }

  lemma FullRecovery(a: Area, d: seq<Block>)
    requires HeaderOk(a, d)
    ensures Recovered(a, d) ==
            Some(HomeOnly(a, Install(d, HeadList(a, d), Copies(a, d, |HeadList(a, d)|), |HeadList(a, d)|)))
  {
    var e := Install(d, HeadList(a, d), Copies(a, d, |HeadList(a, d)|), |HeadList(a, d)|);
    assert HomeOnly(a, e[a.start := Header(d[a.start], [])]) == HomeOnly(a, e);
  }

  lemma InstallRecovers(a: Area, d: seq<Block>, k: nat)
    requires HeaderOk(a, d) && k <= |HeadList(a, d)|
    ensures var homes := HeadList(a, d);
            Recovered(a, Install(d, homes, Copies(a, d, |homes|), k)) == Recovered(a, d)
  {
    var homes := HeadList(a, d);
    var n := |homes|;
    var copies := Copies(a, d, n);
    var e := Install(d, homes, copies, k);
    forall b: nat | b < |d| && !IsHome(a, b)
      ensures e[b] == d[b]
    {
      InstallKeepsLog(a, d, homes, copies, k, b);
    }
    assert e[a.start] == d[a.start];
    assert HeadList(a, e) == homes && Copies(a, e, n) == copies;
    FullRecovery(a, d);
    FullRecovery(a, e);
    InstallAgain(d, homes, copies, k);
  }

  /** A crash after any write of recovery leaves a disk that recovers to the same contents. */
  lemma RecoveryIdempotent(a: Area, d: seq<Block>, k: nat)
    requires HeaderOk(a, d) && k <= |HeadList(a, d)| + 1
    ensures Recovered(a, RecoveryDisk(a, d, k)) == Recovered(a, d)
  {
    if k <= |HeadList(a, d)| {
      InstallRecovers(a, d, k);
    } else {
      ClearedRecovers(a, RecoveryDisk(a, d, k));
    }
  }

  /** ds[i + 1] is the disk left by a crash somewhere inside recovery of ds[i]. */
  ghost predicate CrashChain(a: Area, ds: seq<seq<Block>>)
  {
    |ds| > 0 &&
    forall i :: 0 <= i < |ds| - 1 ==> CrashedInRecovery(a, ds[i], ds[i + 1])
  }

  ghost predicate CrashedInRecovery(a: Area, d: seq<Block>, e: seq<Block>)
  {
    HeaderOk(a, d) && exists k: nat :: k <= |HeadList(a, d)| + 1 && e == RecoveryDisk(a, d, k)
  }

  /** Any number of crashes inside recovery itself change nothing. */
  lemma {:induction false} ChainRecovers(a: Area, ds: seq<seq<Block>>)
    requires CrashChain(a, ds)
    ensures Recovered(a, ds[|ds| - 1]) == Recovered(a, ds[0])
  {
    if |ds| > 1 {
      var n := |ds| - 1;
      ChainRecovers(a, ds[..n]);
      assert CrashedInRecovery(a, ds[n - 1], ds[n]);
      var k: nat :| k <= |HeadList(a, ds[n - 1])| + 1 && ds[n] == RecoveryDisk(a, ds[n - 1], k);
      RecoveryIdempotent(a, ds[n - 1], k);
    }
  }

  // ----- what commit writes -------------------------------------------------------------------

  /** The log blocks that hold n copies. */
  function Slots(a: Area, n: nat): (r: seq<nat>)
  {
    seq(n, (k: nat) => a.start + 1 + k)
  }

  function Pick(x: seq<Block>, bs: seq<nat>): (r: seq<Block>)
  {
    seq(|bs|, k requires 0 <= k < |bs| => if bs[k] < |x| then x[bs[k]] else ZERO_BLOCK)
  }

  /** The disk after the k-th bwrite of commit(), started on disk d with latest contents l: the
      log blocks, the header, the home blocks, the cleared header. */
  function CommitDisk(a: Area, d: seq<Block>, l: seq<Block>, blocks: seq<Uint>, k: nat): (r: seq<Block>)
    requires a.start < |d| && |blocks| <= LOGSIZE && k <= 2 * |blocks| + 2
  {
    var n := |blocks|;
    var copies := Pick(l, blocks);
    if k <= n then Install(d, Slots(a, n), copies, k)
    else
      var d2 := Committed(a, d, l, blocks);
      if k <= 2 * n + 1 then Install(d2, blocks, copies, k - n - 1)
      else Cleared(a, d2, copies, blocks)
  }

  /** The disk once the header has landed. */
  function Committed(a: Area, d: seq<Block>, l: seq<Block>, blocks: seq<Uint>): (r: seq<Block>)
    requires a.start < |d| && |blocks| <= LOGSIZE
    ensures |r| == |d|
  {
    Install(d, Slots(a, |blocks|), Pick(l, blocks), |blocks|)[a.start := Header(d[a.start], blocks)]
  }

  lemma CommittedShape(a: Area, d: seq<Block>, l: seq<Block>, blocks: seq<Uint>)
    requires AreaOk(a, d) && |l| == |d| && ListOk(a, d, blocks)
    ensures var d2 := Committed(a, d, l, blocks);
            && HeaderOk(a, d2) && HeadList(a, d2) == blocks && Copies(a, d2, |blocks|) == Pick(l, blocks)
            && forall b: nat :: b < |d| && IsHome(a, b) ==> d2[b] == d[b]
  {
    var n := |blocks|;
    var slots, copies := Slots(a, n), Pick(l, blocks);
    var d2 := Committed(a, d, l, blocks);
    assert HeadList(a, d2) == blocks;
    forall b: nat | b < |d| && b != a.start
      ensures IsHome(a, b) ==> d2[b] == d[b]
      ensures a.start < b <= a.start + n ==> d2[b] == copies[b - a.start - 1]
    {
      InstallAt(d, slots, copies, n, b);
      if a.start < b <= a.start + n {
        assert slots[b - a.start - 1] == b;
      }
    }
    assert Copies(a, d2, n) == copies;
  }

  /** Every change not on disk is listed for the log. */
  predicate Pending(a: Area, d: seq<Block>, l: seq<Block>, blocks: seq<Uint>)
  {
    |l| == |d| && forall b :: 0 <= b < |d| && IsHome(a, b) && l[b] != d[b] ==> b in blocks
  }

  /** Installing the logged copies gives the latest contents. */
  lemma CommittedInstalls(a: Area, d: seq<Block>, l: seq<Block>, blocks: seq<Uint>)
    requires AreaOk(a, d) && ListOk(a, d, blocks) && Pending(a, d, l, blocks)
    ensures HomeOnly(a, Install(Committed(a, d, l, blocks), blocks, Pick(l, blocks), |blocks|)) == HomeOnly(a, l)
  {
    var d2 := Committed(a, d, l, blocks);
    CommittedShape(a, d, l, blocks);
    var copies := Pick(l, blocks);
    var e := Install(d2, blocks, copies, |blocks|);
    forall b: nat | b < |d| && IsHome(a, b)
      ensures e[b] == l[b]
    {
      InstallAt(d2, blocks, copies, |blocks|, b);
      if b in blocks {
        var j :| 0 <= j < |blocks| && blocks[j] == b;
        assert copies[j] == l[b];
      }
    }
    SameHomes(a, e, l);
  }

  lemma SameHomes(a: Area, x: seq<Block>, y: seq<Block>)
    requires |x| == |y| && forall b: nat :: b < |x| && IsHome(a, b) ==> x[b] == y[b]
    ensures HomeOnly(a, x) == HomeOnly(a, y)
  {
  }

  lemma CommittedRecovers(a: Area, d: seq<Block>, l: seq<Block>, blocks: seq<Uint>)
    requires AreaOk(a, d) && ListOk(a, d, blocks) && Pending(a, d, l, blocks)
    ensures Recovered(a, Committed(a, d, l, blocks)) == Some(HomeOnly(a, l))
  {
    CommittedShape(a, d, l, blocks);
    CommittedInstalls(a, d, l, blocks);
    FullRecovery(a, Committed(a, d, l, blocks));
  }

  lemma BeforeCommitPoint(a: Area, d: seq<Block>, l: seq<Block>, blocks: seq<Uint>, k: nat)
    requires AreaOk(a, d) && ListOk(a, d, blocks) && |l| == |d| && Word(d[a.start], 0) == 0
    requires k <= |blocks|
    ensures Recovered(a, CommitDisk(a, d, l, blocks, k)) == Some(HomeOnly(a, d))
  {
    var e := CommitDisk(a, d, l, blocks, k);
    forall b: nat | b < |d|
      ensures IsHome(a, b) || b == a.start ==> e[b] == d[b]
    {
      InstallAt(d, Slots(a, |blocks|), Pick(l, blocks), k, b);
    }
    ClearedRecovers(a, e);
    assert HomeOnly(a, e) == HomeOnly(a, d);
  }

  lemma DuringInstall(a: Area, d: seq<Block>, l: seq<Block>, blocks: seq<Uint>, k: nat)
    requires AreaOk(a, d) && ListOk(a, d, blocks) && Pending(a, d, l, blocks) && k <= |blocks|
    ensures Recovered(a, Install(Committed(a, d, l, blocks), blocks, Pick(l, blocks), k)) == Some(HomeOnly(a, l))
  {
    CommittedShape(a, d, l, blocks);
    CommittedRecovers(a, d, l, blocks);
    InstallRecovers(a, Committed(a, d, l, blocks), k);
  }

  lemma AfterClear(a: Area, d: seq<Block>, l: seq<Block>, blocks: seq<Uint>)
    requires AreaOk(a, d) && ListOk(a, d, blocks) && Pending(a, d, l, blocks)
    ensures Recovered(a, Cleared(a, Committed(a, d, l, blocks), Pick(l, blocks), blocks)) == Some(HomeOnly(a, l))
  {
    var d2 := Committed(a, d, l, blocks);
    var e := Cleared(a, d2, Pick(l, blocks), blocks);
    CommittedInstalls(a, d, l, blocks);
    ClearedRecovers(a, e);
    assert HomeOnly(a, e) == HomeOnly(a, Install(d2, blocks, Pick(l, blocks), |blocks|));
  }

  /** Crash atomicity: a crash after any disk write inside commit() recovers to the contents before
      the transaction, or to all of its changes; to all of them once the header has landed. */
  lemma CommitAtomic(a: Area, d: seq<Block>, l: seq<Block>, blocks: seq<Uint>, k: nat)
    requires AreaOk(a, d) && ListOk(a, d, blocks) && Pending(a, d, l, blocks) && Word(d[a.start], 0) == 0
    requires k <= 2 * |blocks| + 2
    ensures Recovered(a, CommitDisk(a, d, l, blocks, k)) == Some(HomeOnly(a, if k <= |blocks| then d else l))
  {
    var n := |blocks|;
    var d2 := Committed(a, d, l, blocks);
    if k <= n {
      BeforeCommitPoint(a, d, l, blocks, k);
    } else if k <= 2 * n + 1 {
      assert CommitDisk(a, d, l, blocks, k) == Install(d2, blocks, Pick(l, blocks), k - n - 1);
      DuringInstall(a, d, l, blocks, k - n - 1);
    } else {
      assert CommitDisk(a, d, l, blocks, k) == Cleared(a, d2, Pick(l, blocks), blocks);
      AfterClear(a, d, l, blocks);
    }
  }

  /** The disks that write_log and the first write_head run through. */
  function LogTrace(a: Area, d: seq<Block>, l: seq<Block>, blocks: seq<Uint>): (r: seq<seq<Block>>)
    requires a.start < |d| && |blocks| <= LOGSIZE
  {
    InstallTrace(d, Slots(a, |blocks|), Pick(l, blocks), |blocks|) + [Committed(a, d, l, blocks)]
  }

  /** The disks that install_trans and the clearing write_head run through. */
  function InstallPhase(a: Area, d2: seq<Block>, copies: seq<Block>, blocks: seq<Uint>): (r: seq<seq<Block>>)
    requires a.start < |d2| && |copies| == |blocks|
  {
    InstallTrace(d2, blocks, copies, |blocks|) + [Cleared(a, d2, copies, blocks)]
  }

  function Cleared(a: Area, d2: seq<Block>, copies: seq<Block>, blocks: seq<Uint>): (r: seq<Block>)
    requires a.start < |d2| && |copies| == |blocks|
  {
    Install(d2, blocks, copies, |blocks|)[a.start := Header(d2[a.start], [])]
  }

  /** All the disks that commit() runs through, in order. */
  function CommitTrace(a: Area, d: seq<Block>, l: seq<Block>, blocks: seq<Uint>): (r: seq<seq<Block>>)
    requires a.start < |d| && |blocks| <= LOGSIZE
  {
    LogTrace(a, d, l, blocks) + InstallPhase(a, Committed(a, d, l, blocks), Pick(l, blocks), blocks)
  }

  lemma CommitTraceAt(a: Area, d: seq<Block>, l: seq<Block>, blocks: seq<Uint>, k: nat)
    requires a.start < |d| && |blocks| <= LOGSIZE && k < 2 * |blocks| + 2
    ensures |CommitTrace(a, d, l, blocks)| == 2 * |blocks| + 2
    ensures CommitTrace(a, d, l, blocks)[k] == CommitDisk(a, d, l, blocks, k + 1)
  {
    var n := |blocks|;
    var d2 := Committed(a, d, l, blocks);
    var copies := Pick(l, blocks);
    var t1, t2 := InstallTrace(d, Slots(a, n), copies, n), InstallTrace(d2, blocks, copies, n);
    var t := CommitTrace(a, d, l, blocks);
    assert t == (t1 + [d2]) + (t2 + [Cleared(a, d2, copies, blocks)]);
    if k < n {
      InstallTraceAt(d, Slots(a, n), copies, n, k);
      assert t[k] == t1[k];
    } else if k == n {
      assert Install(d2, blocks, copies, 0) == d2;
    } else if k <= 2 * n {
      InstallTraceAt(d2, blocks, copies, n, k - n - 1);
      assert t[k] == t2[k - n - 1];
    }
  }

  lemma TraceAtomic(a: Area, d: seq<Block>, l: seq<Block>, blocks: seq<Uint>, k: nat)
    requires AreaOk(a, d) && ListOk(a, d, blocks) && Pending(a, d, l, blocks) && Word(d[a.start], 0) == 0
    requires k < |CommitTrace(a, d, l, blocks)|
    ensures Recovered(a, CommitTrace(a, d, l, blocks)[k]) == Some(HomeOnly(a, if k < |blocks| then d else l))
  {
    CommitTraceAt(a, d, l, blocks, 0);
    CommitTraceAt(a, d, l, blocks, k);
    CommitAtomic(a, d, l, blocks, k + 1);
  }

  lemma {:induction false} InstallTraceAt(d: seq<Block>, homes: seq<nat>, copies: seq<Block>, k: nat, j: nat)
    requires j < k <= |homes| == |copies|
    ensures InstallTrace(d, homes, copies, k)[j] == Install(d, homes, copies, j + 1)
    ensures InstallTrace(d, homes, copies, j) <= InstallTrace(d, homes, copies, k)
  {
    if j < k - 1 {
      InstallTraceAt(d, homes, copies, k - 1, j);
    }
  }

  lemma SlotsAreLog(a: Area, d: seq<Block>, blocks: seq<Uint>)
    requires AreaOk(a, d) && ListOk(a, d, blocks)
    ensures forall k :: 0 <= k < |blocks| ==> blocks[k] !in Slots(a, |blocks|)
    ensures forall k :: 0 <= k < |blocks| ==> Slots(a, |blocks|)[k] < |d| && Slots(a, |blocks|)[k] !in blocks
  {
    forall k | 0 <= k < |blocks|
      ensures Slots(a, |blocks|)[k] !in blocks
    {
      assert !IsHome(a, Slots(a, |blocks|)[k]);
    }
  }

  /** The copies read back from the log are the ones just written there. */
  lemma ReadBack(a: Area, l: seq<Block>, blocks: seq<Uint>)
    requires AreaOk(a, l) && ListOk(a, l, blocks)
    ensures forall k :: 0 <= k < |blocks| ==> Slots(a, |blocks|)[k] < |l|
    ensures Pick(Committed(a, l, l, blocks), Slots(a, |blocks|)) == Pick(l, blocks)
  {
    var n := |blocks|;
    CommittedShape(a, l, l, blocks);
    assert Pick(Committed(a, l, l, blocks), Slots(a, n)) == Copies(a, Committed(a, l, l, blocks), n);
  }

  /** A crash after any write of commit(), followed by any number of crashes inside recovery, still
      leaves the whole transaction or none of it. */
  lemma CrashAtomicity(a: Area, d: seq<Block>, l: seq<Block>, blocks: seq<Uint>, k: nat, ds: seq<seq<Block>>)
    requires AreaOk(a, d) && ListOk(a, d, blocks) && Pending(a, d, l, blocks) && Word(d[a.start], 0) == 0
    requires k <= 2 * |blocks| + 2 && CrashChain(a, ds) && ds[0] == CommitDisk(a, d, l, blocks, k)
    ensures Recovered(a, ds[|ds| - 1]) == Some(HomeOnly(a, if k <= |blocks| then d else l))
  {
    ChainRecovers(a, ds);
    CommitAtomic(a, d, l, blocks, k);
  }

  /** After commit() disk and cache agree on the new contents and the log is empty. */
  lemma Settled(a: Area, d: seq<Block>, l: seq<Block>, blocks: seq<Uint>)
    requires AreaOk(a, d) && ListOk(a, d, blocks) && Pending(a, d, l, blocks) && l[a.start] == d[a.start]
    ensures var n := 2 * |blocks| + 2;
            var d', l' := CommitDisk(a, d, l, blocks, n), CommitDisk(a, l, l, blocks, n);
            && |d'| == |d| && Pending(a, d', l', []) && HomeOnly(a, d') == HomeOnly(a, l)
            && l'[a.start] == d'[a.start] && Word(d'[a.start], 0) == 0
  {
    var n := 2 * |blocks| + 2;
    var d', l' := CommitDisk(a, d, l, blocks, n), CommitDisk(a, l, l, blocks, n);
    CommittedInstalls(a, d, l, blocks);
    CommittedInstalls(a, l, l, blocks);
    assert HomeOnly(a, d') == HomeOnly(a, l) == HomeOnly(a, l') by {
      assert HomeOnly(a, d') == HomeOnly(a, Install(Committed(a, d, l, blocks), blocks, Pick(l, blocks), |blocks|));
      assert HomeOnly(a, l') == HomeOnly(a, Install(Committed(a, l, l, blocks), blocks, Pick(l, blocks), |blocks|));
    }
    forall b | 0 <= b < |d| && IsHome(a, b)
      ensures l'[b] == d'[b]
    {
      assert HomeOnly(a, d')[b] == d'[b] && HomeOnly(a, l')[b] == l'[b];
    }
  }

  /** The writes of recover_from_log are the recovery disks. */
  lemma RecoveryTraceAt(a: Area, d: seq<Block>, k: nat)
    requires HeaderOk(a, d) && k <= |HeadList(a, d)|
    ensures var homes := HeadList(a, d);
            && |InstallPhase(a, d, Copies(a, d, |homes|), homes)| == |homes| + 1
            && InstallPhase(a, d, Copies(a, d, |homes|), homes)[k] == RecoveryDisk(a, d, k + 1)
  {
    var homes := HeadList(a, d);
    if k < |homes| {
      InstallTraceAt(d, homes, Copies(a, d, |homes|), |homes|, k);
    }
  }

  /** The header after log_write of block b: absorbed if already listed. */
  function Listed(blocks: seq<Uint>, b: Uint): (r: seq<Uint>)
  {
    if b in blocks then blocks else blocks + [b]
  }

  lemma ListedUpdate(a: Area, d: seq<Block>, l: seq<Block>, blocks: seq<Uint>, b: Uint, x: Block)
    requires ListOk(a, d, blocks) && Pending(a, d, l, blocks) && b < |d| && IsHome(a, b)
    requires |blocks| < LOGSIZE && |blocks| < a.size - 1
    ensures ListOk(a, d, Listed(blocks, b)) && Pending(a, d, l[b := x], Listed(blocks, b))
  {
  }

  // ----- transactions -------------------------------------------------------------------------

  type Update = (nat, Block)

  /** Block contents after a list of updates. */
  function Apply(v: seq<Block>, tx: seq<Update>): (r: seq<Block>)
    ensures |r| == |v|
  {
    if tx == [] then v
    else
      var w := Apply(v, tx[..|tx| - 1]);
      var (b, d) := tx[|tx| - 1];
      if b < |v| then w[b := d] else w
  }

  /** Block contents after a list of transactions. */
  function ApplyAll(v: seq<Block>, txs: seq<seq<Update>>): (r: seq<Block>)
    ensures |r| == |v|
  {
    if txs == [] then v else Apply(ApplyAll(v, txs[..|txs| - 1]), txs[|txs| - 1])
  }
}

/** Group commit with everything interleaved: any number of processes run begin_op, log_write and end_op
    sections over the buffer cache while others read, the last one out commits for the group, and the
    machine may stop after any single step. */
module GroupCommit {
  import opened Collections
  import opened Layout
  import opened BufferCache
  import opened Log

  const MAXOPBLOCKS := 10

  /** A store into a cached block, and the operation that made it. */
  datatype Stored = Stored(op: nat, b: nat, data: Block)

  /** Committing: `who` is in commit(), which has made k disk writes; disk and contents are from its
      beginning. */
  datatype Phase = Open | Committing(who: Pid, disk: seq<Block>, contents: seq<Block>, k: nat)

  /** `blocks` is lh.block[..lh.n] and `ops` the open operations. The rest is history: `base` the contents
      at the start, `stores` all stores since then, of which the first `cut` were made by operations whose
      group's header is on disk; operations are numbered, and those from `mark` on are later ones. */
  datatype Sys = Sys(
    c: Cache, blocks: seq<Uint>, ops: map<Pid, nat>, phase: Phase,
    base: seq<Block>, stores: seq<Stored>, cut: nat, mark: nat, nextId: nat)

  datatype Event =
    | Use(e: BufferCache.Event)            // bget, acquiresleep, iderw for reading, releasesleep, brelse
    | Begin(p: Pid)                        // begin_op
    | Change(p: Pid, i: nat, data: Block)  // a store into a held buffer
    | LogWrite(p: Pid, i: nat)             // log_write
    | End(p: Pid)                          // end_op
    | CopyOut(i: nat, j: nat)              // memmove and bwrite in write_log or install_trans
    | Head(i: nat)                         // the stores and the bwrite of write_head
    | Finish                               // the rest of end_op after commit()

  /** How many disk writes commit() makes. */
  function Writes(blocks: seq<Uint>): (n: nat) { if blocks == [] then 0 else 2 * |blocks| + 2 }

  /** The block that write number k of commit() goes to, and the one it is copied from. */
  function Target(a: Area, blocks: seq<Uint>, k: nat): (b: nat)
  {
    if k < |blocks| then a.start + 1 + k
    else if |blocks| < k <= 2 * |blocks| then blocks[k - |blocks| - 1] else a.start
  }

  function Source(a: Area, blocks: seq<Uint>, k: nat): (b: nat)
  {
    if k < |blocks| then blocks[k]
    else if |blocks| < k <= 2 * |blocks| then a.start + 1 + (k - |blocks| - 1) else a.start
  }

  predicate IsHeadWrite(blocks: seq<Uint>, k: nat) { k == |blocks| || k == 2 * |blocks| + 1 }

  predicate IsRead(e: BufferCache.Event) { !e.StoreEvent? && !e.DirtyEvent? && !e.WriteEvent? }

  /** A buffer of a block that may be logged. */
  predicate Loggable(a: Area, b: Buf) { IsHome(a, b.blockno) && b.blockno < UINT_LIMIT }

  predicate CanBwrite(c: Cache, p: Pid, i: nat, b: nat)
    requires Shape(c)
  {
    Owns(c, p, i) && c.bufs[i].valid && c.bufs[i].blockno == b && b < |c.disk| && c.bufs[i].dev == 1 && i !in c.touched
  }

  predicate Enabled(a: Area, s: Sys, e: Event)
  {
    Shape(s.c) &&
    match e
    case Use(e) => IsRead(e) && BufferCache.Enabled(s.c, e)
    case Begin(p) => p !in s.ops && s.phase.Open? && |s.blocks| + (|s.ops| + 1) * MAXOPBLOCKS <= LOGSIZE
    case Change(p, i, data) => p in s.ops && BufferCache.Enabled(s.c, StoreEvent(p, i, data))
      && Loggable(a, s.c.bufs[i])
    case LogWrite(p, i) =>
      && p in s.ops && BufferCache.Enabled(s.c, DirtyEvent(p, i)) && Loggable(a, s.c.bufs[i])
      && |s.blocks| < LOGSIZE && |s.blocks| < a.size - 1
    case End(p) => p in s.ops && forall i :: i in s.c.touched && i < NBUF ==> s.c.bufs[i].holder != Some(p)
    case CopyOut(i, j) =>
      && s.phase.Committing? && s.phase.k < Writes(s.blocks) && !IsHeadWrite(s.blocks, s.phase.k) && i != j
      && CanBwrite(s.c, s.phase.who, i, Target(a, s.blocks, s.phase.k))
      && CanBwrite(s.c, s.phase.who, j, Source(a, s.blocks, s.phase.k))
    case Head(i) =>
      && s.phase.Committing? && s.phase.k < Writes(s.blocks) && IsHeadWrite(s.blocks, s.phase.k)
      && CanBwrite(s.c, s.phase.who, i, a.start) && |s.blocks| <= LOGSIZE
    case Finish => s.phase.Committing? && s.phase.k == Writes(s.blocks)
  }

  /** A store into buffer i and its bwrite. */
  function Rewrite(c: Cache, i: nat, data: Block): (r: Cache)
    requires i < |c.bufs| && c.bufs[i].blockno < |c.disk| == |c.logical| && c.bufs[i].dev == 1
  {
    Bwrite(Store(c, i, data), i)
  }

  function Step(a: Area, s: Sys, e: Event): (r: Sys)
    requires Enabled(a, s, e)
  {
    match e
    case Use(e) => s.(c := BufferCache.Step(s.c, e))
    case Begin(p) => s.(ops := s.ops[p := s.nextId], nextId := s.nextId + 1)
    case Change(p, i, data) =>
      s.(c := Store(s.c, i, data), stores := s.stores + [Stored(s.ops[p], s.c.bufs[i].blockno, data)])
    case LogWrite(p, i) => s.(c := MarkDirty(s.c, i), blocks := Listed(s.blocks, s.c.bufs[i].blockno))
    case End(p) =>
      var s1 := s.(ops := s.ops - {p});
      if s1.ops == map[] then s1.(phase := Committing(p, s.c.disk, s.c.logical, 0)) else s1
    case CopyOut(i, j) => s.(c := Rewrite(s.c, i, s.c.bufs[j].data), phase := s.phase.(k := s.phase.k + 1))
    case Head(i) =>
      var first := s.phase.k == |s.blocks|;
      s.(c := Rewrite(s.c, i, Header(s.c.bufs[i].data, if first then s.blocks else [])),
         phase := s.phase.(k := s.phase.k + 1),
         cut := if first then |s.stores| else s.cut, mark := if first then s.nextId else s.mark)
    case Finish => s.(phase := Open, blocks := [])
  }

  /** The contents after some stores. */
  function Replay(base: seq<Block>, stores: seq<Stored>): (r: seq<Block>)
    ensures |r| == |base|
  {
    if stores == [] then base
    else
      var n := |stores| - 1;
      var r := Replay(base, stores[..n]);
      if stores[n].b < |base| then r[stores[n].b := stores[n].data] else r
  }

  // ----- the invariant ------------------------------------------------------------------------

  /** Block b was changed in a buffer that is still held and not yet handed to log_write. */
  ghost predicate InHand(c: Cache, b: nat)
    requires Shape(c)
  {
    exists i: nat :: i in c.touched && i < NBUF && c.bufs[i].blockno == b
  }

  ghost predicate Held(a: Area, s: Sys)
    requires Shape(s.c)
  {
    forall i: nat :: i in s.c.touched ==>
      i < NBUF && Loggable(a, s.c.bufs[i]) && s.c.bufs[i].holder.Some? && s.c.bufs[i].holder.value in s.ops
  }

  /** Which operations' stores are on this side of the cut. */
  predicate Numbered(s: Sys)
  {
    && s.cut <= |s.stores| && s.mark <= s.nextId
    && (forall x :: 0 <= x < s.cut ==> s.stores[x].op < s.mark)
    && (forall x :: s.cut <= x < |s.stores| ==> s.mark <= s.stores[x].op < s.nextId)
    && (forall p :: p in s.ops ==> s.mark <= s.ops[p] < s.nextId)
  }

  ghost predicate OpenOk(a: Area, s: Sys)
    requires Shape(s.c) && AreaOk(a, s.c.disk) && s.cut <= |s.stores|
  {
    && Word(s.c.disk[a.start], 0) == 0 && s.c.logical[a.start] == s.c.disk[a.start]
    && (forall b: nat :: b < |s.c.disk| && IsHome(a, b) && s.c.logical[b] != s.c.disk[b] ==>
       b in s.blocks || InHand(s.c, b))
    && HomeOnly(a, s.c.disk) == HomeOnly(a, Replay(s.base, s.stores[..s.cut]))
  }

  ghost predicate CommitOk(a: Area, s: Sys)
    requires s.phase.Committing? && s.cut <= |s.stores|
  {
    var Committing(_, d, l, k) := s.phase; var n := |s.blocks|;
    && s.ops == map[] && s.c.touched == {} && |d| == |s.c.disk| && AreaOk(a, d) && ListOk(a, d, s.blocks)
    && Pending(a, d, l, s.blocks) && Word(d[a.start], 0) == 0 && l[a.start] == d[a.start]
    && k <= 2 * n + 2 && (s.blocks == [] ==> k == 0)
    && s.c.disk == CommitDisk(a, d, l, s.blocks, k) && s.c.logical == CommitDisk(a, l, l, s.blocks, k)
    && HomeOnly(a, l) == HomeOnly(a, Replay(s.base, s.stores))
    && (if k <= n then HomeOnly(a, d) == HomeOnly(a, Replay(s.base, s.stores[..s.cut])) else s.cut == |s.stores|)
  }

  /** What holds in either phase. */
  ghost predicate Books(a: Area, s: Sys)
  {
    && Inv(s.c) && AreaOk(a, s.c.disk) && |s.base| == |s.c.disk| && ListOk(a, s.c.disk, s.blocks)
    && Held(a, s) && Numbered(s)
    && HomeOnly(a, s.c.logical) == HomeOnly(a, Replay(s.base, s.stores))
    && (forall x :: s.cut <= x < |s.stores| ==> s.stores[x].b in s.blocks || InHand(s.c, s.stores[x].b))
  }

  ghost predicate Sound(a: Area, s: Sys)
  {
    && Books(a, s)
    && (if s.phase.Open? then OpenOk(a, s) else CommitOk(a, s))
    && (s.ops == map[] && s.phase.Open? ==> s.blocks == [])
  }

  // ----- cache users --------------------------------------------------------------------------

  /** Reading neither changes contents nor takes a changed buffer out of anybody's hands. */
  lemma ReadersHarmless(c: Cache, e: BufferCache.Event, i: nat)
    requires Inv(c) && BufferCache.Enabled(c, e) && IsRead(e)
    ensures var c' := BufferCache.Step(c, e);
            && Inv(c') && c'.disk == c.disk && c'.logical == c.logical && c'.touched == c.touched
            && (i in c.touched && i < NBUF ==>
                  c'.bufs[i].blockno == c.bufs[i].blockno && c'.bufs[i].holder == c.bufs[i].holder)
  {
    StepInv(c, e);
    if e.ReadEvent? {
      assert BufOk(c, e.i);
    }
    if i in c.touched && i < NBUF {
      assert BufOk(c, i);
    }
  }

  lemma UseSound(a: Area, s: Sys, e: Event)
    requires Sound(a, s) && Enabled(a, s, e) && e.Use?
    ensures Sound(a, Step(a, s, e))
  {
    var s' := Step(a, s, e);
    ReadersHarmless(s.c, e.e, 0);
    forall i: nat | i in s.c.touched
      ensures i < NBUF && s'.c.bufs[i].blockno == s.c.bufs[i].blockno && s'.c.bufs[i].holder == s.c.bufs[i].holder
    {
      ReadersHarmless(s.c, e.e, i);
    }
    forall b: nat | InHand(s.c, b)
      ensures InHand(s'.c, b)
    {
      var i: nat :| i in s.c.touched && i < NBUF && s.c.bufs[i].blockno == b;
      assert i in s'.c.touched && s'.c.bufs[i].blockno == b;
    }
  }

  lemma BeginSound(a: Area, s: Sys, e: Event)
    requires Sound(a, s) && Enabled(a, s, e) && e.Begin?
    ensures Sound(a, Step(a, s, e))
  {
  }

  // ----- operations ---------------------------------------------------------------------------

  lemma SameHome(a: Area, x: seq<Block>, y: seq<Block>, b: nat, data: Block)
    requires HomeOnly(a, x) == HomeOnly(a, y) && b < |x|
    ensures |x| == |y| && HomeOnly(a, x[b := data]) == HomeOnly(a, y[b := data])
  {
    assert |x| == |HomeOnly(a, x)| == |y|;
    var u, v := x[b := data], y[b := data];
    forall k | 0 <= k < |x|
      ensures HomeOnly(a, u)[k] == HomeOnly(a, v)[k]
    {
      assert HomeOnly(a, x)[k] == HomeOnly(a, y)[k];
    }
  }

  lemma ReplayMore(base: seq<Block>, stores: seq<Stored>, st: Stored)
    requires st.b < |base|
    ensures Replay(base, stores + [st]) == Replay(base, stores)[st.b := st.data]
  {
    assert (stores + [st])[..|stores|] == stores;
  }

  /** A store keeps what is in somebody's hands there, and adds its own block. */
  lemma ChangeInHand(c: Cache, i: nat, data: Block, x: nat)
    requires Shape(c) && i < NBUF && c.bufs[i].blockno < |c.logical|
    ensures InHand(c, x) || x == c.bufs[i].blockno ==> InHand(Store(c, i, data), x)
  {
    var c' := Store(c, i, data);
    if x == c.bufs[i].blockno {
      assert i in c'.touched && c'.bufs[i].blockno == x;
    } else if InHand(c, x) {
      var j: nat :| j in c.touched && j < NBUF && c.bufs[j].blockno == x;
      assert j in c'.touched && c'.bufs[j].blockno == x;
    }
  }

  lemma ChangeSound(a: Area, s: Sys, e: Event)
    requires Sound(a, s) && Enabled(a, s, e) && e.Change?
    ensures Sound(a, Step(a, s, e))
  {
    var Change(p, i, data) := e;
    StoreInv(s.c, p, i, data);
    assert s.phase.Open?;
    forall x: nat ensures InHand(s.c, x) || x == s.c.bufs[i].blockno ==> InHand(Step(a, s, e).c, x) {
      ChangeInHand(s.c, i, data, x);
    }
    ChangeReplays(a, s, Stored(s.ops[p], s.c.bufs[i].blockno, data));
    ChangeBooks(a, s, e);
  }

  lemma ChangeBooks(a: Area, s: Sys, e: Event)
    requires Books(a, s) && Enabled(a, s, e) && e.Change? && Inv(Step(a, s, e).c)
    requires var st := Stored(s.ops[e.p], s.c.bufs[e.i].blockno, e.data);
             HomeOnly(a, s.c.logical[st.b := st.data]) == HomeOnly(a, Replay(s.base, s.stores + [st]))
    requires forall x: nat :: InHand(s.c, x) || x == s.c.bufs[e.i].blockno ==> InHand(Step(a, s, e).c, x)
    ensures Books(a, Step(a, s, e))
  {
  }

  lemma ChangeReplays(a: Area, s: Sys, st: Stored)
    requires st.b < |s.c.logical| == |s.base| && s.cut <= |s.stores|
    requires HomeOnly(a, s.c.logical) == HomeOnly(a, Replay(s.base, s.stores))
    ensures HomeOnly(a, s.c.logical[st.b := st.data]) == HomeOnly(a, Replay(s.base, s.stores + [st]))
    ensures (s.stores + [st])[..s.cut] == s.stores[..s.cut]
  {
    ReplayMore(s.base, s.stores, st);
    SameHome(a, s.c.logical, Replay(s.base, s.stores), st.b, st.data);
  }

  lemma LogWriteSound(a: Area, s: Sys, e: Event)
    requires Sound(a, s) && Enabled(a, s, e) && e.LogWrite?
    ensures Sound(a, Step(a, s, e))
  {
    var LogWrite(p, i) := e;
    var s' := Step(a, s, e);
    var b := s.c.bufs[i].blockno;
    DirtyInv(s.c, p, i);
    assert BufOk(s.c, i) && s.phase.Open?;
    forall x: nat | InHand(s.c, x)
      ensures x in s'.blocks || InHand(s'.c, x)
    {
      var j: nat :| j in s.c.touched && j < NBUF && s.c.bufs[j].blockno == x;
      if j != i { assert j in s'.c.touched && s'.c.bufs[j].blockno == x; }
    }
  }

  lemma EndSound(a: Area, s: Sys, e: Event)
    requires Sound(a, s) && Enabled(a, s, e) && e.End?
    ensures Sound(a, Step(a, s, e))
  {
    var s' := Step(a, s, e);
    assert s.phase.Open?;
    forall i: nat | i in s.c.touched
      ensures s.c.bufs[i].holder.value in s'.ops
    {
      assert s.c.bufs[i].holder != Some(e.p);
    }
    if s'.ops == map[] {
      assert s.c.touched == {};
      assert Install(s.c.disk, Slots(a, |s.blocks|), Pick(s.c.logical, s.blocks), 0) == s.c.disk;
      assert Install(s.c.logical, Slots(a, |s.blocks|), Pick(s.c.logical, s.blocks), 0) == s.c.logical;
    }
  }

  // ----- commit -------------------------------------------------------------------------------

  /** A bwrite by commit() changes that block on disk and in the cache, and nothing else. */
  lemma RewriteKeeps(c: Cache, p: Pid, i: nat, b: nat, data: Block)
    requires Inv(c) && CanBwrite(c, p, i, b) && c.touched == {}
    ensures var c' := Rewrite(c, i, data);
            Inv(c') && c'.disk == c.disk[b := data] && c'.logical == c.logical[b := data] && c'.touched == {}
  {
    StoreInv(c, p, i, data);
    var c1 := Store(c, i, data);
    WriteInv(c1, p, i);
    assert c1.touched - {i} == {};
  }

  /** Write number k of write_log's loop, on the disk or on the latest contents x. */
  lemma NextLogCopy(a: Area, x: seq<Block>, l: seq<Block>, blocks: seq<Uint>, k: nat)
    requires AreaOk(a, l) && |x| == |l| && ListOk(a, l, blocks) && k < |blocks|
    ensures var slot := a.start + 1 + k;
            && slot < |l| && blocks[k] < |l| && CommitDisk(a, l, l, blocks, k)[blocks[k]] == l[blocks[k]]
            && CommitDisk(a, x, l, blocks, k + 1) == CommitDisk(a, x, l, blocks, k)[slot := l[blocks[k]]]
  {
    var slots, copies := Slots(a, |blocks|), Pick(l, blocks);
    InstallAt(l, slots, copies, k, blocks[k]);
    SlotsAreLog(a, l, blocks);
    assert slots[k] == a.start + 1 + k && copies[k] == l[blocks[k]];
  }

  lemma InInstall(a: Area, x: seq<Block>, l: seq<Block>, blocks: seq<Uint>, m: nat)
    requires a.start < |x| && |blocks| <= LOGSIZE && m <= |blocks|
    ensures CommitDisk(a, x, l, blocks, |blocks| + 1 + m) ==
            Install(Committed(a, x, l, blocks), blocks, Pick(l, blocks), m)
  {
  }

  /** What is in the log is what was put there. */
  lemma InLog(a: Area, l: seq<Block>, blocks: seq<Uint>, m: nat)
    requires AreaOk(a, l) && ListOk(a, l, blocks) && m < |blocks|
    ensures var slot := a.start + 1 + m;
            slot < |l| && Install(Committed(a, l, l, blocks), blocks, Pick(l, blocks), m)[slot] == l[blocks[m]]
  {
    LoggedCopy(a, l, blocks, m);
    InstallKeepsLog(a, Committed(a, l, l, blocks), blocks, Pick(l, blocks), m, a.start + 1 + m);
  }

  lemma LoggedCopy(a: Area, l: seq<Block>, blocks: seq<Uint>, m: nat)
    requires AreaOk(a, l) && ListOk(a, l, blocks) && m < |blocks|
    ensures a.start + 1 + m < |l| && Committed(a, l, l, blocks)[a.start + 1 + m] == l[blocks[m]]
  {
    CommittedShape(a, l, l, blocks);
    assert Copies(a, Committed(a, l, l, blocks), |blocks|)[m] == Pick(l, blocks)[m];
  }

  /** Write number m of install_trans' loop likewise. */
  lemma NextInstall(a: Area, x: seq<Block>, l: seq<Block>, blocks: seq<Uint>, m: nat)
    requires AreaOk(a, l) && |x| == |l| && ListOk(a, l, blocks) && m < |blocks|
    ensures var slot := a.start + 1 + m; var k := |blocks| + 1 + m;
            && slot < |l| && blocks[m] < |l| && CommitDisk(a, l, l, blocks, k)[slot] == l[blocks[m]]
            && CommitDisk(a, x, l, blocks, k + 1) == CommitDisk(a, x, l, blocks, k)[blocks[m] := l[blocks[m]]]
  {
    InLog(a, l, blocks, m);
    InInstall(a, l, l, blocks, m);
    InInstall(a, x, l, blocks, m);
    InInstall(a, x, l, blocks, m + 1);
    assert Pick(l, blocks)[m] == l[blocks[m]];
  }

  /** The two header writes. */
  lemma NextHead(a: Area, x: seq<Block>, l: seq<Block>, blocks: seq<Uint>, k: nat)
    requires AreaOk(a, l) && |x| == |l| && ListOk(a, l, blocks) && x[a.start] == l[a.start] && IsHeadWrite(blocks, k)
    ensures var head := CommitDisk(a, l, l, blocks, k)[a.start];
            CommitDisk(a, x, l, blocks, k + 1) ==
            CommitDisk(a, x, l, blocks, k)[a.start := Header(head, if k == |blocks| then blocks else [])]
  {
    var n := |blocks|;
    var slots, copies := Slots(a, n), Pick(l, blocks);
    if k == n {
      InstallAt(l, slots, copies, n, a.start);
      assert Install(Committed(a, x, l, blocks), blocks, copies, 0) == Committed(a, x, l, blocks);
    } else {
      InstallKeepsLog(a, Committed(a, l, l, blocks), blocks, copies, n, a.start);
      assert Committed(a, l, l, blocks)[a.start] == Committed(a, x, l, blocks)[a.start];
    }
  }

  /** In the cache, commit() changes nothing outside the log. */
  lemma ContentsKept(a: Area, l: seq<Block>, blocks: seq<Uint>, k: nat)
    requires AreaOk(a, l) && ListOk(a, l, blocks) && k <= 2 * |blocks| + 2
    ensures |CommitDisk(a, l, l, blocks, k)| == |l| && HomeOnly(a, CommitDisk(a, l, l, blocks, k)) == HomeOnly(a, l)
  {
    var n := |blocks|;
    var slots, copies, l2 := Slots(a, n), Pick(l, blocks), Committed(a, l, l, blocks);
    CommittedShape(a, l, l, blocks);
    var e := CommitDisk(a, l, l, blocks, k);
    forall b: nat | b < |l| && IsHome(a, b)
      ensures e[b] == l[b]
    {
      if k <= n {
        InstallAt(l, slots, copies, k, b);
      } else {
        InstallAt(l2, blocks, copies, if k <= 2 * n + 1 then k - n - 1 else n, b);
      }
    }
    SameHomes(a, e, l);
  }

  /** The state after one more write of commit(). */
  function Advanced(s: Sys, c: Cache, cut: nat, mark: nat): (r: Sys)
    requires s.phase.Committing?
  {
    s.(c := c, phase := s.phase.(k := s.phase.k + 1), cut := cut, mark := mark)
  }

  lemma AdvancedSound(a: Area, s: Sys, c: Cache)
    requires Sound(a, s) && s.phase.Committing? && s.phase.k < Writes(s.blocks) && Inv(c) && c.touched == {}
    requires c.disk == CommitDisk(a, s.phase.disk, s.phase.contents, s.blocks, s.phase.k + 1)
    requires c.logical == CommitDisk(a, s.phase.contents, s.phase.contents, s.blocks, s.phase.k + 1)
    ensures var first := s.phase.k == |s.blocks|;
            Sound(a, Advanced(s, c, if first then |s.stores| else s.cut, if first then s.nextId else s.mark))
  {
    var first := s.phase.k == |s.blocks|;
    ContentsKept(a, s.phase.contents, s.blocks, s.phase.k + 1);
    AdvancedCommits(a, s, c, if first then |s.stores| else s.cut, if first then s.nextId else s.mark);
    AdvancedBooks(a, s, c, first);
  }

  lemma AdvancedBooks(a: Area, s: Sys, c: Cache, first: bool)
    requires Books(a, s) && s.phase.Committing? && s.ops == map[] && s.c.touched == {} == c.touched && Inv(c)
    requires |c.disk| == |s.c.disk| && HomeOnly(a, c.logical) == HomeOnly(a, Replay(s.base, s.stores))
    ensures Books(a, Advanced(s, c, if first then |s.stores| else s.cut, if first then s.nextId else s.mark))
  {
    forall b: nat ensures !InHand(s.c, b) {}
  }

  lemma AdvancedCommits(a: Area, s: Sys, c: Cache, cut: nat, mark: nat)
    requires s.phase.Committing? && s.cut <= |s.stores| && CommitOk(a, s) && s.phase.k < Writes(s.blocks)
    requires c.touched == {}
    requires c.disk == CommitDisk(a, s.phase.disk, s.phase.contents, s.blocks, s.phase.k + 1)
    requires c.logical == CommitDisk(a, s.phase.contents, s.phase.contents, s.blocks, s.phase.k + 1)
    requires cut == if s.phase.k == |s.blocks| then |s.stores| else s.cut
    ensures |c.disk| == |s.c.disk| && CommitOk(a, Advanced(s, c, cut, mark))
  {
  }

  /** A round of write_log's or install_trans' loop: commit()'s next disk, and its next contents. */
  lemma NextCopy(a: Area, x: seq<Block>, l: seq<Block>, blocks: seq<Uint>, k: nat)
    requires AreaOk(a, l) && |x| == |l| && ListOk(a, l, blocks) && k < Writes(blocks) && !IsHeadWrite(blocks, k)
    ensures var now := CommitDisk(a, x, l, blocks, k); var seen := CommitDisk(a, l, l, blocks, k);
            && Target(a, blocks, k) < |now| && Source(a, blocks, k) < |seen|
            && CommitDisk(a, x, l, blocks, k + 1) == now[Target(a, blocks, k) := seen[Source(a, blocks, k)]]
  {
    if k < |blocks| {
      NextLogCopy(a, x, l, blocks, k);
    } else {
      NextInstall(a, x, l, blocks, k - |blocks| - 1);
    }
  }

  lemma Copied(a: Area, s: Sys, i: nat, j: nat)
    requires Inv(s.c) && s.phase.Committing? && s.cut <= |s.stores| && CommitOk(a, s) && Enabled(a, s, CopyOut(i, j))
    ensures var c := Rewrite(s.c, i, s.c.bufs[j].data); var k := s.phase.k + 1;
            && Inv(c) && c.touched == {} && c.disk == CommitDisk(a, s.phase.disk, s.phase.contents, s.blocks, k)
            && c.logical == CommitDisk(a, s.phase.contents, s.phase.contents, s.blocks, k)
  {
    assert BufOk(s.c, j);
    NextCopy(a, s.phase.disk, s.phase.contents, s.blocks, s.phase.k);
    NextCopy(a, s.phase.contents, s.phase.contents, s.blocks, s.phase.k);
    RewriteKeeps(s.c, s.phase.who, i, Target(a, s.blocks, s.phase.k), s.c.bufs[j].data);
  }

  lemma CopyOutSound(a: Area, s: Sys, e: Event)
    requires Sound(a, s) && Enabled(a, s, e) && e.CopyOut?
    ensures Sound(a, Step(a, s, e))
  {
    Copied(a, s, e.i, e.j);
    AdvancedSound(a, s, Rewrite(s.c, e.i, s.c.bufs[e.j].data));
  }

  lemma HeadSound(a: Area, s: Sys, e: Event)
    requires Sound(a, s) && Enabled(a, s, e) && e.Head?
    ensures Sound(a, Step(a, s, e))
  {
    var Committing(p, d, l, k) := s.phase;
    assert BufOk(s.c, e.i);
    var data := Header(s.c.bufs[e.i].data, if k == |s.blocks| then s.blocks else []);
    RewriteKeeps(s.c, p, e.i, a.start, data);
    NextHead(a, d, l, s.blocks, k);
    NextHead(a, l, l, s.blocks, k);
    AdvancedSound(a, s, Rewrite(s.c, e.i, data));
  }

  lemma FinishSound(a: Area, s: Sys, e: Event)
    requires Sound(a, s) && Enabled(a, s, e) && e.Finish?
    ensures Sound(a, Step(a, s, e))
  {
    var Committing(p, d, l, k) := s.phase;
    if s.blocks == [] {
      assert Install(d, Slots(a, 0), Pick(l, []), 0) == d && Install(l, Slots(a, 0), Pick(l, []), 0) == l;
    } else {
      Settled(a, d, l, s.blocks);
      assert s.stores[..s.cut] == s.stores;
    }
  }

  lemma StepSound(a: Area, s: Sys, e: Event)
    requires Sound(a, s) && Enabled(a, s, e)
    ensures Sound(a, Step(a, s, e))
  {
    match e
    case Use(_) => UseSound(a, s, e);
    case Begin(_) => BeginSound(a, s, e);
    case Change(_, _, _) => ChangeSound(a, s, e);
    case LogWrite(_, _) => LogWriteSound(a, s, e);
    case End(_) => EndSound(a, s, e);
    case CopyOut(_, _) => CopyOutSound(a, s, e);
    case Head(_) => HeadSound(a, s, e);
    case Finish => FinishSound(a, s, e);
  }

  // ----- every run ----------------------------------------------------------------------------

  /** After recovery: cache and disk agree, the log is empty, and nothing is going on. */
  ghost predicate Start(a: Area, s: Sys)
  {
    && Inv(s.c) && s.c.touched == {} && AreaOk(a, s.c.disk) && s.c.logical == s.c.disk == s.base
    && Word(s.c.disk[a.start], 0) == 0
    && s.blocks == [] && s.ops == map[] && s.phase.Open? && s.stores == [] && s.cut == s.mark == s.nextId == 0
  }

  function Exec(a: Area, s: Sys, run: seq<Event>): (r: Option<Sys>)
  {
    if run == [] then Some(s)
    else
      match Exec(a, s, run[..|run| - 1])
      case None => None
      case Some(s1) => if Enabled(a, s1, run[|run| - 1]) then Some(Step(a, s1, run[|run| - 1])) else None
  }

  lemma {:induction false} RunSound(a: Area, s: Sys, run: seq<Event>)
    requires Start(a, s) && Exec(a, s, run).Some?
    ensures Sound(a, Exec(a, s, run).value)
  {
    if run == [] {
      assert s.stores[..s.cut] == [];
    } else {
      RunSound(a, s, run[..|run| - 1]);
      StepSound(a, Exec(a, s, run[..|run| - 1]).value, run[|run| - 1]);
    }
  }

  /** What recovery makes of the disk. */
  lemma SoundRecovers(a: Area, s: Sys)
    requires Sound(a, s)
    ensures Recovered(a, s.c.disk) == Some(HomeOnly(a, Replay(s.base, s.stores[..s.cut])))
  {
    if s.phase.Open? {
      ClearedRecovers(a, s.c.disk);
    } else {
      CommitAtomic(a, s.phase.disk, s.phase.contents, s.blocks, s.phase.k);
      if s.phase.k > |s.blocks| { assert s.stores[..s.cut] == s.stores; }
    }
  }

  /** Crash atomicity of interleaved operations. Wherever in a run the machine stops, and however often it
      stops again during recovery, recovery leaves the contents after the first cut stores of the run;
      every operation has all of its stores among them or none, an open one none; and where nothing is
      going on they are all stores. */
  lemma OperationsAtomic(a: Area, s: Sys, run: seq<Event>, ds: seq<seq<Block>>, op: nat)
    requires Start(a, s) && Exec(a, s, run).Some?
    requires CrashChain(a, ds) && ds[0] == Exec(a, s, run).value.c.disk
    ensures var t := Exec(a, s, run).value;
            && t.base == s.base && t.cut <= |t.stores|
            && Recovered(a, ds[|ds| - 1]) == Some(HomeOnly(a, Replay(s.base, t.stores[..t.cut])))
            && ((forall x :: 0 <= x < |t.stores| && t.stores[x].op == op ==> x < t.cut) ||
                (forall x :: 0 <= x < |t.stores| && t.stores[x].op == op ==> t.cut <= x))
            && (forall p, x :: p in t.ops && 0 <= x < |t.stores| && t.stores[x].op == t.ops[p] ==> t.cut <= x)
            && (t.ops == map[] && t.phase.Open? ==> t.cut == |t.stores|)
  {
    var t := Exec(a, s, run).value;
    RunSound(a, s, run);
    SameBase(a, s, run);
    SoundRecovers(a, t);
    ChainRecovers(a, ds);
  }

  lemma {:induction false} SameBase(a: Area, s: Sys, run: seq<Event>)
    requires Exec(a, s, run).Some?
    ensures Exec(a, s, run).value.base == s.base
  {
    if run != [] {
      SameBase(a, s, run[..|run| - 1]);
    }
  }
}

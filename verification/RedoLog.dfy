/** log.c as it runs: commit, recovery and log_write update the in-memory header and the cache in
    place. The ghost field `writes` records the disk after every bwrite, so a crash can happen
    after any of them. */
module RedoLog {
  import opened Collections
  import opened Layout
  import opened BufferCache
  import opened Log
  import opened IdleCache

  /** The loop of read_head. */
  method Entries(head: Block) returns (list: seq<Uint>)
    requires Word(head, 0) <= LOGSIZE
    ensures list == HeadList(Area(0, 0), [head])
  {
    list := [];
    for i := 0 to Word(head, 0)
      invariant |list| == i && forall k :: 0 <= k < i ==> list[k] == Word(head, k + 1)
    {
      list := list + [Word(head, i + 1)];
    }
  }

  class Logger {
    const area: Area
    var cache: LiveCache
    var blocks: seq<Uint>                 // log.lh.block[..log.lh.n]
    ghost var writes: seq<seq<Block>>     // the disk after each bwrite so far

    /** The state at boot, before recover_from_log. */
    constructor (area: Area, disk: seq<Block>)
      ensures this.area == area && cache == Init(disk) && blocks == [] && writes == []
    {
      this.area := area;
      cache := InitReachable(disk);
      blocks := [];
      writes := [];
    }

    /** The body of the loops in write_log and install_trans. */
    method Copy(p: Pid, dst: nat, src: nat, dstFirst: bool) returns (ok: bool)
      modifies this`cache, this`writes
      ensures !ok ==> cache == old(cache) && writes == old(writes)
      ensures ok ==> dst < |old(cache.disk)| == |old(cache.logical)| && src < |old(cache.disk)|
      ensures ok ==> cache.disk == old(cache.disk)[dst := old(cache.logical)[src]]
      ensures ok ==> cache.logical == old(cache.logical)[dst := old(cache.logical)[src]]
      ensures ok ==> cache.touched == old(cache.touched) && writes == old(writes) + [cache.disk]
      ensures ok ==> Cleaned(old(cache), cache, [dst])
      ensures old(Quiet(cache)) && dst < |old(cache.disk)| && src < |old(cache.disk)| && dst != src ==>
              ok && Idle(cache)
    {
      if Quiet(cache) && dst < |cache.disk| && src < |cache.disk| && dst != src {
        CopyRuns(cache, p, dst, src, dstFirst);
      }
      var r := CopyBlock(cache, p, dst, src, dstFirst);
      ok := r.Some?;
      if ok {
        CopyCleans(cache, p, dst, src, dstFirst);
        cache := r.value;
        writes := writes + [cache.disk];
      }
    }

    /** The loop of write_log (from home blocks to log blocks) and of install_trans (back again).
        It stops early only where the kernel would panic or sleep forever. */
    method CopyLoop(p: Pid, dsts: seq<nat>, srcs: seq<nat>, dstFirst: bool) returns (ok: bool)
      requires |dsts| == |srcs| && |cache.logical| == |cache.disk|
      requires forall k :: 0 <= k < |srcs| ==> srcs[k] < |cache.disk| && srcs[k] !in dsts
      modifies this`cache, this`writes
      ensures 0 <= |writes| - old(|writes|) <= |dsts|
      ensures var done := |writes| - old(|writes|);
              writes == old(writes) + InstallTrace(old(cache.disk), dsts, Pick(old(cache.logical), srcs), done)
      ensures ok ==> |writes| == old(|writes|) + |dsts| && cache.touched == old(cache.touched)
      ensures ok ==> cache.disk == Install(old(cache.disk), dsts, Pick(old(cache.logical), srcs), |dsts|)
      ensures ok ==> cache.logical == Install(old(cache.logical), dsts, Pick(old(cache.logical), srcs), |dsts|)
      ensures ok ==> Cleaned(old(cache), cache, dsts)
      ensures old(Quiet(cache)) && AllBelow(dsts, |old(cache.disk)|) ==> ok && Idle(cache)
    {
      ghost var d, l, copies := cache.disk, cache.logical, Pick(cache.logical, srcs);
      var tail := 0;
      while tail < |dsts|
        invariant 0 <= tail <= |dsts| && |writes| == old(|writes|) + tail
        invariant cache.touched == old(cache.touched)
        invariant cache.disk == Install(d, dsts, copies, tail)
        invariant cache.logical == Install(l, dsts, copies, tail)
        invariant writes == old(writes) + InstallTrace(d, dsts, copies, tail)
        invariant Cleaned(old(cache), cache, dsts[..tail])
        invariant old(Quiet(cache)) && AllBelow(dsts, |d|) ==> Quiet(cache)
      {
        InstallAt(l, dsts, copies, tail, srcs[tail]);
        assert cache.logical[srcs[tail]] == copies[tail];
        ghost var before := cache;
        var copied := Copy(p, dsts[tail], srcs[tail], dstFirst);
        if !copied {
          return false;
        }
        CleanedMore(old(cache), before, cache, dsts, tail);
        tail := tail + 1;
      }
      return true;
    }

    /** write_head */
    method WriteHeader(p: Pid) returns (ok: bool)
      requires |blocks| <= LOGSIZE
      modifies this`cache, this`writes
      ensures !ok ==> cache == old(cache) && writes == old(writes)
      ensures ok ==> area.start < |old(cache.disk)| == |old(cache.logical)|
      ensures ok ==> cache.disk == old(cache.disk)[area.start := Header(old(cache.logical)[area.start], blocks)]
      ensures ok ==> cache.logical == old(cache.logical)[area.start := Header(old(cache.logical)[area.start], blocks)]
      ensures ok ==> cache.touched == old(cache.touched) && writes == old(writes) + [cache.disk]
      ensures ok ==> Cleaned(old(cache), cache, [])
      ensures old(Quiet(cache)) && area.start < |old(cache.disk)| ==> ok && Idle(cache)
    {
      if Quiet(cache) && area.start < |cache.disk| {
        HeadRuns(cache, p, area.start, blocks);
      }
      var r := WriteHead(cache, p, area.start, blocks);
      ok := r.Some?;
      if ok {
        HeadCleans(cache, p, area.start, blocks);
        cache := r.value;
        writes := writes + [cache.disk];
      }
    }

    /** write_log and write_head: up to the commit point. */
    method WriteLog(p: Pid) returns (ok: bool)
      requires AreaOk(area, cache.disk) && ListOk(area, cache.disk, blocks)
      requires |cache.logical| == |cache.disk| && cache.logical[area.start] == cache.disk[area.start]
      modifies this`cache, this`writes
      ensures old(writes) <= writes <= old(writes) + LogTrace(area, old(cache.disk), old(cache.logical), blocks)
      ensures ok ==> writes == old(writes) + LogTrace(area, old(cache.disk), old(cache.logical), blocks)
      ensures ok ==> cache.disk == Committed(area, old(cache.disk), old(cache.logical), blocks)
      ensures ok ==> cache.logical == Committed(area, old(cache.logical), old(cache.logical), blocks)
      ensures ok ==> cache.touched == old(cache.touched)
      ensures ok ==> Cleaned(old(cache), cache, [])
      ensures old(Quiet(cache)) ==> ok && Idle(cache)
    {
      ghost var d, l := cache.disk, cache.logical;
      ok := WriteSlots(p);
      if !ok { return; }
      HeaderLands(area, d, l, blocks);
      PrefixOf(old(writes), d, Slots(area, |blocks|), Pick(l, blocks), |blocks|, |blocks|,
        Committed(area, d, l, blocks));
      CleanedRoom(old(cache), cache, []);
      ok := WriteHeader(p);
    }

    /** write_log */
    method WriteSlots(p: Pid) returns (ok: bool)
      requires AreaOk(area, cache.disk) && ListOk(area, cache.disk, blocks) && |cache.logical| == |cache.disk|
      modifies this`cache, this`writes
      ensures old(writes) <= writes <= old(writes) + LogTrace(area, old(cache.disk), old(cache.logical), blocks)
      ensures ok ==>
                var slots := Slots(area, |blocks|);
                writes == old(writes) + InstallTrace(old(cache.disk), slots, Pick(old(cache.logical), blocks), |blocks|)
      ensures ok ==>
              cache.disk == Install(old(cache.disk), Slots(area, |blocks|), Pick(old(cache.logical), blocks), |blocks|)
      ensures ok ==>
                var slots := Slots(area, |blocks|);
                cache.logical == Install(old(cache.logical), slots, Pick(old(cache.logical), blocks), |blocks|)
      ensures ok ==> cache.touched == old(cache.touched)
      ensures ok ==> Cleaned(old(cache), cache, [])
      ensures old(Quiet(cache)) ==> ok && Idle(cache)
    {
      ghost var d, l := cache.disk, cache.logical;
      SlotsAreLog(area, d, blocks);
      ok := CopyLoop(p, Slots(area, |blocks|), blocks, true);
      LogPrefix(old(writes), writes, area, d, l, blocks);
    }

    /** install_trans */
    method InstallBlocks(p: Pid, ghost copies: seq<Block>) returns (ok: bool)
      requires AreaOk(area, cache.disk) && ListOk(area, cache.disk, blocks) && |cache.logical| == |cache.disk|
      requires copies == Pick(cache.logical, Slots(area, |blocks|))
      modifies this`cache, this`writes
      ensures old(writes) <= writes <= old(writes) + InstallPhase(area, old(cache.disk), copies, blocks)
      ensures ok ==> writes == old(writes) + InstallTrace(old(cache.disk), blocks, copies, |blocks|)
      ensures ok ==> cache.disk == Install(old(cache.disk), blocks, copies, |blocks|)
      ensures ok ==> cache.logical == Install(old(cache.logical), blocks, copies, |blocks|)
      ensures ok ==> cache.touched == old(cache.touched) && Cleaned(old(cache), cache, blocks)
      ensures old(Quiet(cache)) ==> ok && Idle(cache)
    {
      ghost var d := cache.disk;
      SlotsAreLog(area, d, blocks);
      ok := CopyLoop(p, blocks, Slots(area, |blocks|), false);
      InstallPrefix(old(writes), writes, area, d, copies, blocks);
    }

    /** install_trans, log.lh.n = 0 and write_head. */
    method InstallAndClear(p: Pid, ghost copies: seq<Block>) returns (ok: bool)
      requires AreaOk(area, cache.disk) && ListOk(area, cache.disk, blocks) && |cache.logical| == |cache.disk|
      requires cache.logical[area.start] == cache.disk[area.start]
      requires copies == Pick(cache.logical, Slots(area, |blocks|))
      modifies this`cache, this`writes, this`blocks
      ensures old(writes) <= writes <= old(writes) + InstallPhase(area, old(cache.disk), copies, old(blocks))
      ensures ok ==> writes == old(writes) + InstallPhase(area, old(cache.disk), copies, old(blocks))
      ensures ok ==> cache.disk == Cleared(area, old(cache.disk), copies, old(blocks))
      ensures ok ==> cache.logical == Cleared(area, old(cache.logical), copies, old(blocks))
      ensures ok ==> blocks == [] && cache.touched == old(cache.touched)
      ensures ok ==> Cleaned(old(cache), cache, old(blocks))
      ensures old(Quiet(cache)) ==> ok && Idle(cache)
    {
      ghost var d, l, n := cache.disk, cache.logical, |blocks|;
      ok := InstallBlocks(p, copies);
      if !ok { return; }
      PrefixOf(old(writes), d, blocks, copies, n, n, Cleared(area, d, copies, blocks));
      InstallKeepsLog(area, l, blocks, copies, n, area.start);
      CleanedRoom(old(cache), cache, blocks);
      blocks := [];
      ok := WriteHeader(p);
    }

    /** commit(). The disks it runs through are a prefix of CommitTrace, all of it unless it got
        stuck in a panic. */
    method Commit(p: Pid) returns (ok: bool)
      requires AreaOk(area, cache.disk) && ListOk(area, cache.disk, blocks)
      requires |cache.logical| == |cache.disk| && cache.logical[area.start] == cache.disk[area.start]
      modifies this`cache, this`writes, this`blocks
      ensures old(writes) <= writes <= old(writes) + CommitTrace(area, old(cache.disk), old(cache.logical), old(blocks))
      ensures ok && old(blocks) != [] ==>
                && writes == old(writes) + CommitTrace(area, old(cache.disk), old(cache.logical), old(blocks))
                && cache.disk ==
                   CommitDisk(area, old(cache.disk), old(cache.logical), old(blocks), 2 * old(|blocks|) + 2)
                && cache.logical ==
                   CommitDisk(area, old(cache.logical), old(cache.logical), old(blocks), 2 * old(|blocks|) + 2)
      ensures old(blocks) == [] ==> ok && writes == old(writes) && cache == old(cache)
      ensures ok ==> blocks == [] && cache.touched == old(cache.touched)
      ensures ok ==> Cleaned(old(cache), cache, old(blocks))
      ensures old(Quiet(cache)) ==> ok && Idle(cache)
    {
      if |blocks| == 0 {
        return true;
      }
      ok := CommitBlocks(p);
    }

    /** commit() with something to commit. */
    method CommitBlocks(p: Pid) returns (ok: bool)
      requires AreaOk(area, cache.disk) && ListOk(area, cache.disk, blocks) && blocks != []
      requires |cache.logical| == |cache.disk| && cache.logical[area.start] == cache.disk[area.start]
      modifies this`cache, this`writes, this`blocks
      ensures old(writes) <= writes <= old(writes) + CommitTrace(area, old(cache.disk), old(cache.logical), old(blocks))
      ensures ok ==> writes == old(writes) + CommitTrace(area, old(cache.disk), old(cache.logical), old(blocks))
      ensures ok ==>
              cache.disk == CommitDisk(area, old(cache.disk), old(cache.logical), old(blocks), 2 * old(|blocks|) + 2)
      ensures ok ==>
                var writes := 2 * old(|blocks|) + 2;
                cache.logical == CommitDisk(area, old(cache.logical), old(cache.logical), old(blocks), writes)
      ensures ok ==> blocks == [] && cache.touched == old(cache.touched)
      ensures ok ==> Cleaned(old(cache), cache, old(blocks))
      ensures old(Quiet(cache)) ==> ok && Idle(cache)
    {
      ghost var d, l, bs := cache.disk, cache.logical, blocks;
      ok := WriteLog(p);
      TraceJoins(old(writes), writes, area, d, l, bs);
      if !ok { return; }
      ReadBack(area, l, bs);
      CleanedRoom(old(cache), cache, []);
      ok := InstallAndClear(p, Pick(l, bs));
    }

    /** No transaction is on disk, and every change not on disk is in the log header. */
    ghost predicate Valid()
      reads this
    {
      && AreaOk(area, cache.disk) && ListOk(area, cache.disk, blocks)
      && Pending(area, cache.disk, cache.logical, blocks)
      && cache.logical[area.start] == cache.disk[area.start] && Word(cache.disk[area.start], 0) == 0
      && cache.touched == {} && WaitingIn(cache, blocks)
    }

    // ----- recovery ---------------------------------------------------------------------------

    /** read_head */
    method ReadHeader(p: Pid) returns (ok: bool)
      requires |cache.logical| == |cache.disk| && area.start < |cache.disk|
      requires Word(cache.logical[area.start], 0) <= LOGSIZE
      requires cache.touched == {}
      modifies this`cache, this`blocks
      ensures ok ==> cache.disk == old(cache.disk) && cache.logical == old(cache.logical) && cache.touched == {}
      ensures ok ==> blocks == HeadList(area, old(cache.logical))
      ensures ok ==> Cleaned(old(cache), cache, [])
      ensures old(Quiet(cache)) ==> ok && Idle(cache)
    {
      if Quiet(cache) {
        ReadRuns(cache, p, area.start);
      }
      var r := ReadBlock(cache, p, area.start);
      if r.None? {
        return false;
      }
      ReadCleans(cache, p, area.start);
      var (c, head) := r.value;
      blocks := Entries(head);
      cache := c;
      return true;
    }

    /** recover_from_log, on the cache of a fresh boot: it completes, and the log is ready for the
        next transactions. */
    method RecoverFromLog(p: Pid)
      requires cache == Init(cache.disk) && HeaderOk(area, cache.disk)
      modifies this`cache, this`writes, this`blocks
      ensures var d := old(cache.disk); var homes := HeadList(area, d);
              && writes == old(writes) + InstallPhase(area, d, Copies(area, d, |homes|), homes)
              && cache.disk == cache.logical == RecoveryDisk(area, d, |homes| + 1)
      ensures Valid() && blocks == [] && Idle(cache)
    {
      BootQuiet(cache.disk);
      var read := ReadHeader(p);
      CleanedRoom(old(cache), cache, []);
      assert Pick(cache.logical, Slots(area, |blocks|)) == Copies(area, cache.disk, |blocks|);
      var installed := InstallAndClear(p, Copies(area, cache.disk, |blocks|));
    }

    // ----- log_write and whole transactions ---------------------------------------------------

    /** log_write's search of the header: absorb a block already in it, else append it. */
    method AddToHeader(b: Uint)
      modifies this`blocks
      ensures blocks == Listed(old(blocks), b)
    {
      var k := 0;
      while k < |blocks| && blocks[k] != b
        invariant 0 <= k <= |blocks| && b !in blocks[..k] && blocks == old(blocks)
      {
        k := k + 1;
      }
      if k == |blocks| {
        blocks := blocks + [b];
      } else {
        blocks := blocks[k := b];
      }
    }

    /** log_write, with so many operations open; false is a panic. */
    method LogWrite(p: Pid, i: nat, outstanding: nat) returns (ok: bool)
      requires Owns(cache, p, i) && cache.bufs[i].valid && cache.bufs[i].blockno < UINT_LIMIT
      modifies this`cache, this`blocks
      ensures ok <==> old(|blocks|) < LOGSIZE && old(|blocks|) < area.size - 1 && outstanding >= 1
      ensures !ok ==> cache == old(cache) && blocks == old(blocks)
      ensures ok ==> cache == MarkDirty(old(cache), i)
      ensures ok ==> blocks == Listed(old(blocks), old(cache).bufs[i].blockno)
    {
      if |blocks| >= LOGSIZE || |blocks| >= area.size - 1 {
        return false;
      }
      if outstanding < 1 {
        return false;
      }
      AddToHeader(cache.bufs[i].blockno);
      ReachableInv(cache);
      ReachableStep(cache, DirtyEvent(p, i));
      cache := MarkDirty(cache, i);
      return true;
    }

    /** The typical use in the comment of log_write: bread, modify, log_write, brelse. */
    method WriteBlock(p: Pid, b: nat, data: Block) returns (ok: bool)
      requires Valid() && b < |cache.disk| && b < UINT_LIMIT && IsHome(area, b)
      modifies this`cache, this`blocks
      ensures ok ==> Valid() && cache.disk == old(cache.disk) && cache.logical == old(cache.logical)[b := data]
      ensures ok ==> blocks == Listed(old(blocks), b)
      ensures old(Idle(cache)) && old(|blocks|) <= NBUF - 2 && old(|blocks|) < area.size - 1 ==> ok && Idle(cache)
    {
      ghost var quiet := Idle(cache) && |blocks| <= NBUF - 2;
      if quiet {
        ReachableInv(cache);
        LogLeavesRoom(cache, blocks);
        OpenRuns(cache, p, b, data);
      }
      var r := OpenUpdate(cache, p, b, data);
      if r.None? {
        return false;
      }
      OpenWaiting(cache, p, b, data);
      var (c, i) := r.value;
      cache := c;
      CloseUpdate(c, p, i, blocks);
      ok := LogWrite(p, i, 1);
      if !ok { return; }
      ListedUpdate(area, old(cache.disk), old(cache.logical), old(blocks), b, data);
      BrelseOk(cache, p, i);
      cache := Brelse(cache, p, i);
    }

    /** commit() of a pending transaction: every disk it writes recovers to the contents before it or
        to all of its changes. */
    method CommitPending(p: Pid) returns (ok: bool)
      requires Valid()
      modifies this`cache, this`writes, this`blocks
      ensures old(writes) <= writes
      ensures forall k :: old(|writes|) <= k < |writes| ==>
                Recovered(area, writes[k]) ==
                Some(HomeOnly(area, if k - old(|writes|) < old(|blocks|) then old(cache.disk) else old(cache.logical)))
      ensures ok ==> Valid() && blocks == [] && HomeOnly(area, cache.disk) == HomeOnly(area, old(cache.logical))
      ensures old(blocks) == [] ==> ok && writes == old(writes) && cache == old(cache)
      ensures old(Idle(cache)) && old(|blocks|) <= NBUF - 2 ==> ok && Idle(cache)
    {
      ghost var d, l, bs, lo := cache.disk, cache.logical, blocks, |writes|;
      if |bs| <= NBUF - 2 {
        ReachableInv(cache);
        LogLeavesRoom(cache, bs);
      }
      ok := Commit(p);
      forall k | lo <= k < |writes|
        ensures Recovered(area, writes[k]) == Some(HomeOnly(area, if k - lo < |bs| then d else l))
      {
        WriteAtomic(old(writes), writes, area, d, l, bs, k);
      }
      if bs != [] {
        Settled(area, d, l, bs);
      } else {
        assert HomeOnly(area, d) == HomeOnly(area, l);
      }
    }

    /** The block updates of a group of begin_op/end_op sections. */
    method Updates(p: Pid, tx: seq<Update>) returns (ok: bool)
      requires Valid() && blocks == []
      requires forall j :: 0 <= j < |tx| ==> tx[j].0 < |cache.disk| && tx[j].0 < UINT_LIMIT && IsHome(area, tx[j].0)
      modifies this`cache, this`blocks
      ensures ok ==> Valid() && cache.disk == old(cache.disk) && cache.logical == Apply(old(cache.logical), tx)
      ensures tx == [] ==> ok && blocks == [] && cache == old(cache)
      ensures old(Idle(cache)) && Short(area, tx) ==> ok && Idle(cache) && |blocks| <= NBUF - 2
    {
      ghost var l, short := cache.logical, Idle(cache) && Short(area, tx);
      for j := 0 to |tx|
        invariant Valid() && cache.disk == old(cache.disk) && UpdatedTo(l, tx, j, cache.logical, blocks)
        invariant tx == [] ==> blocks == [] && cache == old(cache)
        invariant short ==> Idle(cache)
      {
        UpdatedShort(area, l, tx, j, cache.logical, blocks);
        ghost var l1, was := cache.logical, blocks;
        ok := WriteBlock(p, tx[j].0, tx[j].1);
        if !ok { return; }
        UpdatedMore(l, tx, j, l1, was);
      }
      UpdatedShort(area, l, tx, |tx|, cache.logical, blocks);
      ok := true;
    }

    /** One group of begin_op/end_op sections: its block updates, then the commit. A crash before its
        write number `cut` undoes all of it, a crash from there on none of it. It fails only if it
        is too long or other processes use the cache. */
    method Transaction(p: Pid, tx: seq<Update>) returns (ok: bool, ghost cut: nat)
      requires Valid() && blocks == []
      requires forall j :: 0 <= j < |tx| ==> tx[j].0 < |cache.disk| && tx[j].0 < UINT_LIMIT && IsHome(area, tx[j].0)
      modifies this`cache, this`writes, this`blocks
      ensures old(writes) <= writes
      ensures forall k :: old(|writes|) <= k < |writes| ==>
                Recovered(area, writes[k]) ==
                Some(HomeOnly(area, if k < cut then old(cache.logical) else Apply(old(cache.logical), tx)))
      ensures ok ==> Valid() && blocks == [] && |cache.disk| == old(|cache.disk|)
      ensures ok ==> HomeOnly(area, cache.logical) == HomeOnly(area, Apply(old(cache.logical), tx))
      ensures tx == [] ==> ok && writes == old(writes) && cache == old(cache)
      ensures old(Idle(cache)) && Short(area, tx) ==> ok && Idle(cache)
    {
      ghost var l := cache.logical;
      cut := 0;
      ok := Updates(p, tx);
      if !ok { return; }
      assert HomeOnly(area, cache.disk) == HomeOnly(area, l);
      cut := |writes| + |blocks|;
      ok := CommitPending(p);
      if ok {
        assert HomeOnly(area, cache.logical) == HomeOnly(area, cache.disk);
      }
    }

    /** A whole history of transactions. The disk after write k recovers to the contents after the
        first done[k] of them, never part of one; what is done stays done; and when all have
        returned, all of them survive a crash. */
    method History(p: Pid, txs: seq<seq<Update>>) returns (ok: bool, ghost done: seq<nat>)
      requires Valid() && blocks == []
      requires forall i, j :: 0 <= i < |txs| && 0 <= j < |txs[i]| ==>
                 txs[i][j].0 < |cache.disk| && txs[i][j].0 < UINT_LIMIT && IsHome(area, txs[i][j].0)
      modifies this`cache, this`writes, this`blocks
      ensures old(writes) <= writes && Recorded(area, writes, old(|writes|), old(cache.logical), txs, done, |txs|)
      ensures ok ==> RecoversTo(area, cache.disk, old(cache.logical), txs, |txs|)
      ensures old(Idle(cache)) && (forall i :: 0 <= i < |txs| ==> Short(area, txs[i])) ==> ok
    {
      ghost var l0, lo := cache.logical, |writes|;
      ghost var small := Idle(cache) && forall i :: 0 <= i < |txs| ==> Short(area, txs[i]);
      done := [];
      for i := 0 to |txs|
        invariant Valid() && blocks == [] && |cache.disk| == old(|cache.disk|) && (small ==> Idle(cache))
        invariant HomeOnly(area, cache.logical) == HomeOnly(area, ApplyAll(l0, txs[..i]))
        invariant old(writes) <= writes && Recorded(area, writes, lo, l0, txs, done, i)
      {
        ghost var l, was := cache.logical, writes;
        ghost var cut;
        ok, cut := Transaction(p, txs[i]);
        done := RecordMore(area, was, writes, lo, l0, txs, done, i, l, cut);
        if !ok { return; }
      }
      assert txs[..|txs|] == txs;
      ok := true;
      ClearedRecovers(area, cache.disk);
      assert HomeOnly(area, cache.disk) == HomeOnly(area, cache.logical);
    }
  }

  /** The blocks a transaction updates, each once. */
  function Touched(tx: seq<Update>): (r: set<nat>) { set k | 0 <= k < |tx| :: tx[k].0 }

  /** Short enough for the cache, and for the log: log_write checks it even for a block it absorbs. */
  predicate Short(a: Area, tx: seq<Update>)
  {
    |Touched(tx)| <= NBUF - 2 && forall j :: 0 <= j < |tx| ==> |Touched(tx[..j])| < a.size - 1
  }

  predicate AllTouched(blocks: seq<nat>, tx: seq<Update>)
  {
    forall k :: 0 <= k < |blocks| ==> blocks[k] in Touched(tx)
  }

  lemma TouchedCount(blocks: seq<nat>, tx: seq<Update>, j: nat)
    requires j <= |tx| && Distinct(blocks) && AllTouched(blocks, tx[..j])
    ensures |blocks| <= |Touched(tx[..j])| <= |Touched(tx)|
  {
    DistinctSize(blocks);
    SubsetSize(Elements(blocks), Touched(tx[..j]));
    forall b | b in Touched(tx[..j]) ensures b in Touched(tx) {
      var k :| 0 <= k < j && tx[..j][k].0 == b;
      assert tx[k].0 == b;
    }
    SubsetSize(Touched(tx[..j]), Touched(tx));
  }

  /** The first j updates have been made to v, and the header lists blocks. */
  predicate UpdatedTo(v: seq<Block>, tx: seq<Update>, j: nat, now: seq<Block>, blocks: seq<Uint>)
  {
    j <= |tx| && now == Apply(v, tx[..j]) && AllTouched(blocks, tx[..j])
  }

  lemma UpdatedShort(a: Area, v: seq<Block>, tx: seq<Update>, j: nat, now: seq<Block>, blocks: seq<Uint>)
    requires UpdatedTo(v, tx, j, now, blocks) && Distinct(blocks)
    ensures Short(a, tx) ==> |blocks| <= NBUF - 2 && (j < |tx| ==> |blocks| < a.size - 1)
    ensures j == |tx| ==> now == Apply(v, tx)
  {
    TouchedCount(blocks, tx, j);
    assert tx[..|tx|] == tx;
  }

  lemma UpdatedMore(v: seq<Block>, tx: seq<Update>, j: nat, now: seq<Block>, blocks: seq<Uint>)
    requires j < |tx| && UpdatedTo(v, tx, j, now, blocks) && tx[j].0 < |v| && tx[j].0 < UINT_LIMIT
    ensures |now| == |v| && UpdatedTo(v, tx, j + 1, now[tx[j].0 := tx[j].1], Listed(blocks, tx[j].0))
  {
    TouchedMore(blocks, tx, j);
    assert tx[..j + 1][..j] == tx[..j];
  }

  lemma TouchedMore(blocks: seq<Uint>, tx: seq<Update>, j: nat)
    requires j < |tx| && tx[j].0 < UINT_LIMIT && AllTouched(blocks, tx[..j])
    ensures AllTouched(Listed(blocks, tx[j].0), tx[..j + 1])
  {
    assert tx[..j + 1][j].0 == tx[j].0;
    forall k | 0 <= k < |blocks| ensures blocks[k] in Touched(tx[..j + 1]) {
      var m :| 0 <= m < j && tx[..j][m].0 == blocks[k];
      assert tx[..j + 1][m].0 == blocks[k];
    }
  }

  /** Recovery of d leaves the contents after the first n transactions. */
  ghost predicate RecoversTo(a: Area, d: seq<Block>, v: seq<Block>, txs: seq<seq<Update>>, n: nat)
  {
    n <= |txs| && Recovered(a, d) == Some(HomeOnly(a, ApplyAll(v, txs[..n])))
  }

  /** The disks from number lo on recover to ever more of the first n transactions. */
  ghost predicate Recorded(a: Area, writes: seq<seq<Block>>, lo: nat, v: seq<Block>, txs: seq<seq<Update>>,
                           done: seq<nat>, n: nat)
  {
    && |writes| == lo + |done|
    && (forall k :: 0 <= k < |done| ==> done[k] <= n && RecoversTo(a, writes[lo + k], v, txs, done[k]))
    && (forall k, m :: 0 <= k <= m < |done| ==> done[k] <= done[m])
  }

  lemma RecordMore(a: Area, writes: seq<seq<Block>>, writes': seq<seq<Block>>, lo: nat, v: seq<Block>,
                   txs: seq<seq<Update>>, done: seq<nat>, i: nat, l: seq<Block>, cut: nat)
    returns (done': seq<nat>)
    requires i < |txs| && Recorded(a, writes, lo, v, txs, done, i) && writes <= writes'
    requires HomeOnly(a, l) == HomeOnly(a, ApplyAll(v, txs[..i]))
    requires forall j :: 0 <= j < |txs[i]| ==> IsHome(a, txs[i][j].0)
    requires forall k :: |writes| <= k < |writes'| ==>
               Recovered(a, writes'[k]) == Some(HomeOnly(a, if k < cut then l else Apply(l, txs[i])))
    ensures Recorded(a, writes', lo, v, txs, done', i + 1)
    ensures HomeOnly(a, Apply(l, txs[i])) == HomeOnly(a, ApplyAll(v, txs[..i + 1]))
  {
    assert txs[..i + 1][..i] == txs[..i];
    SameHomeApply(a, l, ApplyAll(v, txs[..i]), txs[i]);
    done' := done + seq(|writes'| - |writes|, k requires 0 <= k => if |writes| + k < cut then i else i + 1);
    forall k | 0 <= k < |done'|
      ensures done'[k] <= i + 1 && RecoversTo(a, writes'[lo + k], v, txs, done'[k])
    {
      if k < |done| {
        assert writes'[lo + k] == writes[lo + k];
      }
    }
  }

  /** Updates of home blocks depend only on the home contents. */
  lemma {:induction false} SameHomeApply(a: Area, v: seq<Block>, w: seq<Block>, tx: seq<Update>)
    requires HomeOnly(a, v) == HomeOnly(a, w)
    requires forall j :: 0 <= j < |tx| ==> IsHome(a, tx[j].0)
    ensures HomeOnly(a, Apply(v, tx)) == HomeOnly(a, Apply(w, tx))
  {
    assert |v| == |HomeOnly(a, v)| == |w|;
    if tx != [] {
      var n := |tx| - 1;
      SameHomeApply(a, v, w, tx[..n]);
      var x, y := Apply(v, tx[..n]), Apply(w, tx[..n]);
      forall b | 0 <= b < |v|
        ensures HomeOnly(a, Apply(v, tx))[b] == HomeOnly(a, Apply(w, tx))[b]
      {
        assert HomeOnly(a, x)[b] == HomeOnly(a, y)[b];
      }
    }
  }

  lemma PrefixOf(w: seq<seq<Block>>, d: seq<Block>, homes: seq<nat>, copies: seq<Block>, k: nat, j: nat, x: seq<Block>)
    requires j <= k <= |homes| == |copies|
    ensures w + InstallTrace(d, homes, copies, j) <= w + (InstallTrace(d, homes, copies, k) + [x])
    ensures (w + InstallTrace(d, homes, copies, k)) + [x] == w + (InstallTrace(d, homes, copies, k) + [x])
  {
    if j < k {
      InstallTraceAt(d, homes, copies, k, j);
    }
  }

  lemma LogPrefix(w: seq<seq<Block>>, w': seq<seq<Block>>, a: Area, d: seq<Block>, l: seq<Block>, blocks: seq<Uint>)
    requires a.start < |d| && |blocks| <= LOGSIZE && 0 <= |w'| - |w| <= |blocks|
    requires w' == w + InstallTrace(d, Slots(a, |blocks|), Pick(l, blocks), |w'| - |w|)
    ensures w <= w' <= w + LogTrace(a, d, l, blocks)
  {
    PrefixOf(w, d, Slots(a, |blocks|), Pick(l, blocks), |blocks|, |w'| - |w|, Committed(a, d, l, blocks));
  }

  lemma InstallPrefix(w: seq<seq<Block>>, w': seq<seq<Block>>, a: Area, d: seq<Block>, copies: seq<Block>,
                      blocks: seq<Uint>)
    requires a.start < |d| && |copies| == |blocks| && 0 <= |w'| - |w| <= |blocks|
    requires w' == w + InstallTrace(d, blocks, copies, |w'| - |w|)
    ensures w <= w' <= w + InstallPhase(a, d, copies, blocks)
  {
    PrefixOf(w, d, blocks, copies, |blocks|, |w'| - |w|, Cleared(a, d, copies, blocks));
  }

  /** Every write of a commit recovers to all of the transaction or to nothing of it. */
  lemma WriteAtomic(w: seq<seq<Block>>, w': seq<seq<Block>>, a: Area, d: seq<Block>, l: seq<Block>, bs: seq<Uint>,
                    k: nat)
    requires AreaOk(a, d) && ListOk(a, d, bs) && Pending(a, d, l, bs) && Word(d[a.start], 0) == 0
    requires d[a.start] == l[a.start]
    requires w <= w' <= w + CommitTrace(a, d, l, bs) && |w| <= k < |w'|
    ensures Recovered(a, w'[k]) == Some(HomeOnly(a, if k - |w| < |bs| then d else l))
  {
    TraceAtomic(a, d, l, bs, k - |w|);
    assert w'[k] == (w + CommitTrace(a, d, l, bs))[k];
  }

  /** The writes up to the commit point are the first part of commit()'s, and the rest follows them. */
  lemma TraceJoins(w: seq<seq<Block>>, w': seq<seq<Block>>, a: Area, d: seq<Block>, l: seq<Block>, blocks: seq<Uint>)
    requires a.start < |d| == |l| && |blocks| <= LOGSIZE && d[a.start] == l[a.start]
    requires w <= w' <= w + LogTrace(a, d, l, blocks)
    ensures w <= w' <= w + CommitTrace(a, d, l, blocks)
    ensures Committed(a, l, l, blocks)[a.start] == Committed(a, d, l, blocks)[a.start]
    ensures var t1 := LogTrace(a, d, l, blocks);
            var t2 := InstallPhase(a, Committed(a, d, l, blocks), Pick(l, blocks), blocks);
            (w + t1) + t2 == w + CommitTrace(a, d, l, blocks)
  {
    var t1, t2 := LogTrace(a, d, l, blocks), InstallPhase(a, Committed(a, d, l, blocks), Pick(l, blocks), blocks);
    assert (w + t1) + t2 == w + (t1 + t2);
    assert w + t1 <= (w + t1) + t2;
  }

  /** write_head after write_log makes the committed disk. */
  lemma HeaderLands(a: Area, d: seq<Block>, l: seq<Block>, blocks: seq<Uint>)
    requires AreaOk(a, d) && ListOk(a, d, blocks) && |l| == |d| && l[a.start] == d[a.start]
    ensures var copies := Pick(l, blocks);
            var dd := Install(d, Slots(a, |blocks|), copies, |blocks|);
            var ll := Install(l, Slots(a, |blocks|), copies, |blocks|);
            && |dd| == |ll| == |d|
            && dd[a.start := Header(ll[a.start], blocks)] == Committed(a, d, l, blocks)
            && ll[a.start := Header(ll[a.start], blocks)] == Committed(a, l, l, blocks)
  {
    SlotsAreLog(a, d, blocks);
    InstallAt(l, Slots(a, |blocks|), Pick(l, blocks), |blocks|, a.start);
  }
}

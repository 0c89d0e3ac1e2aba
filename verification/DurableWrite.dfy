/** filewrite with its transactions sent through the log: what a crash at any disk write leaves of
    the file system. */
module DurableWrite {
  import opened Collections
  import opened Layout
  import opened BufferCache
  import opened Log
  import opened Inodes
  import opened FileSystem
  import opened FileOps
  import IdleCache
  import RedoLog

  /** The file system's disk is what the log's cache presents outside the log area, which lies in
      front of the inode blocks. */
  ghost predicate Presents(a: Area, cached: seq<Block>, fs: Fs)
  {
    HomeOnly(a, cached) == fs.disk && a.start + a.size <= fs.sb.inodestart
  }

  /** No transaction is under way. */
  ghost predicate Ready(lg: RedoLog.Logger, fs: Fs)
    reads lg
  {
    lg.Valid() && lg.blocks == [] && Presents(lg.area, lg.cache.logical, fs)
  }

  /** Enough for a transaction of filewrite to go through. */
  ghost predicate Roomy(lg: RedoLog.Logger, sb: Super)
    reads lg
  {
    IdleCache.Idle(lg.cache) && sb.size <= BPB && lg.area.size >= 9
  }

  /** The same updates of home blocks on both. */
  lemma {:induction false} HomeApply(a: Area, cached: seq<Block>, disk: seq<Block>, tx: seq<Update>)
    requires HomeOnly(a, cached) == disk && forall k :: 0 <= k < |tx| ==> IsHome(a, tx[k].0)
    ensures HomeOnly(a, Apply(cached, tx)) == Apply(disk, tx)
  {
    assert |disk| == |HomeOnly(a, cached)| == |cached|;
    if tx != [] {
      var n := |tx| - 1;
      HomeApply(a, cached, disk, tx[..n]);
      var x, y := Apply(cached, tx), Apply(disk, tx);
      var x0, y0 := Apply(cached, tx[..n]), Apply(disk, tx[..n]);
      forall b | 0 <= b < |disk|
        ensures HomeOnly(a, x)[b] == y[b]
      {
        assert HomeOnly(a, x0)[b] == y0[b];
      }
    }
  }

  lemma SmallIsShort(a: Area, tx: seq<Update>, op: set<nat>)
    requires Within(tx, op) && |op| <= 7 && a.size >= 9
    ensures RedoLog.Short(a, tx)
  {
    SubsetSize(RedoLog.Touched(tx), op);
    forall j | 0 <= j < |tx|
      ensures |RedoLog.Touched(tx[..j])| < a.size - 1
    {
      SubsetSize(RedoLog.Touched(tx[..j]), op);
    }
  }

  /** One begin_op/end_op section of filewrite, committed: each of its disk writes recovers to the file
      system before it or to the one after it. */
  method CommitChunk(lg: RedoLog.Logger, p: Pid, v: Volume, f: OpenFile, addr: seq<Byte>, a: nat, b: nat,
                     ghost was: Fs, ghost start: nat) returns (r: Outcome, ok: bool, ghost cut: nat)
    requires a < b <= |addr| && b - a <= CHUNK && Prefixed(was, v.Now(), f.ip, start, addr, a)
    requires f.off == start + a < UINT_LIMIT
    requires Ready(lg, v.Now())
    modifies v, f, lg`cache, lg`writes, lg`blocks
    ensures r == Refused <==> old(f.off) > old(v.inodes[f.ip].size) || start + b > MAXBYTES
    ensures r == Refused ==> v.Now() == old(v.Now()) && f.off == old(f.off) && ok && lg.writes == old(lg.writes)
    ensures r.Wrote? ==>
              Prefixed(was, v.Now(), f.ip, start, addr, b) && f.off == start + b <= v.inodes[f.ip].size && r.n == b - a
    ensures r == Panicked ==> lg.writes == old(lg.writes)
    ensures r.Wrote? ==> old(lg.writes) <= lg.writes
    ensures r.Wrote? ==> forall k :: old(|lg.writes|) <= k < |lg.writes| ==>
              Recovered(lg.area, lg.writes[k]) == Some(if k < cut then old(v.disk) else v.disk)
    ensures r != Panicked && ok ==> Ready(lg, v.Now())
    ensures r != Panicked && old(Roomy(lg, v.sb)) ==> ok && Roomy(lg, v.sb)
  {
    ghost var op: set<nat>;
    r, op := WriteChunk(v, f, addr, a, b, was, start);
    ok, cut := false, 0;
    if r != Panicked {
      var tx := v.trace;
      HomeApply(lg.area, lg.cache.logical, old(v.disk), tx);
      if |op| <= 7 && lg.area.size >= 9 { SmallIsShort(lg.area, tx, op); }
      ok, cut := lg.Transaction(p, tx);
    }
  }

  /** How much of n bytes the first k transactions write. */
  function Upto(n: nat, k: nat): (r: nat) { if k * CHUNK <= n then k * CHUNK else n }

  /** The file system after 0, 1, 2, ... transactions of a filewrite: the first so many chunks of addr
      are in the file, whole, and no other file has changed. */
  ghost predicate Stages(stages: seq<Fs>, was: Fs, ip: nat, start: nat, addr: seq<Byte>)
  {
    |stages| > 0 && forall n :: 0 <= n < |stages| ==> Prefixed(was, stages[n], ip, start, addr, Upto(|addr|, n))
  }

  /** The disks from number lo on recover to ever later stages. */
  ghost predicate Recoverable(a: Area, writes: seq<seq<Block>>, lo: nat, stages: seq<Fs>, done: seq<nat>)
  {
    && |writes| == lo + |done|
    && (forall k :: 0 <= k < |done| ==>
       done[k] < |stages| && Recovered(a, writes[lo + k]) == Some(stages[done[k]].disk))
    && (forall k, m :: 0 <= k <= m < |done| ==> done[k] <= done[m])
  }

  lemma RecoverableMore(a: Area, writes: seq<seq<Block>>, writes': seq<seq<Block>>, lo: nat, stages: seq<Fs>,
                        done: seq<nat>, next: Fs, cut: nat) returns (done': seq<nat>)
    requires |stages| > 0 && Recoverable(a, writes, lo, stages, done) && writes <= writes'
    requires forall k :: |writes| <= k < |writes'| ==>
               Recovered(a, writes'[k]) == Some(if k < cut then stages[|stages| - 1].disk else next.disk)
    ensures Recoverable(a, writes', lo, stages + [next], done')
  {
    var n := |stages|;
    done' := done + seq(|writes'| - |writes|, k requires 0 <= k => if |writes| + k < cut then n - 1 else n);
    forall k | 0 <= k < |done'|
      ensures done'[k] <= n && Recovered(a, writes'[lo + k]) == Some((stages + [next])[done'[k]].disk)
    {
      if k < |done| {
        assert writes'[lo + k] == writes[lo + k];
      }
    }
  }

  /** A filewrite after |stages| - 1 transactions: what it has reached and what its disk writes recover
      to, the writes from number lo on being its own. */
  ghost predicate Reached(a: Area, writes: seq<seq<Block>>, lo: nat, stages: seq<Fs>, done: seq<nat>,
                          was: Fs, ip: nat, start: nat, addr: seq<Byte>, now: Fs, i: nat)
  {
    && Stages(stages, was, ip, start, addr) && i == Upto(|addr|, |stages| - 1) && now == stages[|stages| - 1]
    && Recoverable(a, writes, lo, stages, done)
  }

  lemma ReachedMore(a: Area, writes: seq<seq<Block>>, writes': seq<seq<Block>>, lo: nat, stages: seq<Fs>,
                    done: seq<nat>, was: Fs, ip: nat, start: nat, addr: seq<Byte>,
                    now: Fs, i: nat, now': Fs, i': nat, cut: nat)
    returns (done': seq<nat>)
    requires Reached(a, writes, lo, stages, done, was, ip, start, addr, now, i) && i < i' <= |addr| && writes <= writes'
    requires i' - i == CHUNK || (i' == |addr| && i' - i < CHUNK)
    requires Prefixed(was, now', ip, start, addr, i')
    requires forall k :: |writes| <= k < |writes'| ==>
             Recovered(a, writes'[k]) == Some(if k < cut then now.disk else now'.disk)
    ensures Reached(a, writes', lo, stages + [now'], done', was, ip, start, addr, now', i')
  {
    done' := RecoverableMore(a, writes, writes', lo, stages, done, now', cut);
    assert i' == Upto(|addr|, |stages|);
  }

  lemma ReachedNext(a: Area, writes: seq<seq<Block>>, lo: nat, stages: seq<Fs>, done: seq<nat>,
                    was: Fs, ip: nat, start: nat, addr: seq<Byte>, now: Fs, i: nat)
    requires Reached(a, writes, lo, stages, done, was, ip, start, addr, now, i) && i < |addr|
    ensures Prefixed(was, now, ip, start, addr, i)
    ensures Upto(|addr|, |stages|) == if |addr| - i > CHUNK then i + CHUNK else |addr|
  {
  }

  /** A round of filewrite's loop. */
  method NextChunk(lg: RedoLog.Logger, p: Pid, v: Volume, f: OpenFile, addr: seq<Byte>, i: nat,
                   ghost was: Fs, ghost start: nat, ghost lo: nat, ghost stages: seq<Fs>, ghost done: seq<nat>)
    returns (r: Outcome, ok: bool, ghost stages': seq<Fs>, ghost done': seq<nat>)
    requires Reached(lg.area, lg.writes, lo, stages, done, was, f.ip, start, addr, v.Now(), i)
    requires i < |addr| && f.off == start + i < UINT_LIMIT && f.ip < |v.inodes|
    requires Ready(lg, v.Now())
    modifies v, f, lg`cache, lg`writes, lg`blocks
    ensures !r.Wrote? ==> lg.writes == old(lg.writes) && stages' == stages && done' == done
    ensures r == Refused <==> start + i > old(v.inodes[f.ip].size) || start + Upto(|addr|, |stages|) > MAXBYTES
    ensures r == Refused ==> v.Now() == old(v.Now()) && f.off == old(f.off) && ok
    ensures r.Wrote? ==> old(lg.writes) <= lg.writes
    ensures r.Wrote? ==> Reached(lg.area, lg.writes, lo, stages', done', was, f.ip, start, addr, v.Now(), i + r.n)
    ensures r.Wrote? ==> 0 < r.n <= |addr| - i && f.ip < |v.inodes| && f.off == start + i + r.n <= v.inodes[f.ip].size
    ensures r != Panicked && ok ==> Ready(lg, v.Now())
    ensures r != Panicked && old(Roomy(lg, v.sb)) ==> ok && Roomy(lg, v.sb)
  {
    ghost var now, written := v.Now(), lg.writes;
    ReachedNext(lg.area, lg.writes, lo, stages, done, was, f.ip, start, addr, now, i);
    var n1 := if |addr| - i > CHUNK then CHUNK else |addr| - i;
    ghost var cut;
    r, ok, cut := CommitChunk(lg, p, v, f, addr, i, i + n1, was, start);
    stages', done' := stages, done;
    if r.Wrote? {
      ghost var now' := v.Now();
      done' := ReachedMore(lg.area, written, lg.writes, lo, stages, done, was, f.ip, start, addr,
                           now, i, now', i + n1, cut);
      stages' := stages + [now'];
    }
  }

  /** writei's bounds checks, for all of a write. */
  predicate Rejected(was: Fs, ip: nat, start: nat, n: nat)
    requires ip < |was.inodes|
  {
    start > was.inodes[ip].size || start + n > MAXBYTES
  }

  /** What the bounds checks have let through after i bytes. */
  predicate Accepted(was: Fs, now: Fs, ip: nat, start: nat, i: nat)
  {
    && ip < |was.inodes| && ip < |now.inodes|
    && (i > 0 ==> start <= was.inodes[ip].size && start + i <= now.inodes[ip].size && start + i <= MAXBYTES)
  }

  /** filewrite's loop */
  method ChunkLoop(lg: RedoLog.Logger, p: Pid, v: Volume, f: OpenFile, addr: seq<Byte>)
    returns (r: Outcome, ok: bool, i: nat, ghost now: Fs, ghost stages: seq<Fs>, ghost done: seq<nat>)
    requires Valid(v.Now()) && f.ip < |v.inodes| && f.off < UINT_LIMIT && Ready(lg, v.Now())
    modifies v, f, lg`cache, lg`writes, lg`blocks
    ensures old(lg.writes) <= lg.writes
    ensures Reached(lg.area, lg.writes, old(|lg.writes|), stages, done, old(v.Now()), f.ip, old(f.off), addr, now, i)
    ensures r != Panicked ==> v.Now() == now && f.off == old(f.off) + i && (ok ==> Ready(lg, now))
    ensures r != Panicked && ok ==> (i < |addr| <==> addr != [] && Rejected(old(v.Now()), f.ip, old(f.off), |addr|))
    ensures r != Panicked && old(Roomy(lg, v.sb)) ==> ok
  {
    ghost var was, start, lo := v.Now(), f.off, |lg.writes|;
    stages, done, i, now, r, ok := [was], [], 0, was, Wrote(0), true;
    while i < |addr|
      invariant i <= |addr| && ok && r != Panicked && now == v.Now()
      invariant Reached(lg.area, lg.writes, lo, stages, done, was, f.ip, start, addr, now, i)
      invariant f.off == start + i && old(lg.writes) <= lg.writes && Accepted(was, now, f.ip, start, i)
      invariant Ready(lg, now) && (old(Roomy(lg, v.sb)) ==> Roomy(lg, v.sb))
    {
      r, ok, stages, done := NextChunk(lg, p, v, f, addr, i, was, start, lo, stages, done);
      if !r.Wrote? {
        return;
      }
      now := v.Now();
      i := i + r.n;
      if !ok {
        return;
      }
    }
  }

  /** A whole filewrite. Whatever disk write a crash follows, recovery leaves a valid file system in
      which a whole number of its transactions has happened, at least as many as after any earlier
      write; and once it has returned, everything it wrote survives. It gets stuck in the log only
      if other processes hold buffers or the log is shorter than a transaction needs. */
  method DurableFilewrite(lg: RedoLog.Logger, p: Pid, v: Volume, f: OpenFile, addr: seq<Byte>)
    returns (r: Outcome, ok: bool, ghost stages: seq<Fs>, ghost done: seq<nat>)
    requires Valid(v.Now()) && f.ip < |v.inodes| && f.off < UINT_LIMIT && |addr| < 0x8000_0000
    requires Ready(lg, v.Now())
    modifies v, f, lg`cache, lg`writes, lg`blocks
    ensures old(lg.writes) <= lg.writes && Stages(stages, old(v.Now()), f.ip, old(f.off), addr)
    ensures Recoverable(lg.area, lg.writes, old(|lg.writes|), stages, done)
    ensures r != Panicked && ok ==>
              && v.Now() == stages[|stages| - 1] && f.off == old(f.off) + Upto(|addr|, |stages| - 1)
              && Recovered(lg.area, lg.cache.disk) == Some(v.disk)
    ensures r.Wrote? && ok ==> r.n == Upto(|addr|, |stages| - 1) == |addr|
    ensures r != Panicked && ok ==>
              (r == Refused <==>
                addr != [] && (old(f.off) > old(v.inodes[f.ip].size) || old(f.off) + |addr| > MAXBYTES))
    ensures r != Panicked && old(Roomy(lg, v.sb)) ==> ok
  {
    var i: nat;
    ghost var now: Fs;
    r, ok, i, now, stages, done := ChunkLoop(lg, p, v, f, addr);
    if r != Panicked {
      r := if i == |addr| then Wrote(i) else Refused;
      if ok { Settled(lg, v); }
    }
  }

  lemma Settled(lg: RedoLog.Logger, v: Volume)
    requires Ready(lg, v.Now())
    ensures Recovered(lg.area, lg.cache.disk) == Some(v.disk)
  {
    ClearedRecovers(lg.area, lg.cache.disk);
    assert HomeOnly(lg.area, lg.cache.disk) == HomeOnly(lg.area, lg.cache.logical);
  }

  /** Booting from a disk a crash left behind: recovery completes, and the next filewrite can begin on the
      file system it left. */
  method Reboot(area: Area, disk: seq<Block>, p: Pid, ghost fs: Fs) returns (lg: RedoLog.Logger)
    requires Recovered(area, disk) == Some(fs.disk) && area.start + area.size <= fs.sb.inodestart
    ensures fresh(lg) && lg.area == area && Ready(lg, fs) && IdleCache.Idle(lg.cache)
  {
    lg := new RedoLog.Logger(area, disk);
    lg.RecoverFromLog(p);
  }
}

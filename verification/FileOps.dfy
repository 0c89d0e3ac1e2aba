/** file.c on top of the file system: filewrite, which cuts a write into transactions, and the copy
    loop of make_duplicate. */
module FileOps {
  import opened Collections
  import opened Layout
  import opened Inodes
  import opened FileSystem
  import Log
  import LogAdmission

  const CHUNK := 1536      // ((MAXOPBLOCKS-1-1-2) / 2) * 512
  const BUFFER := 512      // make_duplicate's buf

  // ----- how much one transaction logs --------------------------------------------------------

  /** The block at a place, if there is one. */
  function OneBlock(fs: Fs, pl: Place): (r: set<nat>)
    ensures |r| <= 1
  {
    if Pointer(fs, pl) == 0 then {} else {Pointer(fs, pl)}
  }

  /** The blocks of file i from block a up to block b. */
  function FileBlocks(fs: Fs, i: nat, a: nat, b: nat): (r: set<nat>)
    requires a <= b
    ensures |r| <= b - a
  {
    if a == b then {} else FileBlocks(fs, i, a, b - 1) + OneBlock(fs, Data(i, b - 1))
  }

  lemma {:induction false} FileBlocksHas(fs: Fs, i: nat, a: nat, b: nat, k: nat)
    requires a <= k < b
    ensures OneBlock(fs, Data(i, k)) <= FileBlocks(fs, i, a, b)
  {
    if k < b - 1 { FileBlocksHas(fs, i, a, b - 1, k); }
  }

  lemma AtMostFour(off: nat, n: nat)
    requires n <= CHUNK
    ensures off / BSIZE <= BlockEnd(off + n) <= off / BSIZE + 4
  {
  }

  lemma MayLogIn(fs: Fs, i: nat, a: nat, b: nat, x: nat)
    requires Owned(fs, {}, {}) && fs.sb.size <= BPB && a <= b && MayLog(fs, i, a, b, x)
    ensures x in {IBlock(fs.sb, i)} + {fs.sb.bmapstart} + OneBlock(fs, Ind(i)) + FileBlocks(fs, i, a, b)
  {
    if x in fs.owner && x != IBlock(fs.sb, i) && x != fs.sb.bmapstart {
      assert Hangs(fs, {}, x);
      if fs.owner[x] != Ind(i) { FileBlocksHas(fs, i, a, b, fs.owner[x].k); }
    }
  }

  /** A write of at most CHUNK bytes logs at most 7 blocks - 4 of data, the bitmap's, the indirect
      and the inode's - on a disk whose bitmap is one block; log admission
      is safe below MAXOPBLOCKS. */
  lemma ChunkLogsSeven(fs: Fs, i: nat, off: nat, n: nat, logged: set<nat>)
    requires Owned(fs, {}, {}) && fs.sb.size <= BPB && n <= CHUNK
    requires LoggedIn(logged, {}, fs, i, off / BSIZE, BlockEnd(off + n))
    ensures |logged| <= 7 < LogAdmission.MAXOPBLOCKS
  {
    var a, b := off / BSIZE, BlockEnd(off + n);
    AtMostFour(off, n);
    var all := {IBlock(fs.sb, i)} + {fs.sb.bmapstart} + OneBlock(fs, Ind(i)) + FileBlocks(fs, i, a, b);
    forall x | x in logged ensures x in all { MayLogIn(fs, i, a, b, x); }
    SubsetSize(logged, all);
  }

  /** What a write logs lies behind the log: inode, bitmap or data blocks. */
  lemma MayLogBehind(fs: Fs, i: nat, a: nat, b: nat, x: nat)
    requires Owned(fs, {}, {}) && i < |fs.inodes| && MayLog(fs, i, a, b, x)
    ensures fs.sb.inodestart <= x < fs.sb.size
  {
    if x in fs.owner {
      assert Hangs(fs, {}, x);
    }
  }

  // ----- filewrite ----------------------------------------------------------------------------

  /** The inode part of a struct file. */
  class OpenFile {
    const ip: nat
    var off: nat

    constructor (ip: nat)
      ensures this.ip == ip && off == 0
    {
      this.ip := ip;
      off := 0;
    }
  }

  /** Every transaction of ops is small. */
  predicate SmallOps(ops: seq<set<nat>>)
  {
    forall k :: 0 <= k < |ops| ==> |ops[k]| <= 7
  }

  /** Writing b after a is writing both at once. */
  lemma SpliceTwice(c: seq<Byte>, off: nat, a: seq<Byte>, b: seq<Byte>)
    requires off <= |c|
    ensures off + |a| <= |Splice(c, off, a)| && Splice(Splice(c, off, a), off + |a|, b) == Splice(c, off, a + b)
  {
    var d := Splice(c, off, a);
    assert d[..off + |a|] == c[..off] + a;
    assert off + |a| + |b| <= |c| ==> d[off + |a| + |b|..] == c[off + |a| + |b|..];
  }

  /** The first i bytes of addr are in the file from start on, and nothing else has changed. */
  ghost predicate Prefixed(was: Fs, now: Fs, ip: nat, start: nat, addr: seq<Byte>, i: nat)
    requires i <= |addr|
  {
    && Valid(now) && OthersKept(was, now, ip) && ip < |was.inodes|
    && (i == 0 ==> now == was)
    && (i > 0 ==> start <= was.inodes[ip].size && Contents(now, ip) == Splice(Contents(was, ip), start, addr[..i]))
  }

  lemma PrefixedStep(was: Fs, mid: Fs, now: Fs, ip: nat, start: nat, addr: seq<Byte>, a: nat, b: nat)
    requires a < b <= |addr| && Prefixed(was, mid, ip, start, addr, a) && start + a <= mid.inodes[ip].size
    requires Valid(now) && OthersKept(mid, now, ip)
    requires Contents(now, ip) == Splice(Contents(mid, ip), start + a, addr[a..b])
    ensures Prefixed(was, now, ip, start, addr, b) && start + b <= now.inodes[ip].size
  {
    assert |Contents(now, ip)| >= start + b;
    if a == 0 {
      assert addr[..b] == addr[0..b];
    } else {
      SpliceTwice(Contents(was, ip), start, addr[..a], addr[a..b]);
      assert addr[..a] + addr[a..b] == addr[..b];
    }
  }

  /** One begin_op/end_op section of filewrite: bytes a to b of addr, within a write begun at start. */
  method WriteChunk(v: Volume, f: OpenFile, addr: seq<Byte>, a: nat, b: nat, ghost was: Fs, ghost start: nat)
    returns (r: Outcome, ghost op: set<nat>)
    requires a < b <= |addr| && b - a <= CHUNK && Prefixed(was, v.Now(), f.ip, start, addr, a)
    requires f.off == start + a < UINT_LIMIT
    modifies v, f
    ensures r == Refused <==> old(f.off) > old(v.inodes[f.ip].size) || start + b > MAXBYTES
    ensures r == Refused ==> v.Now() == old(v.Now()) && f.off == old(f.off) && v.trace == []
    ensures r == Panicked ==> Shaped(v.Now()) && forall x: nat :: x < v.sb.size ==> Used(v.Now(), x)
    ensures r.Wrote? ==>
              Prefixed(was, v.Now(), f.ip, start, addr, b) && f.off == start + b <= v.inodes[f.ip].size && r.n == b - a
    ensures r != Panicked && v.sb.size <= BPB ==> |op| <= 7
    ensures r != Panicked ==> v.disk == Log.Apply(old(v.disk), v.trace) && Within(v.trace, op)
    ensures r != Panicked ==> forall x :: x in op ==> v.sb.inodestart <= x < v.sb.size
  {
    v.logged := {};
    v.trace := [];
    ghost var mid := v.Now();
    r := v.Writei(f.ip, f.off, addr[a..b]);
    op := v.logged;
    if r.Wrote? {
      if v.sb.size <= BPB { ChunkLogsSeven(v.Now(), f.ip, f.off, b - a, v.logged); }
      forall x | x in op ensures v.sb.inodestart <= x < v.sb.size {
        MayLogBehind(v.Now(), f.ip, f.off / BSIZE, BlockEnd(f.off + (b - a)), x);
      }
      PrefixedStep(was, mid, v.Now(), f.ip, start, addr, a, b);
      f.off := f.off + r.n;
    }
  }

  /** filewrite to an inode: transaction by transaction. What it wrote is a prefix of addr, at the
      file's offset; it is refused just when the offset is past the end or the file would become too
      large. */
  method Filewrite(v: Volume, f: OpenFile, addr: seq<Byte>) returns (r: Outcome, i: nat, ghost ops: seq<set<nat>>)
    requires Valid(v.Now()) && f.ip < |v.inodes| && f.off < UINT_LIMIT && |addr| < 0x8000_0000
    modifies v, f
    ensures r == Refused <==>
            r != Panicked && addr != [] && (old(f.off) > old(v.inodes[f.ip].size) || old(f.off) + |addr| > MAXBYTES)
    ensures r == Panicked ==> Shaped(v.Now()) && forall b: nat :: b < v.sb.size ==> Used(v.Now(), b)
    ensures r != Panicked ==>
            i <= |addr| && Prefixed(old(v.Now()), v.Now(), f.ip, old(f.off), addr, i) && f.off == old(f.off) + i
    ensures r.Wrote? ==> r.n == i == |addr|
    ensures r != Panicked && v.sb.size <= BPB ==> SmallOps(ops)
  {
    ghost var was, start := v.Now(), f.off;
    i, ops, r := 0, [], Wrote(0);
    while i < |addr|
      invariant i <= |addr| && Prefixed(was, v.Now(), f.ip, start, addr, i) && f.off == start + i < UINT_LIMIT
      invariant i > 0 ==> f.off <= v.inodes[f.ip].size
      invariant v.sb.size <= BPB ==> SmallOps(ops)
    {
      var n1 := if |addr| - i > CHUNK then CHUNK else |addr| - i;
      ghost var op: set<nat>;
      r, op := WriteChunk(v, f, addr, i, i + n1, was, start);
      if r == Panicked {
        return;
      }
      ops := ops + [op];
      if r == Refused {
        break;
      }
      i := i + r.n;
    }
    r := if i == |addr| then Wrote(i) else Refused;
  }

  // ----- make_duplicate -----------------------------------------------------------------------

  datatype CopyResult = Copied | Failed | Stopped

  /** One round of the copy: read a buffer from sip, append it to dip in a transaction of its own. */
  method CopyBuffer(v: Volume, sip: nat, dip: nat, off: nat, n1: nat) returns (r: CopyResult, ghost op: set<nat>)
    requires Valid(v.Now()) && sip < |v.inodes| && dip < |v.inodes| && sip != dip
    requires 0 < n1 <= BUFFER && off + n1 <= v.inodes[sip].size && v.inodes[dip].size == off
    modifies v
    ensures r != Failed
    ensures r == Stopped ==> Shaped(v.Now()) && forall b: nat :: b < v.sb.size ==> Used(v.Now(), b)
    ensures r == Copied ==>
              && Valid(v.Now()) && OthersKept(old(v.Now()), v.Now(), dip)
              && Contents(v.Now(), dip) == Contents(old(v.Now()), dip) + Contents(old(v.Now()), sip)[off..off + n1]
    ensures r == Copied && v.sb.size <= BPB ==> |op| <= 7
  {
    var buf := v.Readi(sip, off, n1);
    op := {};
    if buf == None || |buf.value| == 0 {
      return Failed, op;
    }
    v.logged := {};
    var w := v.Writei(dip, off, buf.value);
    op := v.logged;
    if w == Panicked {
      return Stopped, op;
    }
    if w == Refused || w.n != |buf.value| {
      return Failed, op;
    }
    if v.sb.size <= BPB { ChunkLogsSeven(v.Now(), dip, off, n1, v.logged); }
    return Copied, op;
  }

  /** The copy loop into a new, empty file: when it ends, the two files are equal; the only other way
      out is a full disk. */
  method Duplicate(v: Volume, sip: nat, dip: nat) returns (r: CopyResult, ghost ops: seq<set<nat>>)
    requires Valid(v.Now()) && sip < |v.inodes| && dip < |v.inodes| && sip != dip && v.inodes[dip].size == 0
    modifies v
    ensures r != Failed
    ensures r == Stopped ==> Shaped(v.Now()) && forall b: nat :: b < v.sb.size ==> Used(v.Now(), b)
    ensures r == Copied ==>
              && Valid(v.Now()) && OthersKept(old(v.Now()), v.Now(), dip)
              && Contents(v.Now(), dip) == Contents(old(v.Now()), sip) == Contents(v.Now(), sip)
    ensures r == Copied && v.sb.size <= BPB ==> SmallOps(ops)
  {
    ghost var was := v.Now();
    ghost var c := Contents(was, sip);
    var off := 0;
    ops := [];
    while off < v.inodes[sip].size
      invariant Valid(v.Now()) && OthersKept(was, v.Now(), dip) && off <= |c|
      invariant v.inodes[dip].size == off && Contents(v.Now(), dip) == c[..off]
      invariant v.sb.size <= BPB ==> SmallOps(ops)
    {
      var n1 := v.inodes[sip].size - off;
      if n1 > BUFFER {
        n1 := BUFFER;
      }
      ghost var op: set<nat>;
      r, op := CopyBuffer(v, sip, dip, off, n1);
      if r != Copied {
        return;
      }
      assert c[..off] + c[off..off + n1] == c[..off + n1];
      ops := ops + [op];
      off := off + n1;
    }
    r := Copied;
  }
}

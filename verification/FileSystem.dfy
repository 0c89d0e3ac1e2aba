/** fs.c's block allocator and file contents as code over a disk: balloc, bfree, bmap, iupdate,
    readi and writei, proved against Inodes. log_write is the assignment to the disk as the
    buffer cache presents it; the blocks it was called on are collected in logged, and its calls in
    trace. */
module FileSystem {
  import opened Collections
  import opened Layout
  import opened Inodes
  import Log

  const MAXBYTES := 71680      // MAXFILE * BSIZE

  // ----- what a file contains -----------------------------------------------------------------

  function ByteAt(fs: Fs, i: nat, o: nat): (r: Byte) { DataBlock(fs, i, o / BSIZE)[o % BSIZE] }

  function Contents(fs: Fs, i: nat): (r: seq<Byte>)
    requires i < |fs.inodes|
  {
    seq(fs.inodes[i].size, (o: nat) => ByteAt(fs, i, o))
  }

  /** c with src written at off, off being at most its length. */
  function Splice(c: seq<Byte>, off: nat, src: seq<Byte>): (r: seq<Byte>)
    requires off <= |c|
  {
    c[..off] + src + if off + |src| <= |c| then c[off + |src|..] else []
  }

  ghost predicate Valid(fs: Fs)
  {
    Owned(fs, {}, {}) && NoHoles(fs) && forall i: nat :: i < |fs.inodes| ==> Recorded(fs, i)
  }

  /** From fs to fs', file i may have got further blocks; nothing else about any inode changed. */
  ghost predicate Grows(fs: Fs, fs': Fs, i: nat)
  {
    && Shaped(fs) && Shaped(fs') && fs'.sb == fs.sb && i < |fs.inodes|
    && fs'.inodes[i].size == fs.inodes[i].size && fs'.inodes[i].head == fs.inodes[i].head
    && (forall j: nat :: j < |fs.inodes| && j != i ==> fs'.inodes[j] == fs.inodes[j])
    && (forall j: nat :: j < |fs.inodes| && j != i && Recorded(fs, j) ==> Recorded(fs', j))
    && (forall pl: Place :: Pointer(fs, pl) != 0 || pl.i != i ==> Pointer(fs', pl) == Pointer(fs, pl))
  }

  ghost predicate SameBlocks(fs: Fs, fs': Fs)
  {
    forall j: nat, k: nat :: DataBlock(fs', j, k) == DataBlock(fs, j, k)
  }

  lemma GrowsTrans(a: Fs, b: Fs, c: Fs, i: nat)
    requires Grows(a, b, i) && Grows(b, c, i)
    ensures Grows(a, c, i)
  {
    forall pl: Place | Pointer(a, pl) != 0 || pl.i != i
      ensures Pointer(c, pl) == Pointer(a, pl)
    {
      assert Pointer(b, pl) == Pointer(a, pl);
    }
  }

  lemma AllocRecords(fs: Fs, b: nat, j: nat)
    requires Shaped(fs) && DataStart(fs.sb) <= b < fs.sb.size && !Used(fs, b) && j < |fs.inodes| && Recorded(fs, j)
    ensures Shaped(Alloc(fs, b)) && Recorded(Alloc(fs, b), j)
  {
    var f1 := MarkUsed(fs, b);
    RecordKept(fs, BBlock(fs.sb, b), f1.disk[BBlock(fs.sb, b)], j);
    RecordKept(f1, b, ZERO_BLOCK, j);
  }

  lemma AllocGrows(fs: Fs, b: nat, i: nat)
    requires Owned(fs, {}, {}) && b < fs.sb.size && !Used(fs, b) && i < |fs.inodes|
    ensures Shaped(Alloc(fs, b)) && Grows(fs, Alloc(fs, b), i) && SameBlocks(fs, Alloc(fs, b))
    ensures forall j: nat :: j < |fs.inodes| && Recorded(fs, j) ==> Recorded(Alloc(fs, b), j)
    ensures forall pl: Place :: Pointer(Alloc(fs, b), pl) == Pointer(fs, pl)
    ensures Owned(Alloc(fs, b), {}, {b}) && Alloc(fs, b).disk[b] == ZERO_BLOCK && b < UINT_LIMIT
  {
    AllocOwned(fs, b);
    AllocPointers(fs, b);
    forall j: nat | j < |fs.inodes| && Recorded(fs, j) ensures Recorded(Alloc(fs, b), j) { AllocRecords(fs, b, j); }
  }

  /** A fresh block hung into an entry of file i's indirect block. */
  lemma EntryGrows(fs: Fs, i: nat, j: nat, b: nat)
    requires Owned(fs, {}, {b}) && i < |fs.inodes| && j < NINDIRECT && Pointer(fs, Ind(i)) != 0 && b > 0
    requires Pointer(fs, Data(i, NDIRECT + j)) == 0 && fs.disk[b] == ZERO_BLOCK
    ensures Pointer(fs, Ind(i)) < fs.sb.size
    ensures var f := SetEntry(fs, Pointer(fs, Ind(i)), j, b).(owner := fs.owner[b := Data(i, NDIRECT + j)]);
            && Owned(f, {}, {}) && Grows(fs, f, i) && SameBlocks(fs, f)
            && Pointer(f, Data(i, NDIRECT + j)) == b && Pointer(f, Ind(i)) == Pointer(fs, Ind(i))
  {
    var a := Pointer(fs, Ind(i));
    PointerInData(fs, {}, {b}, Ind(i));
    LinkEntry(fs, i, j, b);
    var f := SetEntry(fs, a, j, b).(owner := fs.owner[b := Data(i, NDIRECT + j)]);
    forall l: nat | l < |fs.inodes| && Recorded(fs, l)
      ensures Recorded(f, l)
    {
      RecordKept(fs, a, f.disk[a], l);
    }
  }

  /** balloc leaves a file's indirect block as it is. */
  lemma AllocKeepsBlock(fs: Fs, b: nat, pl: Place)
    requires Owned(fs, {}, {}) && b < fs.sb.size && !Used(fs, b) && Pointer(fs, pl) != 0
    ensures Pointer(fs, pl) < fs.sb.size && |Alloc(fs, b).disk| == fs.sb.size
    ensures Alloc(fs, b).disk[Pointer(fs, pl)] == fs.disk[Pointer(fs, pl)]
  {
    AllocPointers(fs, b);
    PointerInData(fs, {}, {}, pl);
    BBlockInRange(fs.sb, b);
  }

  /** Allocated and hung directly, or as the indirect block, seen as one step. */
  lemma DirectMapped(fs: Fs, i: nat, k: nat, b: nat)
    requires Owned(fs, {}, {}) && b < fs.sb.size && !Used(fs, b) && i < |fs.inodes| && k < NDIRECT
    requires Pointer(fs, Data(i, k)) == 0
    ensures b > 0 && b < UINT_LIMIT
    ensures var f := SetAddr(Alloc(fs, b), i, k, b).(owner := fs.owner[b := Data(i, k)]);
            Owned(f, {}, {}) && Grows(fs, f, i) && SameBlocks(fs, f) && Pointer(f, Data(i, k)) == b
  {
    AllocGrows(fs, b, i);
    AllocPointers(fs, b);
    LinkDirect(Alloc(fs, b), i, k, b);
    GrowsTrans(fs, Alloc(fs, b), SetAddr(Alloc(fs, b), i, k, b).(owner := fs.owner[b := Data(i, k)]), i);
  }

  lemma IndirectMapped(fs: Fs, i: nat, b: nat)
    requires Owned(fs, {}, {}) && b < fs.sb.size && !Used(fs, b) && i < |fs.inodes| && Pointer(fs, Ind(i)) == 0
    ensures b > 0 && b < UINT_LIMIT
    ensures var f := SetAddr(Alloc(fs, b), i, NDIRECT, b).(owner := fs.owner[b := Ind(i)]);
            Owned(f, {}, {}) && Grows(fs, f, i) && SameBlocks(fs, f) && Pointer(f, Ind(i)) == b
  {
    AllocGrows(fs, b, i);
    AllocPointers(fs, b);
    LinkIndirect(Alloc(fs, b), i, b);
    GrowsTrans(fs, Alloc(fs, b), SetAddr(Alloc(fs, b), i, NDIRECT, b).(owner := fs.owner[b := Ind(i)]), i);
  }

  /** Allocated and hung into the indirect block, seen as one step. */
  lemma EntryMapped(fs: Fs, i: nat, j: nat, b: nat)
    requires Owned(fs, {}, {}) && b < fs.sb.size && !Used(fs, b) && i < |fs.inodes| && j < NINDIRECT
    requires Pointer(fs, Ind(i)) != 0 && Pointer(fs, Data(i, NDIRECT + j)) == 0
    ensures b > 0 && Pointer(fs, Ind(i)) < |Alloc(fs, b).disk| == |fs.disk|
    ensures Alloc(fs, b).disk[Pointer(fs, Ind(i))] == fs.disk[Pointer(fs, Ind(i))]
    ensures var f := SetEntry(Alloc(fs, b), Pointer(fs, Ind(i)), j, b).(owner := fs.owner[b := Data(i, NDIRECT + j)]);
            && Owned(f, {}, {}) && Grows(fs, f, i) && SameBlocks(fs, f)
            && Pointer(f, Data(i, NDIRECT + j)) == b && Pointer(f, Ind(i)) == Pointer(fs, Ind(i))
            && f.owner[b] == Data(i, NDIRECT + j) && Pointer(fs, Ind(i)) in f.owner
            && f.owner[Pointer(fs, Ind(i))] == Ind(i)
  {
    AllocGrows(fs, b, i);
    AllocKeepsBlock(fs, b, Ind(i));
    AllocPointers(fs, b);
    EntryGrows(Alloc(fs, b), i, j, b);
    var f := SetEntry(Alloc(fs, b), Pointer(fs, Ind(i)), j, b).(owner := fs.owner[b := Data(i, NDIRECT + j)]);
    GrowsTrans(fs, Alloc(fs, b), f, i);
    PointerInData(f, {}, {}, Ind(i));
  }

  /** The bytes from off to the end of its block lie side by side in it. */
  lemma SameBlock(off: nat, o: nat)
    requires off <= o < off + BSIZE - off % BSIZE
    ensures o / BSIZE == off / BSIZE && o % BSIZE == off % BSIZE + (o - off)
  {
  }

  predicate KeepsRecord(fs: Fs, fs': Fs, i: nat)
  {
    && Shaped(fs) && Shaped(fs') && i < |fs.inodes| == |fs'.inodes|
    && (Recorded(fs, i) ==> Recorded(fs', i))
  }

  /** From fs to fs', bytes a to b of src were stored into file i, which src is written to from off
      on; no other byte of any file changed. */
  ghost predicate Stored(fs: Fs, fs': Fs, i: nat, off: nat, src: seq<Byte>, a: nat, b: nat)
    requires a <= b <= |src|
  {
    && (forall o: nat :: ByteAt(fs', i, o) == if off + a <= o < off + b then src[o - off] else ByteAt(fs, i, o))
    && (forall j: nat, k: nat :: j != i ==> DataBlock(fs', j, k) == DataBlock(fs, j, k))
  }

  lemma StoredMore(fs: Fs, mid: Fs, fs': Fs, i: nat, off: nat, src: seq<Byte>, a: nat, b: nat)
    requires a <= b <= |src| && Stored(fs, mid, i, off, src, 0, a) && Stored(mid, fs', i, off, src, a, b)
    ensures Stored(fs, fs', i, off, src, 0, b)
  {
    forall o: nat
      ensures ByteAt(fs', i, o) == if off <= o < off + b then src[o - off] else ByteAt(fs, i, o)
    {
      assert ByteAt(mid, i, o) == if off <= o < off + a then src[o - off] else ByteAt(fs, i, o);
    }
  }

  /** The memmove into a block's data. */
  function Overwrite(y: Block, o: nat, piece: seq<Byte>): (x: Block)
    requires o + |piece| <= BSIZE
  {
    y[..o] + piece + y[o + |piece|..]
  }

  /** Overwriting part of one block of file i. */
  lemma PieceStored(fs: Fs, i: nat, off: nat, src: seq<Byte>, a: nat, b: nat, k: nat, x: Block)
    requires Owned(fs, {}, {}) && i < |fs.inodes| && a <= b <= |src| && k == (off + a) / BSIZE
    requires (off + a) % BSIZE + (b - a) <= BSIZE && Pointer(fs, Data(i, k)) != 0
    requires x == Overwrite(DataBlock(fs, i, k), (off + a) % BSIZE, src[a..b])
    ensures Pointer(fs, Data(i, k)) < |fs.disk|
    ensures var f := PutBlock(fs, Pointer(fs, Data(i, k)), x);
            && Owned(f, {}, {}) && Stored(fs, f, i, off, src, a, b) && Grows(fs, f, i) && KeepsRecord(fs, f, i)
            && (forall pl: Place :: Pointer(f, pl) == Pointer(fs, pl))
  {
    var p := Pointer(fs, Data(i, k));
    PointerInData(fs, {}, {}, Data(i, k));
    WriteOwned(fs, i, k, x);
    var f := PutBlock(fs, p, x);
    forall o: nat
      ensures ByteAt(f, i, o) == if off + a <= o < off + b then src[o - off] else ByteAt(fs, i, o)
    {
      OverwriteAt(DataBlock(fs, i, k), off + a, src[a..b], o);
    }
    forall j: nat | j < |fs.inodes| && Recorded(fs, j) ensures Recorded(f, j) { RecordKept(fs, p, x, j); }
  }

  lemma OverwriteAt(y: Block, at: nat, piece: seq<Byte>, o: nat)
    requires at % BSIZE + |piece| <= BSIZE
    ensures at <= o < at + |piece| ==>
            o / BSIZE == at / BSIZE && Overwrite(y, at % BSIZE, piece)[o % BSIZE] == piece[o - at]
    ensures o / BSIZE == at / BSIZE && !(at <= o < at + |piece|) ==>
            Overwrite(y, at % BSIZE, piece)[o % BSIZE] == y[o % BSIZE]
  {
    if at <= o < at + |piece| { SameBlock(at, o); }
  }

  /** A block mapped and then partly overwritten. */
  lemma PieceWritten(was: Fs, mid: Fs, i: nat, off: nat, src: seq<Byte>, a: nat, b: nat, k: nat, x: Block)
    requires Grows(was, mid, i) && SameBlocks(was, mid) && Owned(mid, {}, {})
    requires a <= b <= |src| && k == (off + a) / BSIZE && (off + a) % BSIZE + (b - a) <= BSIZE
    requires Pointer(mid, Data(i, k)) != 0
    requires x == Overwrite(DataBlock(mid, i, k), (off + a) % BSIZE, src[a..b])
    ensures Pointer(mid, Data(i, k)) < |mid.disk|
    ensures var f := PutBlock(mid, Pointer(mid, Data(i, k)), x);
            && Owned(f, {}, {}) && Grows(was, f, i) && Stored(was, f, i, off, src, a, b)
            && (forall pl: Place :: Pointer(f, pl) == Pointer(mid, pl))
            && (was == mid ==> KeepsRecord(was, f, i))
  {
    PieceStored(mid, i, off, src, a, b, k, x);
    var f := PutBlock(mid, Pointer(mid, Data(i, k)), x);
    GrowsTrans(was, mid, f, i);
    assert forall o: nat :: ByteAt(mid, i, o) == ByteAt(was, i, o);
  }

  /** n bytes of file i from off on. */
  function Bytes(fs: Fs, i: nat, off: nat, n: nat): (r: seq<Byte>)
  {
    seq<Byte>(n, (t: nat) => ByteAt(fs, i, off + t))
  }

  lemma BytesAppend(fs: Fs, i: nat, off: nat, n: nat, m: nat)
    ensures Bytes(fs, i, off, n) + Bytes(fs, i, off + n, m) == Bytes(fs, i, off, n + m)
  {
  }

  lemma BytesInBlock(fs: Fs, i: nat, at: nat, m: nat)
    requires at % BSIZE + m <= BSIZE
    ensures Bytes(fs, i, at, m) == DataBlock(fs, i, at / BSIZE)[at % BSIZE..at % BSIZE + m]
  {
    var s, u := Bytes(fs, i, at, m), DataBlock(fs, i, at / BSIZE)[at % BSIZE..at % BSIZE + m];
    forall t: nat | t < m ensures s[t] == u[t] { SameBlock(at, at + t); assert s[t] == ByteAt(fs, i, at + t); }
  }

  lemma BytesOfContents(fs: Fs, i: nat, off: nat, n: nat)
    requires i < |fs.inodes| && off + n <= fs.inodes[i].size
    ensures Bytes(fs, i, off, n) == Contents(fs, i)[off..off + n]
  {
  }

  // ----- what a write touches -----------------------------------------------------------------

  /** A write to blocks a to b of file i may log its inode's block, bitmap blocks, its indirect block
      and those blocks. */
  predicate MayLog(fs: Fs, i: nat, a: nat, b: nat, x: nat)
  {
    || x == IBlock(fs.sb, i)
    || (fs.sb.size > 0 && BBlock(fs.sb, 0) <= x <= BBlock(fs.sb, fs.sb.size - 1))
    || (x in fs.owner && (fs.owner[x] == Ind(i) || (fs.owner[x].Data? && fs.owner[x].i == i && a <= fs.owner[x].k < b)))
  }

  /** All that was logged since log. */
  ghost predicate LoggedIn(logged: set<nat>, log: set<nat>, fs: Fs, i: nat, a: nat, b: nat)
  {
    forall x :: x in logged ==> x in log || MayLog(fs, i, a, b, x)
  }

  ghost predicate PointersKept(fs: Fs, fs': Fs)
  {
    forall pl: Place :: Pointer(fs, pl) != 0 ==> Pointer(fs', pl) == Pointer(fs, pl)
  }

  lemma LoggedGrows(logged: set<nat>, log: set<nat>, fs: Fs, fs': Fs, i: nat, a: nat, b: nat, b': nat)
    requires Owned(fs, {}, {}) && Owned(fs', {}, {}) && PointersKept(fs, fs') && fs.sb == fs'.sb && b <= b'
    requires LoggedIn(logged, log, fs, i, a, b)
    ensures LoggedIn(logged, log, fs', i, a, b')
  {
    forall x | x in logged
      ensures x in log || MayLog(fs', i, a, b', x)
    {
      if x !in log && x in fs.owner {
        assert Hangs(fs, {}, x) && Points(fs', {}, fs.owner[x]);
      }
    }
  }

  lemma PieceLogged(logged: set<nat>, log: set<nat>, fs: Fs, fs': Fs, i: nat, k: nat, p: nat)
    requires fs'.owner == fs.owner && fs'.sb == fs.sb && p in fs.owner && fs.owner[p] == Data(i, k)
    requires LoggedIn(logged, log, fs, i, k, k + 1)
    ensures LoggedIn(logged + {p}, log, fs', i, k, k + 1)
  {
  }

  /** First block after the bytes before o. */
  function BlockEnd(o: nat): (r: nat) { (o + BSIZE - 1) / BSIZE }

  /** A round logs within what the write so far may log. */
  lemma LoggedStep(log0: set<nat>, log1: set<nat>, log2: set<nat>, fs: Fs, fs': Fs, i: nat, off: nat, a: nat, b: nat,
                   k: nat)
    requires Owned(fs, {}, {}) && Owned(fs', {}, {}) && Grows(fs, fs', i) && a < b && k == (off + a) / BSIZE
    requires LoggedIn(log1, log0, fs, i, off / BSIZE, BlockEnd(off + a)) && LoggedIn(log2, log1, fs', i, k, k + 1)
    ensures LoggedIn(log2, log0, fs', i, off / BSIZE, BlockEnd(off + b))
  {
    LoggedGrows(log1, log0, fs, fs', i, off / BSIZE, BlockEnd(off + a), BlockEnd(off + b));
    assert off / BSIZE <= k && k + 1 <= BlockEnd(off + b);
  }

  // ----- the end of a write -------------------------------------------------------------------

  function Resized(fs: Fs, i: nat, size: nat): (r: Fs)
    requires i < |fs.inodes| && size <= MAXBYTES
  {
    fs.(inodes := fs.inodes[i := fs.inodes[i].(size := size)])
  }

  lemma ResizedOwned(fs: Fs, i: nat, size: nat)
    requires Owned(fs, {}, {}) && i < |fs.inodes| && size <= MAXBYTES
    ensures Owned(Resized(fs, i, size), {}, {})
    ensures forall pl: Place :: Pointer(Resized(fs, i, size), pl) == Pointer(fs, pl)
    ensures SameBlocks(fs, Resized(fs, i, size))
  {
    var f := Resized(fs, i, size);
    assert forall pl: Place :: Pointer(f, pl) == Pointer(fs, pl);
    forall c: nat | c in f.owner ensures Hangs(f, {}, c) { assert Hangs(fs, {}, c); }
    forall q: Place ensures Points(f, {}, q) { assert Points(fs, {}, q); }
    forall c: nat | c < f.sb.size ensures Counted(f, {}, c) { assert Counted(fs, {}, c); }
  }

  /** The state of a write once the first n bytes of src are stored. */
  ghost predicate Writing(was: Fs, now: Fs, i: nat, off: nat, src: seq<Byte>, n: nat)
    requires n <= |src|
  {
    && Owned(now, {}, {}) && Grows(was, now, i) && Stored(was, now, i, off, src, 0, n)
    && (forall k: nat :: k * BSIZE < off + n ==> Pointer(now, Data(i, k)) != 0)
  }

  lemma WritingStep(was: Fs, mid: Fs, now: Fs, i: nat, off: nat, src: seq<Byte>, a: nat, b: nat, k: nat)
    requires a < b <= |src| && Writing(was, mid, i, off, src, a) && Owned(now, {}, {}) && Grows(mid, now, i)
    requires Stored(mid, now, i, off, src, a, b) && k == (off + a) / BSIZE && off + b <= (k + 1) * BSIZE
    requires Pointer(now, Data(i, k)) != 0
    ensures Writing(was, now, i, off, src, b)
  {
    GrowsTrans(was, mid, now, i);
    StoredMore(was, mid, now, i, off, src, a, b);
    forall l: nat | l * BSIZE < off + b
      ensures Pointer(now, Data(i, l)) != 0
    {
      if l * BSIZE >= off + a { assert l == k; }
    }
  }

  /** A finished write, the size updated where it grew. */
  lemma WrittenContents(was: Fs, now: Fs, now': Fs, i: nat, off: nat, src: seq<Byte>)
    requires Writing(was, now, i, off, src, |src|) && off <= was.inodes[i].size && SameBlocks(now, now')
    requires |now'.inodes| == |now.inodes|
    requires now'.inodes[i].size == if off + |src| > was.inodes[i].size then off + |src| else was.inodes[i].size
    ensures Contents(now', i) == Splice(Contents(was, i), off, src)
  {
    var c, d := Contents(now', i), Splice(Contents(was, i), off, src);
    assert |c| == |d|;
    forall o: nat | o < |c|
      ensures c[o] == d[o]
    {
      assert c[o] == ByteAt(now', i, o) == ByteAt(now, i, o);
    }
  }

  lemma OtherContents(was: Fs, now: Fs, now': Fs, i: nat, j: nat, off: nat, src: seq<Byte>)
    requires Writing(was, now, i, off, src, |src|) && SameBlocks(now, now') && j != i
    requires j < |was.inodes| == |now'.inodes|
    requires now'.inodes[j] == now.inodes[j]
    ensures now'.inodes[j] == was.inodes[j] && Contents(now', j) == Contents(was, j)
  {
    assert forall o: nat :: ByteAt(now', j, o) == ByteAt(was, j, o);
  }

  /** Growing the file and recording it restores the invariant. */
  lemma GrownValid(was: Fs, now: Fs, i: nat, off: nat, src: seq<Byte>)
    requires Valid(was) && Writing(was, now, i, off, src, |src|) && off + |src| <= MAXBYTES
    requires off + |src| > was.inodes[i].size
    ensures var f := Updated(Resized(now, i, off + |src|), i);
            && Valid(f) && SameBlocks(now, f) && PointersKept(now, f)
  {
    var mid := Resized(now, i, off + |src|);
    ResizedOwned(now, i, off + |src|);
    UpdatedOwned(mid, i);
    RecordsAfterUpdate(was, mid, i);
    GrownNoHoles(was, now, Updated(mid, i), i, off + |src|);
  }

  lemma RecordsAfterUpdate(was: Fs, mid: Fs, i: nat)
    requires Valid(was) && Shaped(mid) && i < |mid.inodes| == |was.inodes|
    requires forall j: nat :: j < |was.inodes| && j != i && Recorded(was, j) ==> Recorded(mid, j)
    ensures Shaped(Updated(mid, i)) && forall j: nat :: j < |mid.inodes| ==> Recorded(Updated(mid, i), j)
  {
    forall j: nat | j < |mid.inodes|
      ensures Shaped(Updated(mid, i)) && Recorded(Updated(mid, i), j)
    {
      assert Recorded(was, j);
      UpdatedRecords(mid, i, j);
    }
  }

  lemma GrownNoHoles(was: Fs, now: Fs, f: Fs, i: nat, end: nat)
    requires NoHoles(was) && Grows(was, now, i) && |f.inodes| == |now.inodes| && f.inodes[i].size == end
    requires forall j: nat :: j < |now.inodes| && j != i ==> f.inodes[j] == now.inodes[j]
    requires forall pl: Place :: Pointer(f, pl) == Pointer(now, pl)
    requires forall k: nat :: k * BSIZE < end ==> Pointer(now, Data(i, k)) != 0
    ensures NoHoles(f)
  {
    forall j: nat, k: nat | j < |f.inodes| && k * BSIZE < f.inodes[j].size
      ensures Pointer(f, Data(j, k)) != 0
    {
      if j != i { assert Pointer(was, Data(j, k)) != 0; }
    }
  }

  /** A write inside the file keeps the invariant. */
  lemma InsideValid(was: Fs, now: Fs, i: nat, off: nat, src: seq<Byte>)
    requires Valid(was) && Writing(was, now, i, off, src, |src|) && now.inodes == was.inodes
    requires off + |src| <= was.inodes[i].size
    requires Recorded(now, i)
    ensures Valid(now)
  {
    forall j: nat, k: nat | j < |now.inodes| && k * BSIZE < now.inodes[j].size
      ensures Pointer(now, Data(j, k)) != 0
    {
      assert Pointer(was, Data(j, k)) != 0;
    }
  }

  /** No file but i has changed. */
  ghost predicate OthersKept(was: Fs, now: Fs, i: nat)
  {
    && |was.inodes| == |now.inodes|
    && forall j: nat :: j < |was.inodes| && j != i ==>
       now.inodes[j] == was.inodes[j] && Contents(now, j) == Contents(was, j)
  }

  predicate Within(trace: seq<Log.Update>, logged: set<nat>)
  {
    forall k :: 0 <= k < |trace| ==> trace[k].0 in logged
  }

  /** The disk changed as the calls of log_write added to the trace say, and their blocks are counted
      as logged. */
  ghost predicate Tracked(d: seq<Block>, t: seq<Log.Update>, g: set<nat>,
                          d': seq<Block>, t': seq<Log.Update>, g': set<nat>)
  {
    && (forall base :: d == Log.Apply(base, t) ==> d' == Log.Apply(base, t'))
    && (Within(t, g) ==> Within(t', g'))
  }

  /** -1, a panic, or the number of bytes written. */
  datatype Outcome = Refused | Panicked | Wrote(n: nat)

  class Volume {
    const sb: Super
    var disk: seq<Block>
    var inodes: seq<Inode>
    ghost var owner: map<nat, Place>
    ghost var logged: set<nat>
    var trace: seq<Log.Update>

    ghost function Now(): (fs: Fs)
      reads this
    {
      Fs(sb, disk, inodes, owner)
    }

    method LogWrite(b: nat, x: Block)
      requires b < |disk|
      modifies this`disk, this`logged, this`trace
      ensures disk == old(disk)[b := x] && logged == old(logged) + {b} && trace == old(trace) + [(b, x)]
      ensures Tracked(old(disk), old(trace), old(logged), disk, trace, logged)
    {
      disk := disk[b := x];
      logged := logged + {b};
      trace := trace + [(b, x)];
      assert trace[..|trace| - 1] == old(trace);
    }

    /** balloc: first fit. None is its panic, and then no block is free. */
    method Balloc() returns (r: Option<nat>)
      requires Shaped(Now())
      modifies this`disk, this`logged, this`trace
      ensures r == None ==>
                && disk == old(disk) && logged == old(logged) && trace == old(trace)
                && forall b: nat :: b < sb.size ==> Used(Now(), b)
      ensures r.Some? ==>
                && r.value < sb.size && !Used(old(Now()), r.value) && Now() == Alloc(old(Now()), r.value)
                && (forall c: nat :: c < r.value ==> Used(old(Now()), c))
                && (forall x :: x in logged ==> x in old(logged) || x == BBlock(sb, r.value) || x == r.value)
      ensures Tracked(old(disk), old(trace), old(logged), disk, trace, logged)
    {
      var b := 0;
      while b < sb.size
        invariant b % BPB == 0 && disk == old(disk) && logged == old(logged) && trace == old(trace)
        invariant forall c: nat :: c < b && c < sb.size ==> Used(Now(), c)
      {
        BBlockInRange(sb, b);
        var bp := disk[BBlock(sb, b)];
        var bi := FreeBit(b, bp);
        if bi < BPB && b + bi < sb.size {
          bp := SetBit(bp, bi);
          LogWrite(BBlock(sb, b), bp);
          LogWrite(b + bi, ZERO_BLOCK);
          return Some(b + bi);
        }
        b := b + BPB;
      }
      return None;
    }

    /** balloc's inner loop over the bitmap block bp of b: stops at the first clear bit. */
    method FreeBit(b: nat, bp: Block) returns (bi: nat)
      requires Shaped(Now()) && b < sb.size && b % BPB == 0 && bp == disk[BBlock(sb, b)]
      ensures bi <= BPB && forall c: nat :: b <= c < b + bi && c < sb.size ==> Used(Now(), c)
      ensures bi < BPB && b + bi < sb.size ==>
                !Used(Now(), b + bi) && !BlockBit(bp, bi) && BBlock(sb, b + bi) == BBlock(sb, b) && (b + bi) % BPB == bi
    {
      bi := 0;
      while bi < BPB && b + bi < sb.size
        invariant bi <= BPB
        invariant forall c: nat :: b <= c < b + bi && c < sb.size ==> Used(Now(), c)
      {
        assert BBlock(sb, b + bi) == BBlock(sb, b) && (b + bi) % BPB == bi;
        if !BlockBit(bp, bi) {
          return;
        }
        assert Used(Now(), b + bi);
        bi := bi + 1;
      }
    }

    /** bfree; false is its panic. */
    method Bfree(b: nat) returns (ok: bool)
      requires Shaped(Now()) && b < sb.size
      modifies this`disk, this`logged, this`trace
      ensures ok == Used(old(Now()), b)
      ensures if ok then Now() == MarkFree(old(Now()), b) && logged == old(logged) + {BBlock(sb, b)}
              else disk == old(disk) && logged == old(logged) && trace == old(trace)
      ensures Tracked(old(disk), old(trace), old(logged), disk, trace, logged)
    {
      BBlockInRange(sb, b);
      var bp := disk[BBlock(sb, b)];
      var bi := b % BPB;
      if !BlockBit(bp, bi) {
        return false;
      }
      bp := ClearBit(bp, bi);
      LogWrite(BBlock(sb, b), bp);
      return true;
    }

    /** The direct part of bmap. */
    method MapDirect(i: nat, bn: nat) returns (r: Option<nat>)
      requires Owned(Now(), {}, {}) && i < |inodes| && bn < NDIRECT
      modifies this
      ensures r == None ==>
                && Now() == old(Now()) && logged == old(logged) && trace == old(trace)
                && forall b: nat :: b < sb.size ==> Used(Now(), b)
      ensures r.Some? ==>
                && Owned(Now(), {}, {}) && Grows(old(Now()), Now(), i) && SameBlocks(old(Now()), Now())
                && r.value == Pointer(Now(), Data(i, bn)) != 0
                && LoggedIn(logged, old(logged), Now(), i, bn, bn + 1)
      ensures Pointer(old(Now()), Data(i, bn)) != 0 ==>
              r.Some? && Now() == old(Now()) && logged == old(logged) && trace == old(trace)
      ensures Tracked(old(disk), old(trace), old(logged), disk, trace, logged)
    {
      var addr := inodes[i].addrs[bn];
      if addr == 0 {
        ghost var was := Now();
        var b := Balloc();
        if b == None {
          return None;
        }
        DirectMapped(was, i, bn, b.value);
        addr := b.value;
        inodes := inodes[i := inodes[i].(addrs := inodes[i].addrs[bn := addr])];
        owner := owner[addr := Data(i, bn)];
      }
      return Some(addr);
    }

    /** The file's indirect block, allocated if necessary. */
    method MapIndirect(i: nat) returns (r: Option<nat>)
      requires Owned(Now(), {}, {}) && i < |inodes|
      modifies this
      ensures r == None ==>
                && Now() == old(Now()) && logged == old(logged) && trace == old(trace)
                && forall b: nat :: b < sb.size ==> Used(Now(), b)
      ensures r.Some? ==>
                && Owned(Now(), {}, {}) && Grows(old(Now()), Now(), i) && SameBlocks(old(Now()), Now())
                && r.value == Pointer(Now(), Ind(i)) != 0
                && LoggedIn(logged, old(logged), Now(), i, 0, 0)
      ensures Pointer(old(Now()), Ind(i)) != 0 ==>
              r.Some? && Now() == old(Now()) && logged == old(logged) && trace == old(trace)
      ensures Tracked(old(disk), old(trace), old(logged), disk, trace, logged)
    {
      var addr := inodes[i].addrs[NDIRECT];
      if addr == 0 {
        ghost var was := Now();
        var b := Balloc();
        if b == None {
          return None;
        }
        IndirectMapped(was, i, b.value);
        addr := b.value;
        inodes := inodes[i := inodes[i].(addrs := inodes[i].addrs[NDIRECT := addr])];
        owner := owner[addr := Ind(i)];
      }
      return Some(addr);
    }

    /** Entry j of the indirect block a, allocated if necessary. */
    method MapEntry(i: nat, a: nat, j: nat) returns (r: Option<nat>)
      requires Owned(Now(), {}, {}) && i < |inodes| && j < NINDIRECT && a == Pointer(Now(), Ind(i)) != 0
      modifies this`disk, this`logged, this`trace, this`owner
      ensures r == None ==>
                && Now() == old(Now()) && logged == old(logged) && trace == old(trace)
                && forall b: nat :: b < sb.size ==> Used(Now(), b)
      ensures r.Some? ==>
                && Owned(Now(), {}, {}) && Grows(old(Now()), Now(), i) && SameBlocks(old(Now()), Now())
                && r.value == Pointer(Now(), Data(i, NDIRECT + j)) != 0 && Pointer(Now(), Ind(i)) == a
                && LoggedIn(logged, old(logged), Now(), i, NDIRECT + j, NDIRECT + j + 1)
      ensures Pointer(old(Now()), Data(i, NDIRECT + j)) != 0 ==>
              r.Some? && Now() == old(Now()) && logged == old(logged) && trace == old(trace)
      ensures Tracked(old(disk), old(trace), old(logged), disk, trace, logged)
    {
      PointerInData(Now(), {}, {}, Ind(i));
      var bp := disk[a];
      var addr := Word(bp, j);
      if addr == 0 {
        r := NewEntry(i, a, j, bp);
        return;
      }
      return Some(addr);
    }

    /** The part of bmap that fills an empty entry. */
    method NewEntry(i: nat, a: nat, j: nat, bp: Block) returns (r: Option<nat>)
      requires Owned(Now(), {}, {}) && i < |inodes| && j < NINDIRECT && a == Pointer(Now(), Ind(i)) != 0
      requires a < |disk| && bp == disk[a] && Pointer(Now(), Data(i, NDIRECT + j)) == 0
      modifies this`disk, this`logged, this`trace, this`owner
      ensures r == None ==>
                && Now() == old(Now()) && logged == old(logged) && trace == old(trace)
                && forall b: nat :: b < sb.size ==> Used(Now(), b)
      ensures r.Some? ==>
                && Owned(Now(), {}, {}) && Grows(old(Now()), Now(), i) && SameBlocks(old(Now()), Now())
                && r.value == Pointer(Now(), Data(i, NDIRECT + j)) != 0 && Pointer(Now(), Ind(i)) == a
                && LoggedIn(logged, old(logged), Now(), i, NDIRECT + j, NDIRECT + j + 1)
      ensures Tracked(old(disk), old(trace), old(logged), disk, trace, logged)
    {
      ghost var was := Now();
      r := Balloc();
      if r.Some? {
        EntryMapped(was, i, j, r.value);
        LogWrite(a, SetWord(bp, j, r.value));
        owner := owner[r.value := Data(i, NDIRECT + j)];
      }
    }

    /** bmap: the block number of file block bn, allocating what is missing. None is a panic: bn is
        out of range, or the disk is full. */
    method Bmap(i: nat, bn: nat) returns (r: Option<nat>)
      requires Owned(Now(), {}, {}) && i < |inodes|
      modifies this
      ensures r == None ==> Shaped(Now()) && (bn >= MAXFILE || forall b: nat :: b < sb.size ==> Used(Now(), b))
      ensures r.Some? ==>
                && Owned(Now(), {}, {}) && Grows(old(Now()), Now(), i) && SameBlocks(old(Now()), Now())
                && r.value == Pointer(Now(), Data(i, bn)) != 0
                && LoggedIn(logged, old(logged), Now(), i, bn, bn + 1)
      ensures Pointer(old(Now()), Data(i, bn)) != 0 ==>
              r.Some? && Now() == old(Now()) && logged == old(logged) && trace == old(trace)
      ensures Tracked(old(disk), old(trace), old(logged), disk, trace, logged)
    {
      if bn < NDIRECT {
        r := MapDirect(i, bn);
      } else if bn - NDIRECT < NINDIRECT {
        r := MapBeyond(i, bn - NDIRECT);
      } else {
        r := None;
      }
    }

    /** The indirect part of bmap. */
    method MapBeyond(i: nat, j: nat) returns (r: Option<nat>)
      requires Owned(Now(), {}, {}) && i < |inodes| && j < NINDIRECT
      modifies this
      ensures r == None ==> Shaped(Now()) && forall b: nat :: b < sb.size ==> Used(Now(), b)
      ensures r.Some? ==>
                && Owned(Now(), {}, {}) && Grows(old(Now()), Now(), i) && SameBlocks(old(Now()), Now())
                && r.value == Pointer(Now(), Data(i, NDIRECT + j)) != 0
                && LoggedIn(logged, old(logged), Now(), i, NDIRECT + j, NDIRECT + j + 1)
      ensures Pointer(old(Now()), Data(i, NDIRECT + j)) != 0 ==>
              r.Some? && Now() == old(Now()) && logged == old(logged) && trace == old(trace)
      ensures Tracked(old(disk), old(trace), old(logged), disk, trace, logged)
    {
      ghost var was := Now();
      var a := MapIndirect(i);
      if a == None {
        return None;
      }
      ghost var mid, lg := Now(), logged;
      r := MapEntry(i, a.value, j);
      if r.Some? {
        GrowsTrans(was, mid, Now(), i);
        LoggedGrows(lg, old(logged), mid, Now(), i, 0, 0, 0);
      }
    }

    /** readi on a file: the bytes from off to off + n or the end, -1 (None) when off is beyond the
        end or off + n does not fit 32 bits. Without holes it allocates nothing. */
    method Readi(i: nat, off: Uint, n: Uint) returns (r: Option<seq<Byte>>)
      requires Valid(Now()) && i < |inodes|
      modifies this
      ensures Now() == old(Now()) && logged == old(logged) && trace == old(trace)
      ensures r == None <==> off > inodes[i].size || off + n >= UINT_LIMIT
      ensures r.Some? ==>
                r.value == Contents(Now(), i)[off..if off + n > inodes[i].size then inodes[i].size else off + n]
    {
      if off > inodes[i].size || off + n >= UINT_LIMIT {
        return None;
      }
      var want := if off + n > inodes[i].size then inodes[i].size - off else n;
      var dst: seq<Byte> := [];
      while |dst| < want
        invariant |dst| <= want && Now() == old(Now()) && logged == old(logged) && trace == old(trace)
        invariant dst == Bytes(Now(), i, off, |dst|)
      {
        var at := off + |dst|;
        var m := if want - |dst| < BSIZE - at % BSIZE then want - |dst| else BSIZE - at % BSIZE;
        assert Pointer(Now(), Data(i, at / BSIZE)) != 0;
        var piece := ReadPiece(i, at, m);
        BytesAppend(Now(), i, off, |dst|, m);
        dst := dst + piece;
      }
      BytesOfContents(Now(), i, off, want);
      return Some(dst);
    }

    /** One round of readi's loop. */
    method ReadPiece(i: nat, at: nat, m: nat) returns (piece: seq<Byte>)
      requires Owned(Now(), {}, {}) && i < |inodes| && at % BSIZE + m <= BSIZE
      requires Pointer(Now(), Data(i, at / BSIZE)) != 0
      modifies this
      ensures Now() == old(Now()) && logged == old(logged) && trace == old(trace) && piece == Bytes(Now(), i, at, m)
    {
      PointerInData(Now(), {}, {}, Data(i, at / BSIZE));
      var b := Bmap(i, at / BSIZE);
      var bp := disk[b.value];
      BytesInBlock(Now(), i, at, m);
      piece := bp[at % BSIZE..at % BSIZE + m];
    }

    /** One round of writei's loop: map block k and store bytes a to b of src in it. */
    method WritePiece(i: nat, off: nat, src: seq<Byte>, a: nat, b: nat, k: nat) returns (ok: bool)
      requires Owned(Now(), {}, {}) && i < |inodes| && a <= b <= |src| && k == (off + a) / BSIZE < MAXFILE
      requires (off + a) % BSIZE + (b - a) <= BSIZE
      modifies this
      ensures !ok ==> Shaped(Now()) && forall c: nat :: c < sb.size ==> Used(Now(), c)
      ensures ok ==>
                && Owned(Now(), {}, {}) && Grows(old(Now()), Now(), i) && Stored(old(Now()), Now(), i, off, src, a, b)
                && Pointer(Now(), Data(i, k)) != 0
                && LoggedIn(logged, old(logged), Now(), i, k, k + 1)
      ensures ok && Pointer(old(Now()), Data(i, k)) != 0 ==> inodes == old(inodes) && KeepsRecord(old(Now()), Now(), i)
      ensures Tracked(old(disk), old(trace), old(logged), disk, trace, logged)
    {
      ghost var was := Now();
      var p := Bmap(i, k);
      if p == None {
        return false;
      }
      ghost var mid := Now();
      PointerInData(mid, {}, {}, Data(i, k));
      var bp := disk[p.value];
      var x := Overwrite(bp, (off + a) % BSIZE, src[a..b]);
      PieceWritten(was, mid, i, off, src, a, b, k, x);
      ghost var lg := logged;
      LogWrite(p.value, x);
      PieceLogged(lg, old(logged), mid, Now(), i, k, p.value);
      return true;
    }

    /** iupdate */
    method Iupdate(i: nat)
      requires Shaped(Now()) && i < |inodes|
      modifies this`disk, this`logged, this`trace
      ensures Now() == Updated(old(Now()), i) && logged == old(logged) + {IBlock(sb, i)}
      ensures Tracked(old(disk), old(trace), old(logged), disk, trace, logged)
    {
      var bp := disk[IBlock(sb, i)];
      bp := StoreWords(bp, 16 * (i % IPB), InodeWords(inodes[i]));
      LogWrite(IBlock(sb, i), bp);
    }

    /** A round of writei's loop within the whole write: was and log are from its beginning. */
    method WriteRound(ghost was: Fs, ghost log: set<nat>, i: nat, off: nat, src: seq<Byte>, tot: nat)
      returns (ok: bool, next: nat)
      requires i < |inodes| && tot < |src| && off + |src| <= MAXBYTES && Writing(was, Now(), i, off, src, tot)
      requires LoggedIn(logged, log, Now(), i, off / BSIZE, BlockEnd(off + tot))
      modifies this
      ensures !ok ==> Shaped(Now()) && forall b: nat :: b < sb.size ==> Used(Now(), b)
      ensures ok ==> tot < next <= |src| && Writing(was, Now(), i, off, src, next)
      ensures ok ==> LoggedIn(logged, log, Now(), i, off / BSIZE, BlockEnd(off + next))
      ensures ok && Pointer(old(Now()), Data(i, (off + tot) / BSIZE)) != 0 ==>
              inodes == old(inodes) && KeepsRecord(old(Now()), Now(), i)
      ensures Tracked(old(disk), old(trace), old(logged), disk, trace, logged)
    {
      var m := if |src| - tot < BSIZE - (off + tot) % BSIZE then |src| - tot else BSIZE - (off + tot) % BSIZE;
      next := tot + m;
      var k := (off + tot) / BSIZE;
      ghost var mid, lg := Now(), logged;
      ok := WritePiece(i, off, src, tot, next, k);
      if ok {
        WritingStep(was, mid, Now(), i, off, src, tot, next, k);
        LoggedStep(log, lg, logged, mid, Now(), i, off, tot, next, k);
      }
    }

    /** writei's loop */
    method WriteLoop(i: nat, off: nat, src: seq<Byte>) returns (ok: bool)
      requires Valid(Now()) && i < |inodes| && off <= inodes[i].size && off + |src| <= MAXBYTES
      modifies this
      ensures !ok ==> Shaped(Now()) && forall b: nat :: b < sb.size ==> Used(Now(), b)
      ensures ok ==> Writing(old(Now()), Now(), i, off, src, |src|)
      ensures ok ==> LoggedIn(logged, old(logged), Now(), i, off / BSIZE, BlockEnd(off + |src|))
      ensures ok && off + |src| <= old(inodes[i].size) ==> inodes == old(inodes) && Recorded(Now(), i)
      ensures Tracked(old(disk), old(trace), old(logged), disk, trace, logged)
    {
      ghost var was, log := Now(), logged;
      var tot := 0;
      while tot < |src|
        invariant tot <= |src| && Writing(was, Now(), i, off, src, tot)
        invariant LoggedIn(logged, log, Now(), i, off / BSIZE, BlockEnd(off + tot))
        invariant off + |src| <= was.inodes[i].size ==> inodes == was.inodes && Recorded(Now(), i)
        invariant Tracked(old(disk), old(trace), old(logged), disk, trace, logged)
      {
        assert off + tot < was.inodes[i].size ==> Pointer(was, Data(i, (off + tot) / BSIZE)) != 0;
        var next: nat;
        ok, next := WriteRound(was, log, i, off, src, tot);
        if !ok {
          return;
        }
        tot := next;
      }
      ok := true;
    }

    /** writei on a file. */
    method Writei(i: nat, off: Uint, src: seq<Byte>) returns (r: Outcome)
      requires Valid(Now()) && i < |inodes| && |src| < UINT_LIMIT
      modifies this
      ensures r == Refused <==> off > old(inodes[i].size) || off + |src| >= UINT_LIMIT || off + |src| > MAXBYTES
      ensures r == Refused ==> Now() == old(Now()) && logged == old(logged) && trace == old(trace)
      ensures r == Panicked ==> Shaped(Now()) && forall b: nat :: b < sb.size ==> Used(Now(), b)
      ensures r.Wrote? ==>
                && r.n == |src| && Valid(Now()) && OthersKept(old(Now()), Now(), i)
                && inodes[i].head == old(inodes[i].head)
                && Contents(Now(), i) == Splice(Contents(old(Now()), i), off, src)
                && LoggedIn(logged, old(logged), Now(), i, off / BSIZE, BlockEnd(off + |src|))
      ensures Tracked(old(disk), old(trace), old(logged), disk, trace, logged)
    {
      if off > inodes[i].size || off + |src| >= UINT_LIMIT {
        return Refused;
      }
      if off + |src| > MAXBYTES {
        return Refused;
      }
      ghost var was := Now();
      var ok := WriteLoop(i, off, src);
      if !ok {
        return Panicked;
      }
      ghost var now := Now();
      if |src| > 0 && off + |src| > inodes[i].size {
        GrownValid(was, now, i, off, src);
        ghost var lg := logged;
        inodes := inodes[i := inodes[i].(size := off + |src|)];
        Iupdate(i);
        LoggedGrows(lg, old(logged), now, Now(), i, off / BSIZE, BlockEnd(off + |src|), BlockEnd(off + |src|));
      } else {
        InsideValid(was, now, i, off, src);
      }
      WrittenContents(was, now, Now(), i, off, src);
      forall j: nat | j < |inodes| && j != i
        ensures inodes[j] == was.inodes[j] && Contents(Now(), j) == Contents(was, j)
      {
        OtherContents(was, now, Now(), i, j, off, src);
      }
      return Wrote(|src|);
    }
  }
}

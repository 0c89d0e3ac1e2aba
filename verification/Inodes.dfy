/** Inodes, block pointers and the allocation bitmap of fs.c as a value, with the ownership
    invariant that ties them together. The disk is the one the buffer cache presents. */
module Inodes {
  import opened Collections
  import opened Layout

  const NDIRECT := 12
  const NINDIRECT := 128
  const MAXFILE := 140
  const IPB := 8

  /** struct dinode: head holds type, major, minor and nlink. */
  datatype InodeData = Inode(head: (Uint, Uint), size: nat, addrs: seq<Uint>)
  type Inode = x: InodeData | |x.addrs| == 13 && x.size <= 71680 witness Inode((0, 0), 0, seq(13, _ => 0))

  datatype Super = Super(size: nat, ninodes: nat, inodestart: nat, bmapstart: nat)

  /** Where a block hangs: block k of a file, or a file's indirect block. */
  datatype Place = Data(i: nat, k: nat) | Ind(i: nat)

  /** owner is history: for every block of a file, the place it hangs at. */
  datatype Fs = Fs(sb: Super, disk: seq<Block>, inodes: seq<Inode>, owner: map<nat, Place>)

  function DataStart(sb: Super): (r: nat) { sb.bmapstart + sb.size / BPB + 1 }

  /** The layout mkfs computes: inode blocks, then bitmap, then data. */
  predicate SuperOk(sb: Super)
  {
    0 < sb.inodestart && sb.inodestart + sb.ninodes / IPB + 1 <= sb.bmapstart && DataStart(sb) <= sb.size < UINT_LIMIT
  }

  predicate Shaped(fs: Fs)
  {
    SuperOk(fs.sb) && |fs.disk| == fs.sb.size && |fs.inodes| == fs.sb.ninodes
  }

  // ----- pointers, bits and contents ----------------------------------------------------------

  function IndirectEntry(disk: seq<Block>, a: nat, j: nat): (r: Uint)
  {
    if 0 < a < |disk| && j < NINDIRECT then Word(disk[a], j) else 0
  }

  /** The block number stored at a place; 0 if there is none. */
  function Pointer(fs: Fs, pl: Place): (b: Uint)
  {
    if pl.i >= |fs.inodes| then 0
    else if pl.Ind? then fs.inodes[pl.i].addrs[NDIRECT]
    else if pl.k < NDIRECT then fs.inodes[pl.i].addrs[pl.k]
    else IndirectEntry(fs.disk, fs.inodes[pl.i].addrs[NDIRECT], pl.k - NDIRECT)
  }

  function BBlock(sb: Super, b: nat): (r: nat) { sb.bmapstart + b / BPB }

  predicate Used(fs: Fs, b: nat)
    requires Shaped(fs) && b < fs.sb.size
  {
    BlockBit(fs.disk[BBlock(fs.sb, b)], b % BPB)
  }

  function BlockOrZero(disk: seq<Block>, b: nat): (r: Block)
  {
    if 0 < b < |disk| then disk[b] else ZERO_BLOCK
  }

  /** Block k of a file; an absent block reads as zeros. */
  function DataBlock(fs: Fs, i: nat, k: nat): (r: Block)
  {
    BlockOrZero(fs.disk, Pointer(fs, Data(i, k)))
  }

  // ----- ownership ----------------------------------------------------------------------------

  /** Block b hangs where its owner says. */
  predicate Hangs(fs: Fs, dead: set<Place>, b: nat)
    requires b in fs.owner
  {
    DataStart(fs.sb) <= b < fs.sb.size && fs.owner[b] !in dead && Pointer(fs, fs.owner[b]) == b
  }

  predicate Points(fs: Fs, dead: set<Place>, pl: Place)
  {
    pl in dead || Pointer(fs, pl) == 0 || (Pointer(fs, pl) in fs.owner && fs.owner[Pointer(fs, pl)] == pl)
  }

  predicate Counted(fs: Fs, loose: set<nat>, b: nat)
    requires Shaped(fs) && b < fs.sb.size
  {
    Used(fs, b) <==> b < DataStart(fs.sb) || b in fs.owner || b in loose
  }

  /** Pointers outside dead and owned blocks correspond one to one, and the bitmap has exactly the
      metadata, the owned blocks and the loose ones. dead are places whose block is already freed,
      loose are blocks allocated and not yet linked; between operations both are empty. */
  ghost predicate Owned(fs: Fs, dead: set<Place>, loose: set<nat>)
  {
    && Shaped(fs)
    && (forall b: nat :: b in fs.owner ==> Hangs(fs, dead, b))
    && (forall pl: Place :: Points(fs, dead, pl))
    && (forall b: nat :: b < fs.sb.size ==> Counted(fs, loose, b))
    && (forall b: nat :: b in loose ==> DataStart(fs.sb) <= b < fs.sb.size && b !in fs.owner)
  }

  /** Every block below the size of every file is there. */
  ghost predicate NoHoles(fs: Fs)
  {
    forall i: nat, k: nat :: i < |fs.inodes| && k * BSIZE < fs.inodes[i].size ==> Pointer(fs, Data(i, k)) != 0
  }

  /** Two places never share a block. */
  lemma PointersDiffer(fs: Fs, dead: set<Place>, loose: set<nat>, p: Place, q: Place)
    requires Owned(fs, dead, loose) && p !in dead && q !in dead && p != q && Pointer(fs, p) != 0
    ensures Pointer(fs, p) != Pointer(fs, q)
  {
    assert Points(fs, dead, p) && Points(fs, dead, q);
  }

  lemma PointerInData(fs: Fs, dead: set<Place>, loose: set<nat>, p: Place)
    requires Owned(fs, dead, loose) && p !in dead && Pointer(fs, p) != 0
    ensures DataStart(fs.sb) <= Pointer(fs, p) < fs.sb.size
    ensures Pointer(fs, p) in fs.owner && fs.owner[Pointer(fs, p)] == p && Used(fs, Pointer(fs, p))
  {
    assert Points(fs, dead, p) && Hangs(fs, dead, Pointer(fs, p)) && Counted(fs, loose, Pointer(fs, p));
  }

  /** The bitmap is exact: a block is marked just when it is metadata or some place points to it. */
  lemma BitmapExact(fs: Fs, b: nat)
    requires Owned(fs, {}, {}) && b < fs.sb.size
    ensures Used(fs, b) <==> b < DataStart(fs.sb) || exists pl: Place :: Pointer(fs, pl) == b
  {
    assert Counted(fs, {}, b);
    if b in fs.owner { assert Hangs(fs, {}, b) && Pointer(fs, fs.owner[b]) == b; }
    if pl: Place :| Pointer(fs, pl) == b {
      assert Points(fs, {}, pl);
    }
  }

  // ----- primitive updates --------------------------------------------------------------------

  function PutBlock(fs: Fs, b: nat, x: Block): (r: Fs)
    requires b < |fs.disk|
  {
    fs.(disk := fs.disk[b := x])
  }

  lemma BBlockInRange(sb: Super, b: nat)
    requires SuperOk(sb) && b < sb.size
    ensures 0 < BBlock(sb, b) < DataStart(sb) <= sb.size
  {
  }

  function MarkUsed(fs: Fs, b: nat): (r: Fs)
    requires Shaped(fs) && b < fs.sb.size && !Used(fs, b)
  {
    PutBlock(fs, BBlock(fs.sb, b), SetBit(fs.disk[BBlock(fs.sb, b)], b % BPB))
  }

  function MarkFree(fs: Fs, b: nat): (r: Fs)
    requires Shaped(fs) && b < fs.sb.size && Used(fs, b)
  {
    PutBlock(fs, BBlock(fs.sb, b), ClearBit(fs.disk[BBlock(fs.sb, b)], b % BPB))
  }

  /** balloc: mark and zero. */
  function Alloc(fs: Fs, b: nat): (r: Fs)
    requires Shaped(fs) && b < fs.sb.size && !Used(fs, b)
  {
    PutBlock(MarkUsed(fs, b), b, ZERO_BLOCK)
  }

  function SetAddr(fs: Fs, i: nat, n: nat, v: Uint): (r: Fs)
    requires i < |fs.inodes| && n <= NDIRECT
  {
    fs.(inodes := fs.inodes[i := fs.inodes[i].(addrs := fs.inodes[i].addrs[n := v])])
  }

  function SetEntry(fs: Fs, a: nat, j: nat, v: Uint): (r: Fs)
    requires a < |fs.disk| && j < NINDIRECT
  {
    PutBlock(fs, a, SetWord(fs.disk[a], j, v))
  }

  /** b is no file's indirect block. */
  ghost predicate NotIndirect(fs: Fs, b: nat)
  {
    b > 0 && forall i: nat :: Pointer(fs, Ind(i)) != b
  }

  lemma MetadataNotIndirect(fs: Fs, dead: set<Place>, loose: set<nat>, b: nat)
    requires Owned(fs, dead, loose) && 0 < b < DataStart(fs.sb) && forall i: nat :: Ind(i) !in dead
    ensures NotIndirect(fs, b)
  {
    forall i: nat ensures Pointer(fs, Ind(i)) != b {
      if Pointer(fs, Ind(i)) != 0 { PointerInData(fs, dead, loose, Ind(i)); }
    }
  }

  lemma LooseNotIndirect(fs: Fs, dead: set<Place>, loose: set<nat>, b: nat)
    requires Owned(fs, dead, loose) && b !in fs.owner && 0 < b < fs.sb.size && forall i: nat :: Ind(i) !in dead
    ensures NotIndirect(fs, b)
  {
    forall i: nat ensures Pointer(fs, Ind(i)) != b { assert Points(fs, dead, Ind(i)); }
  }

  lemma PutPointers(fs: Fs, b: nat, x: Block)
    requires b < |fs.disk| && NotIndirect(fs, b)
    ensures forall pl: Place :: Pointer(PutBlock(fs, b, x), pl) == Pointer(fs, pl)
  {
    forall pl: Place
      ensures Pointer(PutBlock(fs, b, x), pl) == Pointer(fs, pl)
    {
      assert Pointer(fs, Ind(pl.i)) != b;
    }
  }

  lemma MarkUsedBits(fs: Fs, b: nat, c: nat)
    requires Shaped(fs) && b < fs.sb.size && !Used(fs, b) && c < fs.sb.size
    ensures Shaped(MarkUsed(fs, b)) && (Used(MarkUsed(fs, b), c) <==> c == b || Used(fs, c))
  {
    SetBitEffect(fs.disk[BBlock(fs.sb, b)], b % BPB);
    assert c / BPB == b / BPB && c % BPB == b % BPB ==> c == b;
  }

  lemma MarkFreeBits(fs: Fs, b: nat, c: nat)
    requires Shaped(fs) && b < fs.sb.size && Used(fs, b) && c < fs.sb.size
    ensures Shaped(MarkFree(fs, b)) && (Used(MarkFree(fs, b), c) <==> c != b && Used(fs, c))
  {
    ClearBitEffect(fs.disk[BBlock(fs.sb, b)], b % BPB);
    assert c / BPB == b / BPB && c % BPB == b % BPB ==> c == b;
  }

  // ----- allocation ---------------------------------------------------------------------------

  lemma AllocPointers(fs: Fs, b: nat)
    requires Owned(fs, {}, {}) && b < fs.sb.size && !Used(fs, b)
    ensures DataStart(fs.sb) <= b && b !in fs.owner
    ensures forall pl: Place :: Pointer(Alloc(fs, b), pl) == Pointer(fs, pl)
    ensures forall pl: Place :: Pointer(fs, pl) != b
  {
    assert Counted(fs, {}, b);
    BBlockInRange(fs.sb, b);
    MetadataNotIndirect(fs, {}, {}, BBlock(fs.sb, b));
    LooseNotIndirect(fs, {}, {}, b);
    var f1 := MarkUsed(fs, b);
    PutPointers(fs, BBlock(fs.sb, b), f1.disk[BBlock(fs.sb, b)]);
    PutPointers(f1, b, ZERO_BLOCK);
    forall pl: Place ensures Pointer(fs, pl) != b { assert Points(fs, {}, pl); }
  }

  lemma AllocBits(fs: Fs, b: nat, c: nat)
    requires Shaped(fs) && DataStart(fs.sb) <= b < fs.sb.size && !Used(fs, b) && c < fs.sb.size
    ensures Shaped(Alloc(fs, b)) && (Used(Alloc(fs, b), c) <==> c == b || Used(fs, c))
  {
    MarkUsedBits(fs, b, c);
    BBlockInRange(fs.sb, c);
  }

  /** balloc leaves the new block marked, zero and unlinked, and disturbs no file. */
  lemma AllocOwned(fs: Fs, b: nat)
    requires Owned(fs, {}, {}) && b < fs.sb.size && !Used(fs, b)
    ensures Owned(Alloc(fs, b), {}, {b})
    ensures forall i: nat, k: nat :: DataBlock(Alloc(fs, b), i, k) == DataBlock(fs, i, k)
  {
    var f := Alloc(fs, b);
    AllocPointers(fs, b);
    forall c: nat | c in f.owner ensures Hangs(f, {}, c) { assert Hangs(fs, {}, c); }
    forall pl: Place ensures Points(f, {}, pl) { assert Points(fs, {}, pl); }
    forall c: nat | c < f.sb.size ensures Counted(f, {b}, c) { assert Counted(fs, {}, c); AllocBits(fs, b, c); }
    forall i: nat, k: nat
      ensures DataBlock(f, i, k) == DataBlock(fs, i, k)
    {
      var a := Pointer(fs, Data(i, k));
      assert a != b;
      if a != 0 { PointerInData(fs, {}, {}, Data(i, k)); }
    }
  }

  /** fs' has loose block b hung at pl, where nothing was, and is otherwise the same. */
  ghost predicate HungAt(fs: Fs, fs': Fs, pl: Place, b: nat)
  {
    && Pointer(fs, pl) == 0 && Pointer(fs', pl) == b
    && (forall q: Place :: q != pl ==> Pointer(fs', q) == Pointer(fs, q))
    && fs'.owner == fs.owner[b := pl] && fs'.sb == fs.sb
  }

  lemma HungOwned(fs: Fs, fs': Fs, pl: Place, b: nat)
    requires Owned(fs, {}, {b}) && HungAt(fs, fs', pl, b) && Shaped(fs')
    requires forall c: nat :: c < fs.sb.size ==> Used(fs', c) == Used(fs, c)
    ensures Owned(fs', {}, {})
  {
    forall c: nat | c in fs'.owner
      ensures Hangs(fs', {}, c)
    {
      if c != b { assert Hangs(fs, {}, c); }
    }
    forall q: Place ensures Points(fs', {}, q) { assert Points(fs, {}, q); }
    forall c: nat | c < fs'.sb.size ensures Counted(fs', {}, c) { assert Counted(fs, {b}, c); }
  }

  /** The three ways bmap links a fresh block. */
  lemma LinkDirect(fs: Fs, i: nat, k: nat, b: nat)
    requires Owned(fs, {}, {b}) && i < |fs.inodes| && k < NDIRECT && Pointer(fs, Data(i, k)) == 0
    requires fs.disk[b] == ZERO_BLOCK
    ensures var f := SetAddr(fs, i, k, b).(owner := fs.owner[b := Data(i, k)]);
            && HungAt(fs, f, Data(i, k), b) && Owned(f, {}, {})
            && (forall j: nat, m: nat :: DataBlock(f, j, m) == DataBlock(fs, j, m))
  {
    var f := SetAddr(fs, i, k, b).(owner := fs.owner[b := Data(i, k)]);
    forall q: Place | q != Data(i, k) ensures Pointer(f, q) == Pointer(fs, q) {}
    HungOwned(fs, f, Data(i, k), b);
    forall j: nat, m: nat
      ensures DataBlock(f, j, m) == DataBlock(fs, j, m)
    {
      assert Data(j, m) != Data(i, k) || f.disk[b] == ZERO_BLOCK;
    }
  }

  lemma LinkIndirect(fs: Fs, i: nat, b: nat)
    requires Owned(fs, {}, {b}) && i < |fs.inodes| && Pointer(fs, Ind(i)) == 0 && fs.disk[b] == ZERO_BLOCK
    ensures var f := SetAddr(fs, i, NDIRECT, b).(owner := fs.owner[b := Ind(i)]);
            && HungAt(fs, f, Ind(i), b) && Owned(f, {}, {})
            && (forall j: nat, m: nat :: DataBlock(f, j, m) == DataBlock(fs, j, m))
  {
    var f := SetAddr(fs, i, NDIRECT, b).(owner := fs.owner[b := Ind(i)]);
    forall q: Place | q != Ind(i)
      ensures Pointer(f, q) == Pointer(fs, q)
    {
      if q.Data? && q.i == i && NDIRECT <= q.k < MAXFILE { ZeroWords(q.k - NDIRECT); }
    }
    HungOwned(fs, f, Ind(i), b);
  }

  lemma LinkEntry(fs: Fs, i: nat, j: nat, b: nat)
    requires Owned(fs, {}, {b}) && i < |fs.inodes| && j < NINDIRECT && Pointer(fs, Ind(i)) != 0
    requires Pointer(fs, Data(i, NDIRECT + j)) == 0 && fs.disk[b] == ZERO_BLOCK
    ensures Pointer(fs, Ind(i)) < fs.sb.size && Pointer(fs, Ind(i)) != b
    ensures var f := SetEntry(fs, Pointer(fs, Ind(i)), j, b).(owner := fs.owner[b := Data(i, NDIRECT + j)]);
            && HungAt(fs, f, Data(i, NDIRECT + j), b) && Owned(f, {}, {})
            && (forall l: nat, m: nat :: DataBlock(f, l, m) == DataBlock(fs, l, m))
  {
    var a := Pointer(fs, Ind(i));
    PointerInData(fs, {}, {b}, Ind(i));
    var f := SetEntry(fs, a, j, b).(owner := fs.owner[b := Data(i, NDIRECT + j)]);
    EntryPointers(fs, i, j, b);
    forall c: nat | c < fs.sb.size ensures Used(f, c) == Used(fs, c) { BBlockInRange(fs.sb, c); }
    HungOwned(fs, f, Data(i, NDIRECT + j), b);
    forall l: nat, m: nat
      ensures DataBlock(f, l, m) == DataBlock(fs, l, m)
    {
      if Pointer(fs, Data(l, m)) != 0 { PointersDiffer(fs, {}, {b}, Data(l, m), Ind(i)); }
    }
  }

  lemma EntryPointers(fs: Fs, i: nat, j: nat, b: nat)
    requires Owned(fs, {}, {b}) && i < |fs.inodes| && j < NINDIRECT && Pointer(fs, Ind(i)) != 0
    ensures Pointer(fs, Ind(i)) < fs.sb.size
    ensures Pointer(SetEntry(fs, Pointer(fs, Ind(i)), j, b), Data(i, NDIRECT + j)) == b
    ensures forall q: Place :: q != Data(i, NDIRECT + j) ==>
            Pointer(SetEntry(fs, Pointer(fs, Ind(i)), j, b), q) == Pointer(fs, q)
  {
    var a := Pointer(fs, Ind(i));
    PointerInData(fs, {}, {b}, Ind(i));
    WordRoundTrip(fs.disk[a], j, b);
    forall q: Place | q != Data(i, NDIRECT + j)
      ensures Pointer(SetEntry(fs, a, j, b), q) == Pointer(fs, q)
    {
      if q.Data? && NDIRECT <= q.k < MAXFILE {
        if q.i == i {
          WordFrame(fs.disk[a], j, b, q.k - NDIRECT);
        } else {
          PointersDiffer(fs, {}, {b}, Ind(i), Ind(q.i));
        }
      }
    }
  }

  // ----- freeing ------------------------------------------------------------------------------

  /** bfree of the block at pl: it was marked, and afterwards the place is dead. */
  lemma FreeOwned(fs: Fs, dead: set<Place>, pl: Place)
    requires Owned(fs, dead, {}) && pl !in dead && Pointer(fs, pl) != 0 && forall i: nat :: Ind(i) !in dead
    ensures Pointer(fs, pl) < fs.sb.size && Used(fs, Pointer(fs, pl))
    ensures var f := MarkFree(fs, Pointer(fs, pl)).(owner := fs.owner - {Pointer(fs, pl)});
            Owned(f, dead + {pl}, {}) && (forall q: Place :: Pointer(f, q) == Pointer(fs, q))
  {
    var b := Pointer(fs, pl);
    PointerInData(fs, dead, {}, pl);
    BBlockInRange(fs.sb, b);
    MetadataNotIndirect(fs, dead, {}, BBlock(fs.sb, b));
    var f := MarkFree(fs, b).(owner := fs.owner - {b});
    PutPointers(fs, BBlock(fs.sb, b), f.disk[BBlock(fs.sb, b)]);
    assert forall q: Place :: Pointer(f, q) == Pointer(MarkFree(fs, b), q);
    forall c: nat | c in f.owner ensures Hangs(f, dead + {pl}, c) { assert Hangs(fs, dead, c); }
    forall q: Place ensures Points(f, dead + {pl}, q) { assert Points(fs, dead, q); }
    forall c: nat | c < f.sb.size ensures Counted(f, {}, c) { assert Counted(fs, {}, c); MarkFreeBits(fs, b, c); }
  }

  /** Pointers of dead places may be cleared, and then the places are no longer dead. */
  lemma ClearedOwned(fs: Fs, fs': Fs, dead: set<Place>, dead': set<Place>)
    requires Owned(fs, dead, {}) && Shaped(fs') && fs'.owner == fs.owner && fs'.sb == fs.sb && fs'.disk == fs.disk
    requires forall pl: Place :: Pointer(fs', pl) == if pl in dead - dead' then 0 else Pointer(fs, pl)
    requires dead' <= dead
    ensures Owned(fs', dead', {})
  {
    forall c: nat | c in fs'.owner ensures Hangs(fs', dead', c) { assert Hangs(fs, dead, c); }
    forall q: Place ensures Points(fs', dead', q) { assert Points(fs, dead, q); }
    forall c: nat | c < fs'.sb.size ensures Counted(fs', {}, c) { assert Counted(fs, {}, c); }
  }

  // ----- the inode on disk --------------------------------------------------------------------

  function IBlock(sb: Super, i: nat): (r: nat) { i / IPB + sb.inodestart }

  /** The words of a struct dinode. */
  function InodeWords(ip: Inode): (r: seq<Uint>)
    ensures |r| == 16
  {
    [ip.head.0, ip.head.1, ip.size] + ip.addrs
  }

  /** The on-disk inode is the in-memory one. */
  predicate Recorded(fs: Fs, i: nat)
    requires Shaped(fs) && i < |fs.inodes|
  {
    forall w :: 0 <= w < 16 ==> Word(fs.disk[IBlock(fs.sb, i)], 16 * (i % IPB) + w) == InodeWords(fs.inodes[i])[w]
  }

  /** The block with ws stored from word at on. */
  function StoreWords(x: Block, at: nat, ws: seq<Uint>): (r: Block)
    requires at + |ws| <= NWORDS
  {
    if ws == [] then x else SetWord(StoreWords(x, at, ws[..|ws| - 1]), at + |ws| - 1, ws[|ws| - 1])
  }

  lemma {:induction false} StoredWords(x: Block, at: nat, ws: seq<Uint>, m: nat)
    requires at + |ws| <= NWORDS && m < NWORDS
    ensures Word(StoreWords(x, at, ws), m) == if at <= m < at + |ws| then ws[m - at] else Word(x, m)
  {
    if ws != [] {
      var n := |ws| - 1;
      var y := StoreWords(x, at, ws[..n]);
      StoredWords(x, at, ws[..n], m);
      if m == at + n { WordRoundTrip(y, m, ws[n]); } else { WordFrame(y, at + n, ws[n], m); }
    }
  }

  function Updated(fs: Fs, i: nat): (r: Fs)
    requires Shaped(fs) && i < |fs.inodes|
  {
    PutBlock(fs, IBlock(fs.sb, i), StoreWords(fs.disk[IBlock(fs.sb, i)], 16 * (i % IPB), InodeWords(fs.inodes[i])))
  }

  /** iupdate records its inode and no other inode's record changes. */
  lemma UpdatedRecords(fs: Fs, i: nat, j: nat)
    requires Shaped(fs) && i < |fs.inodes| && j < |fs.inodes|
    ensures Shaped(Updated(fs, i))
    ensures j == i || Recorded(fs, j) ==> Recorded(Updated(fs, i), j)
  {
    var x := fs.disk[IBlock(fs.sb, i)];
    if j == i || (Recorded(fs, j) && j / IPB == i / IPB) {
      assert j != i ==> j % IPB != i % IPB;
      forall w | 0 <= w < 16
        ensures Word(Updated(fs, i).disk[IBlock(fs.sb, j)], 16 * (j % IPB) + w) == InodeWords(fs.inodes[j])[w]
      {
        StoredWords(x, 16 * (i % IPB), InodeWords(fs.inodes[i]), 16 * (j % IPB) + w);
      }
    }
  }

  /** iupdate touches neither pointers nor bits nor contents. */
  lemma UpdatedOwned(fs: Fs, i: nat)
    requires Owned(fs, {}, {}) && i < |fs.inodes|
    ensures Owned(Updated(fs, i), {}, {})
    ensures forall pl: Place :: Pointer(Updated(fs, i), pl) == Pointer(fs, pl)
    ensures forall j: nat, k: nat :: DataBlock(Updated(fs, i), j, k) == DataBlock(fs, j, k)
  {
    InodeBlockOwned(fs, IBlock(fs.sb, i), Updated(fs, i).disk[IBlock(fs.sb, i)]);
  }

  lemma InodeBlockOwned(fs: Fs, b: nat, x: Block)
    requires Owned(fs, {}, {}) && 0 < b < fs.sb.bmapstart
    ensures Owned(PutBlock(fs, b, x), {}, {})
    ensures forall pl: Place :: Pointer(PutBlock(fs, b, x), pl) == Pointer(fs, pl)
    ensures forall j: nat, k: nat :: DataBlock(PutBlock(fs, b, x), j, k) == DataBlock(fs, j, k)
  {
    var f := PutBlock(fs, b, x);
    MetadataNotIndirect(fs, {}, {}, b);
    PutPointers(fs, b, x);
    forall c: nat | c in f.owner ensures Hangs(f, {}, c) { assert Hangs(fs, {}, c); }
    forall q: Place ensures Points(f, {}, q) { assert Points(fs, {}, q); }
    forall c: nat | c < f.sb.size ensures Counted(f, {}, c) { assert Counted(fs, {}, c); }
    forall j: nat, k: nat
      ensures DataBlock(f, j, k) == DataBlock(fs, j, k)
    {
      if Pointer(fs, Data(j, k)) != 0 { PointerInData(fs, {}, {}, Data(j, k)); }
    }
  }

  /** Writing data blocks and bitmap blocks keeps every inode's record. */
  lemma RecordKept(fs: Fs, b: nat, x: Block, j: nat)
    requires Shaped(fs) && fs.sb.bmapstart <= b < fs.sb.size && j < |fs.inodes| && Recorded(fs, j)
    ensures Shaped(PutBlock(fs, b, x)) && Recorded(PutBlock(fs, b, x), j)
  {
  }

  // ----- writing a file's block ---------------------------------------------------------------

  /** Storing into block k of file i changes that block of that file only. */
  lemma WriteOwned(fs: Fs, i: nat, k: nat, x: Block)
    requires Owned(fs, {}, {}) && Pointer(fs, Data(i, k)) != 0
    ensures Pointer(fs, Data(i, k)) < fs.sb.size
    ensures var f := PutBlock(fs, Pointer(fs, Data(i, k)), x);
            && Owned(f, {}, {}) && (forall pl: Place :: Pointer(f, pl) == Pointer(fs, pl))
            && DataBlock(f, i, k) == x
            && (forall j: nat, m: nat :: (j, m) != (i, k) ==> DataBlock(f, j, m) == DataBlock(fs, j, m))
  {
    var b := Pointer(fs, Data(i, k));
    PointerInData(fs, {}, {}, Data(i, k));
    var f := PutBlock(fs, b, x);
    forall j: nat ensures Pointer(fs, Ind(j)) != b { PointersDiffer(fs, {}, {}, Data(i, k), Ind(j)); }
    PutPointers(fs, b, x);
    forall c: nat | c in f.owner ensures Hangs(f, {}, c) { assert Hangs(fs, {}, c); }
    forall q: Place ensures Points(f, {}, q) { assert Points(fs, {}, q); }
    forall c: nat | c < f.sb.size ensures Counted(f, {}, c) { assert Counted(fs, {}, c); BBlockInRange(fs.sb, c); }
    forall j: nat, m: nat | (j, m) != (i, k)
      ensures DataBlock(f, j, m) == DataBlock(fs, j, m)
    {
      PointersDiffer(fs, {}, {}, Data(i, k), Data(j, m));
    }
  }
}

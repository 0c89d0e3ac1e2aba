/** itrunc of fs.c: the loops that give a file's blocks back. */
module Truncate {
  import opened Collections
  import opened Layout
  import opened Inodes
  import opened FileSystem

  /** Only bitmap blocks and inode i differ. */
  ghost predicate OnlyBitmap(was: Fs, now: Fs, i: nat)
  {
    && Shaped(was) && Shaped(now) && now.sb == was.sb
    && (forall j: nat :: j < |was.inodes| && j != i ==> now.inodes[j] == was.inodes[j])
    && (forall b: nat :: b < was.sb.size && !(was.sb.bmapstart <= b < DataStart(was.sb)) ==> now.disk[b] == was.disk[b])
  }

  lemma OnlyBitmapTrans(a: Fs, b: Fs, c: Fs, i: nat)
    requires OnlyBitmap(a, b, i) && OnlyBitmap(b, c, i)
    ensures OnlyBitmap(a, c, i)
  {
  }

  /** bfree with the block's owner struck out. */
  function Released(fs: Fs, b: nat): (r: Fs)
    requires Shaped(fs) && b < fs.sb.size && Used(fs, b)
  {
    MarkFree(fs, b).(owner := fs.owner - {b})
  }

  lemma ReleasedOnlyBitmap(fs: Fs, b: nat, i: nat)
    requires Shaped(fs) && b < fs.sb.size && Used(fs, b)
    ensures OnlyBitmap(fs, Released(fs, b), i)
  {
    BBlockInRange(fs.sb, b);
  }

  /** Pointers of file i at places in gone are cleared, all others are as they were. */
  ghost predicate Cleared(was: Fs, now: Fs, gone: set<Place>)
  {
    forall pl: Place :: Pointer(now, pl) == if pl in gone then 0 else Pointer(was, pl)
  }

  /** One round of the direct loop. */
  lemma DropDirect(fs: Fs, i: nat, n: nat)
    requires Owned(fs, {}, {}) && i < |fs.inodes| && n < NDIRECT && Pointer(fs, Data(i, n)) != 0
    ensures Pointer(fs, Data(i, n)) < fs.sb.size && Used(fs, Pointer(fs, Data(i, n)))
    ensures var f := SetAddr(Released(fs, Pointer(fs, Data(i, n))), i, n, 0);
            Owned(f, {}, {}) && Cleared(fs, f, {Data(i, n)}) && OnlyBitmap(fs, f, i)
  {
    var b := Pointer(fs, Data(i, n));
    FreeOwned(fs, {}, Data(i, n));
    var mid := Released(fs, b);
    ReleasedOnlyBitmap(fs, b, i);
    var f := SetAddr(mid, i, n, 0);
    forall pl: Place
      ensures Pointer(f, pl) == if pl == Data(i, n) then 0 else Pointer(mid, pl)
    {
    }
    assert {} + {Data(i, n)} == {Data(i, n)};
    ClearedOwned(mid, f, {Data(i, n)}, {});
  }

  /** Entries below j of file i's indirect block. */
  ghost predicate DeadEntries(fs: Fs, dead: set<Place>, i: nat, j: nat)
  {
    forall pl: Place :: pl in dead <==> pl.Data? && pl.i == i && NDIRECT <= pl.k < NDIRECT + j && Pointer(fs, pl) != 0
  }

  /** One round of the indirect loop: the entry stays, its block is freed. */
  lemma DropEntry(fs: Fs, dead: set<Place>, i: nat, j: nat)
    requires Owned(fs, dead, {}) && DeadEntries(fs, dead, i, j) && i < |fs.inodes| && j < NINDIRECT
    requires Pointer(fs, Data(i, NDIRECT + j)) != 0
    ensures var b := Pointer(fs, Data(i, NDIRECT + j));
            && b < fs.sb.size && Used(fs, b)
            && Owned(Released(fs, b), dead + {Data(i, NDIRECT + j)}, {})
            && DeadEntries(Released(fs, b), dead + {Data(i, NDIRECT + j)}, i, j + 1)
            && Cleared(fs, Released(fs, b), {}) && OnlyBitmap(fs, Released(fs, b), i)
  {
    FreeOwned(fs, dead, Data(i, NDIRECT + j));
    ReleasedOnlyBitmap(fs, Pointer(fs, Data(i, NDIRECT + j)), i);
  }

  /** The indirect block itself goes, and with it every entry. */
  lemma DropIndirect(fs: Fs, dead: set<Place>, i: nat)
    requires Owned(fs, dead, {}) && DeadEntries(fs, dead, i, NINDIRECT) && i < |fs.inodes| && Pointer(fs, Ind(i)) != 0
    ensures Pointer(fs, Ind(i)) < fs.sb.size && Used(fs, Pointer(fs, Ind(i)))
    ensures var f := SetAddr(Released(fs, Pointer(fs, Ind(i))), i, NDIRECT, 0);
            Owned(f, {}, {}) && Cleared(fs, f, dead + {Ind(i)}) && OnlyBitmap(fs, f, i)
  {
    FreeOwned(fs, dead, Ind(i));
    var mid := Released(fs, Pointer(fs, Ind(i)));
    ReleasedOnlyBitmap(fs, Pointer(fs, Ind(i)), i);
    var f := SetAddr(mid, i, NDIRECT, 0);
    forall pl: Place
      ensures Pointer(f, pl) == if pl in dead + {Ind(i)} then 0 else Pointer(mid, pl)
    {
      assert Pointer(mid, pl) == Pointer(fs, pl);
      assert pl in dead <==> pl.Data? && pl.i == i && NDIRECT <= pl.k < NDIRECT + NINDIRECT && Pointer(fs, pl) != 0;
    }
    ClearedOwned(mid, f, dead + {Ind(i)}, {});
  }

  /** itrunc's first loop. */
  method DropDirects(v: Volume, i: nat) returns (ok: bool)
    requires Owned(v.Now(), {}, {}) && i < |v.inodes|
    modifies v
    ensures ok && Owned(v.Now(), {}, {}) && OnlyBitmap(old(v.Now()), v.Now(), i)
    ensures forall pl: Place ::
              Pointer(v.Now(), pl) == if pl.Data? && pl.i == i && pl.k < NDIRECT then 0 else Pointer(old(v.Now()), pl)
    ensures v.inodes[i].head == old(v.inodes[i].head)
  {
    ghost var was := v.Now();
    var n := 0;
    while n < NDIRECT
      invariant 0 <= n <= NDIRECT && Owned(v.Now(), {}, {}) && OnlyBitmap(was, v.Now(), i) && i < |v.inodes|
      invariant forall pl: Place ::
                  Pointer(v.Now(), pl) == if pl.Data? && pl.i == i && pl.k < n then 0 else Pointer(was, pl)
      invariant v.inodes[i].head == old(v.inodes[i].head)
    {
      if v.inodes[i].addrs[n] != 0 {
        ghost var mid := v.Now();
        var b := v.inodes[i].addrs[n];
        assert b == Pointer(mid, Data(i, n));
        DropDirect(mid, i, n);
        ok := v.Bfree(b);
        v.inodes := v.inodes[i := v.inodes[i].(addrs := v.inodes[i].addrs[n := 0])];
        v.owner := v.owner - {b};
        OnlyBitmapTrans(was, mid, v.Now(), i);
        if !ok {
          return;
        }
      }
      n := n + 1;
    }
    ok := true;
  }

  /** itrunc's second loop, over the entries of the indirect block. */
  method DropEntries(v: Volume, i: nat) returns (ok: bool, ghost dead: set<Place>)
    requires Owned(v.Now(), {}, {}) && i < |v.inodes| && Pointer(v.Now(), Ind(i)) != 0
    modifies v
    ensures ok && Owned(v.Now(), dead, {}) && DeadEntries(v.Now(), dead, i, NINDIRECT)
    ensures Cleared(old(v.Now()), v.Now(), {}) && OnlyBitmap(old(v.Now()), v.Now(), i) && v.inodes == old(v.inodes)
  {
    ghost var was := v.Now();
    PointerInData(was, {}, {}, Ind(i));
    var bp := v.disk[v.inodes[i].addrs[NDIRECT]];
    dead := {};
    var j := 0;
    while j < NINDIRECT
      invariant 0 <= j <= NINDIRECT && Owned(v.Now(), dead, {}) && DeadEntries(v.Now(), dead, i, j)
      invariant Cleared(was, v.Now(), {}) && OnlyBitmap(was, v.Now(), i) && v.inodes == was.inodes
    {
      assert Word(bp, j) == Pointer(was, Data(i, NDIRECT + j)) == Pointer(v.Now(), Data(i, NDIRECT + j));
      if Word(bp, j) != 0 {
        ghost var mid := v.Now();
        var b := Word(bp, j);
        DropEntry(mid, dead, i, j);
        ok := v.Bfree(b);
        v.owner := v.owner - {b};
        dead := dead + {Data(i, NDIRECT + j)};
        OnlyBitmapTrans(was, mid, v.Now(), i);
        if !ok {
          return;
        }
      }
      j := j + 1;
    }
    ok := true;
  }

  /** What itrunc leaves: file i without blocks and empty, everything else untouched. */
  ghost predicate Truncated(was: Fs, now: Fs, i: nat)
  {
    && i < |was.inodes| == |now.inodes| && now.inodes[i].size == 0 && now.inodes[i].head == was.inodes[i].head
    && (forall j: nat :: j < |was.inodes| && j != i ==> now.inodes[j] == was.inodes[j])
    && (forall pl: Place :: Pointer(now, pl) == if pl.i == i then 0 else Pointer(was, pl))
    && (forall j: nat, k: nat :: j != i ==> DataBlock(now, j, k) == DataBlock(was, j, k))
  }

  lemma TruncatedValid(was: Fs, mid: Fs, i: nat)
    requires Valid(was) && i < |was.inodes| && Owned(mid, {}, {}) && OnlyBitmap(was, mid, i)
    requires mid.inodes[i].head == was.inodes[i].head
    requires forall pl: Place :: Pointer(mid, pl) == if pl.i == i then 0 else Pointer(was, pl)
    ensures var now := Updated(Resized(mid, i, 0), i); Valid(now) && Truncated(was, now, i)
  {
    var r := Resized(mid, i, 0);
    ResizedOwned(mid, i, 0);
    UpdatedOwned(r, i);
    var now := Updated(r, i);
    forall j: nat | j < |now.inodes|
      ensures Recorded(now, j)
    {
      UpdatedRecords(r, i, j);
      assert j != i ==> Recorded(was, j);
    }
    forall j: nat, k: nat | j < |now.inodes| && k * BSIZE < now.inodes[j].size
      ensures Pointer(now, Data(j, k)) != 0
    {
      assert Pointer(was, Data(j, k)) != 0;
    }
    forall j: nat, k: nat | j != i
      ensures DataBlock(now, j, k) == DataBlock(was, j, k)
    {
      assert DataBlock(now, j, k) == DataBlock(mid, j, k);
      if Pointer(was, Data(j, k)) != 0 { PointerInData(was, {}, {}, Data(j, k)); }
    }
  }

  /** Truncation gives back exactly the file's blocks. */
  lemma TruncatedFrees(was: Fs, now: Fs, i: nat, b: nat)
    requires Owned(was, {}, {}) && Owned(now, {}, {}) && Truncated(was, now, i) && now.sb == was.sb && b < was.sb.size
    ensures Used(now, b) <==> Used(was, b) && !exists pl: Place :: pl.i == i && Pointer(was, pl) == b != 0
  {
    BitmapExact(was, b);
    BitmapExact(now, b);
    if b > 0 {
      forall p: Place, q: Place | Pointer(was, p) == b && Pointer(was, q) == b ensures p == q {
        assert Points(was, {}, p) && Points(was, {}, q);
      }
      if pl: Place :| Pointer(was, pl) == b {
        assert Pointer(now, pl) == if pl.i == i then 0 else b;
        PointerInData(was, {}, {}, pl);
      }
    }
  }

  /** itrunc: frees the file's blocks and records the empty inode. It never meets a block that is
      marked free already. */
  method Itrunc(v: Volume, i: nat) returns (ok: bool)
    requires Valid(v.Now()) && i < |v.inodes|
    modifies v
    ensures ok && Valid(v.Now()) && Truncated(old(v.Now()), v.Now(), i)
    ensures forall b: nat :: b < v.sb.size ==>
              (Used(v.Now(), b) <==>
                Used(old(v.Now()), b) && !exists pl: Place :: pl.i == i && Pointer(old(v.Now()), pl) == b != 0)
  {
    ghost var was := v.Now();
    ok := DropDirects(v, i);
    if ok && v.inodes[i].addrs[NDIRECT] != 0 {
      ghost var mid := v.Now();
      ghost var dead: set<Place>;
      ok, dead := DropEntries(v, i);
      ghost var bare := v.Now();
      assert v.inodes[i].addrs[NDIRECT] == Pointer(bare, Ind(i));
      DropIndirect(bare, dead, i);
      if ok {
        var b := v.inodes[i].addrs[NDIRECT];
        ok := v.Bfree(b);
        v.owner := v.owner - {b};
        v.inodes := v.inodes[i := v.inodes[i].(addrs := v.inodes[i].addrs[NDIRECT := 0])];
      }
      OnlyBitmapTrans(was, mid, bare, i);
      OnlyBitmapTrans(was, bare, v.Now(), i);
    }
    TruncatedValid(was, v.Now(), i);
    v.inodes := v.inodes[i := v.inodes[i].(size := 0)];
    v.Iupdate(i);
    forall b: nat | b < v.sb.size
      ensures Used(v.Now(), b) <==> Used(was, b) && !exists pl: Place :: pl.i == i && Pointer(was, pl) == b != 0
    {
      TruncatedFrees(was, v.Now(), i, b);
    }
  }
}

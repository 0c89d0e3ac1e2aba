/** The free list of the Kernighan and Ritchie allocator (umalloc.c) as a value: blocks in address
    order from the empty base block on, and what inserting and carving do to the units they cover. */
module FreeList {

  /** A block of units header-sized units, header included, at address at. */
  datatype Blk = Blk(at: nat, units: nat)

  function End(b: Blk): (r: nat) { b.at + b.units }

  predicate Proper(f: seq<Blk>, k: nat)
    requires k < |f|
  {
    f[k].units > 0 && f[k].at > 0
  }

  predicate Apart(f: seq<Blk>, j: nat, k: nat)
    requires j < |f| && k < |f|
  {
    End(f[j]) <= f[k].at
  }

  /** Blocks in address order, none empty but the base, none overlapping. */
  predicate Sorted(f: seq<Blk>)
  {
    && |f| > 0 && f[0] == Blk(0, 0)
    && (forall k: nat :: 0 < k < |f| ==> Proper(f, k))
    && (forall j: nat, k: nat :: j < k < |f| ==> Apart(f, j, k))
  }

  predicate Touching(f: seq<Blk>, k: nat) { k + 1 < |f| && End(f[k]) == f[k + 1].at }

  /** Nothing adjacent is left uncoalesced. */
  predicate Ordered(f: seq<Blk>)
  {
    Sorted(f) && forall k: nat :: k < |f| ==> !Touching(f, k)
  }

  predicate In(b: Blk, x: nat) { b.at <= x < End(b) }

  predicate Covered(f: seq<Blk>, x: nat) { exists k :: 0 <= k < |f| && In(f[k], x) }

  // ----- inserting ----------------------------------------------------------------------------

  /** Block b belongs behind block k. */
  predicate Behind(f: seq<Blk>, k: nat, b: Blk)
  {
    k < |f| && b.units > 0 && b.at > 0 && End(f[k]) <= b.at && (k + 1 < |f| ==> End(b) <= f[k + 1].at)
  }

  function Put(f: seq<Blk>, k: nat, b: Blk): (r: seq<Blk>)
    requires k < |f|
    ensures |r| == |f| + 1
    ensures forall j :: 0 <= j < |r| ==> r[j] == if j <= k then f[j] else if j == k + 1 then b else f[j - 1]
  {
    f[..k + 1] + [b] + f[k + 1..]
  }

  /** Blocks k and k + 1 made one. */
  function Join(f: seq<Blk>, k: nat): (r: seq<Blk>)
    requires k + 1 < |f|
    ensures |r| == |f| - 1
    ensures forall j :: 0 <= j < |r| ==>
            r[j] == if j < k then f[j] else if j == k then Blk(f[k].at, f[k].units + f[k + 1].units) else f[j + 1]
  {
    f[..k] + [Blk(f[k].at, f[k].units + f[k + 1].units)] + f[k + 2..]
  }

  function Coalesce(f: seq<Blk>, k: nat): (r: seq<Blk>)
  {
    if Touching(f, k) then Join(f, k) else f
  }

  /** free(): b put behind block k and coalesced with its upper, then with its lower neighbour. */
  function Insert(f: seq<Blk>, k: nat, b: Blk): (r: seq<Blk>)
    requires k < |f|
  {
    Coalesce(Coalesce(Put(f, k, b), k + 1), k)
  }

  lemma PutSorted(f: seq<Blk>, k: nat, b: Blk)
    requires Sorted(f) && Behind(f, k, b)
    ensures Sorted(Put(f, k, b))
  {
    var r := Put(f, k, b);
    forall j: nat | 0 < j < |r|
      ensures Proper(r, j)
    {
      if j != k + 1 { assert Proper(f, if j <= k then j else j - 1); }
    }
    forall i: nat, j: nat | i < j < |r|
      ensures Apart(r, i, j)
    {
      if i == k + 1 {
        if j > k + 2 { assert Apart(f, k + 1, j - 1); }
      } else if j == k + 1 {
        if i < k { assert Apart(f, i, k); }
      } else {
        assert Apart(f, if i <= k then i else i - 1, if j <= k then j else j - 1);
      }
    }
  }

  lemma JoinSorted(f: seq<Blk>, k: nat)
    requires Sorted(f) && Touching(f, k) && k > 0
    ensures Sorted(Join(f, k))
  {
    var r := Join(f, k);
    forall j: nat | 0 < j < |r| ensures Proper(r, j) { assert Proper(f, if j <= k then j else j + 1); }
    forall i: nat, j: nat | i < j < |r|
      ensures Apart(r, i, j)
    {
      assert Apart(f, if i < k then i else i + 1, if j <= k then j else j + 1);
    }
  }

  lemma PutCovers(f: seq<Blk>, k: nat, b: Blk, x: nat)
    requires k < |f|
    ensures Covered(Put(f, k, b), x) <==> Covered(f, x) || In(b, x)
  {
    var r := Put(f, k, b);
    if Covered(f, x) {
      var j :| 0 <= j < |f| && In(f[j], x);
      assert In(r[if j <= k then j else j + 1], x);
    }
    if In(b, x) { assert In(r[k + 1], x); }
  }

  lemma JoinCovers(f: seq<Blk>, k: nat, x: nat)
    requires Touching(f, k)
    ensures Covered(Join(f, k), x) <==> Covered(f, x)
  {
    var r := Join(f, k);
    if Covered(f, x) {
      var j :| 0 <= j < |f| && In(f[j], x);
      assert In(r[if j <= k then j else j - 1], x);
    }
    if Covered(r, x) {
      var j :| 0 <= j < |r| && In(r[j], x);
      if j < k { assert In(f[j], x); } else if j > k { assert In(f[j + 1], x); } else {
        assert In(f[k], x) || In(f[k + 1], x);
      }
    }
  }

  /** Only blocks k (and k + 1) may touch their upper neighbour. */
  predicate TouchesOnly(f: seq<Blk>, k: nat, l: nat)
  {
    forall j: nat :: j < |f| && j != k && j != l ==> !Touching(f, j)
  }

  lemma PutTouches(f: seq<Blk>, k: nat, b: Blk)
    requires Ordered(f) && k < |f|
    ensures TouchesOnly(Put(f, k, b), k, k + 1)
  {
    var g := Put(f, k, b);
    forall j: nat | j < |g| && j != k && j != k + 1
      ensures !Touching(g, j)
    {
      assert !Touching(f, if j < k then j else j - 1);
    }
  }

  lemma CoalesceTouches(f: seq<Blk>, k: nat, l: nat)
    requires k < |f| && l < k && TouchesOnly(f, l, k)
    ensures TouchesOnly(Coalesce(f, k), l, l)
  {
    var g := Coalesce(f, k);
    forall j: nat | j < |g| && j != l
      ensures !Touching(g, j)
    {
      if Touching(f, k) {
        assert j + 1 < |f| ==> !Touching(f, if j < k then j else j + 1);
      } else {
        assert j != k ==> !Touching(f, j);
      }
    }
  }

  lemma LastCoalesce(f: seq<Blk>, k: nat)
    requires k < |f| && TouchesOnly(f, k, k) && Sorted(f) && (k == 0 ==> !Touching(f, k))
    ensures Ordered(Coalesce(f, k))
  {
    if Touching(f, k) {
      JoinSorted(f, k);
      forall j: nat | j < |f| - 1 ensures !Touching(Join(f, k), j) { assert !Touching(f, if j < k then j else j + 1); }
    }
  }

  /** Inserting keeps the order and leaves nothing touching. */
  lemma InsertOrdered(f: seq<Blk>, k: nat, b: Blk)
    requires Ordered(f) && Behind(f, k, b)
    ensures Ordered(Insert(f, k, b))
  {
    var g := Put(f, k, b);
    PutSorted(f, k, b);
    PutTouches(f, k, b);
    if Touching(g, k + 1) { JoinSorted(g, k + 1); }
    CoalesceTouches(g, k + 1, k);
    LastCoalesce(Coalesce(g, k + 1), k);
  }

  /** The list then covers b's units and what it covered before. */
  lemma InsertCovers(f: seq<Blk>, k: nat, b: Blk, x: nat)
    requires k < |f|
    ensures Covered(Insert(f, k, b), x) <==> Covered(f, x) || In(b, x)
  {
    var g := Put(f, k, b);
    PutCovers(f, k, b, x);
    if Touching(g, k + 1) { JoinCovers(g, k + 1, x); }
    var h := Coalesce(g, k + 1);
    if Touching(h, k) { JoinCovers(h, k, x); }
  }

  // ----- carving ------------------------------------------------------------------------------

  /** malloc(): n units taken from the tail of block k. */
  function Carve(f: seq<Blk>, k: nat, n: nat): (r: seq<Blk>)
    requires 0 < k < |f| && n <= f[k].units
  {
    if f[k].units == n then f[..k] + f[k + 1..] else f[k := Blk(f[k].at, f[k].units - n)]
  }

  function Carved(f: seq<Blk>, k: nat, n: nat): (b: Blk)
    requires 0 < k < |f| && n <= f[k].units
  {
    Blk(End(f[k]) - n, n)
  }

  lemma CarveSorted(f: seq<Blk>, k: nat, n: nat)
    requires Sorted(f) && 0 < k < |f| && 0 < n <= f[k].units
    ensures Sorted(Carve(f, k, n))
  {
    var r := Carve(f, k, n);
    var whole := f[k].units == n;
    forall j: nat | 0 < j < |r| ensures Proper(r, j) { assert Proper(f, if whole && j >= k then j + 1 else j); }
    forall i: nat, j: nat | i < j < |r|
      ensures Apart(r, i, j)
    {
      assert Apart(f, if whole && i >= k then i + 1 else i, if whole && j >= k then j + 1 else j);
    }
  }

  lemma CarveOrdered(f: seq<Blk>, k: nat, n: nat)
    requires Ordered(f) && 0 < k < |f| && 0 < n <= f[k].units
    ensures Ordered(Carve(f, k, n))
  {
    var r := Carve(f, k, n);
    CarveSorted(f, k, n);
    forall j: nat | j < |r|
      ensures !Touching(r, j)
    {
      if f[k].units == n {
        if j + 1 == k {
          assert Apart(f, j, k) && Proper(f, k) && (k + 1 < |f| ==> Apart(f, k, k + 1));
        } else {
          assert !Touching(f, if j < k then j else j + 1);
        }
      } else {
        assert !Touching(f, j);
        assert j == k && k + 1 < |f| ==> Apart(f, k, k + 1);
      }
    }
  }

  /** Where block j of the list is after carving. */
  function Moved(f: seq<Blk>, k: nat, n: nat, j: nat): (r: nat)
    requires k < |f|
  {
    if f[k].units == n && j > k then j - 1 else j
  }

  lemma CarveKeeps(f: seq<Blk>, k: nat, n: nat, j: nat, x: nat)
    requires 0 < k < |f| && 0 < n <= f[k].units && j < |f| && In(f[j], x)
    ensures Covered(Carve(f, k, n), x) || In(Carved(f, k, n), x)
  {
    var r := Carve(f, k, n);
    if j != k {
      assert r[Moved(f, k, n, j)] == f[j];
    } else if !In(Carved(f, k, n), x) {
      assert In(r[k], x);
    }
  }

  lemma CarveAdds(f: seq<Blk>, k: nat, n: nat, j: nat, x: nat)
    requires Sorted(f) && 0 < k < |f| && 0 < n <= f[k].units && j < |Carve(f, k, n)| && In(Carve(f, k, n)[j], x)
    ensures Covered(f, x) && !In(Carved(f, k, n), x)
  {
    var l := if f[k].units == n && j >= k then j + 1 else j;
    assert In(f[l], x);
    if l < k { assert Apart(f, l, k); }
    if l > k { assert Apart(f, k, l); }
  }

  /** What is carved was covered and is no longer; the rest still is. */
  lemma CarveCovers(f: seq<Blk>, k: nat, n: nat, x: nat)
    requires Sorted(f) && 0 < k < |f| && 0 < n <= f[k].units
    ensures Covered(f, x) <==> Covered(Carve(f, k, n), x) || In(Carved(f, k, n), x)
    ensures !(Covered(Carve(f, k, n), x) && In(Carved(f, k, n), x))
  {
    if j: nat :| j < |f| && In(f[j], x) {
      CarveKeeps(f, k, n, j, x);
    }
    if j: nat :| j < |Carve(f, k, n)| && In(Carve(f, k, n)[j], x) {
      CarveAdds(f, k, n, j, x);
    }
    if In(Carved(f, k, n), x) { assert In(f[k], x); }
  }
}

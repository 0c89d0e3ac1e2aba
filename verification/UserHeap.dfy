/** umalloc.c as code over headers in memory: free, morecore and malloc, proved against FreeList.
    Addresses count header-sized units, with the static base header at 0; what sbrk answers is a
    parameter. */
module UserHeap {
  import opened Collections
  import opened FreeList

  // ----- how the list is stored ---------------------------------------------------------------

  /** The block after k on the circle. */
  function NextAt(f: seq<Blk>, k: nat): (r: nat) { if k + 1 < |f| then f[k + 1].at else 0 }

  predicate StoredAt(f: seq<Blk>, ptr: map<nat, nat>, size: map<nat, nat>, k: nat)
    requires k < |f|
  {
    f[k].at in ptr && f[k].at in size && size[f[k].at] == f[k].units && ptr[f[k].at] == NextAt(f, k)
  }

  ghost predicate Stored(f: seq<Blk>, ptr: map<nat, nat>, size: map<nat, nat>)
  {
    forall k: nat :: k < |f| ==> StoredAt(f, ptr, size, k)
  }

  lemma AddressesRise(f: seq<Blk>, j: nat, k: nat)
    requires Sorted(f) && j < k < |f|
    ensures f[j].at < f[k].at
  {
    assert Apart(f, j, k) && Proper(f, k);
    if j > 0 { assert Proper(f, j); }
  }

  lemma Addresses(f: seq<Blk>, j: nat, k: nat)
    requires Sorted(f) && j < |f| && k < |f|
    ensures f[j].at == f[k].at <==> j == k
    ensures f[j].at < f[k].at <==> j < k
  {
    if j < k { AddressesRise(f, j, k); }
    if k < j { AddressesRise(f, k, j); }
  }

  lemma StoredPut(f: seq<Blk>, ptr: map<nat, nat>, size: map<nat, nat>, k: nat, b: Blk)
    requires Sorted(f) && Stored(f, ptr, size) && Behind(f, k, b) && b.at in size && size[b.at] == b.units
    ensures f[k].at in ptr && Stored(Put(f, k, b), ptr[b.at := ptr[f[k].at]][f[k].at := b.at], size)
  {
    assert StoredAt(f, ptr, size, k);
    PutSorted(f, k, b);
    var g, ptr' := Put(f, k, b), ptr[b.at := ptr[f[k].at]][f[k].at := b.at];
    forall j: nat | j < |g|
      ensures StoredAt(g, ptr', size, j)
    {
      Addresses(g, j, k);
      Addresses(g, j, k + 1);
      if j != k + 1 { assert StoredAt(f, ptr, size, if j <= k then j else j - 1); }
    }
  }

  lemma StoredWhole(f: seq<Blk>, ptr: map<nat, nat>, size: map<nat, nat>, k: nat)
    requires Sorted(f) && Stored(f, ptr, size) && 0 < k < |f|
    ensures f[k].at in ptr && Stored(Carve(f, k, f[k].units), ptr[f[k - 1].at := ptr[f[k].at]], size)
  {
    assert StoredAt(f, ptr, size, k) && StoredAt(f, ptr, size, k - 1);
    var g, ptr' := Carve(f, k, f[k].units), ptr[f[k - 1].at := ptr[f[k].at]];
    forall j: nat | j < |g|
      ensures StoredAt(g, ptr', size, j)
    {
      var l := if j < k then j else j + 1;
      assert StoredAt(f, ptr, size, l);
      Addresses(f, l, k - 1);
    }
  }

  lemma StoredTail(f: seq<Blk>, ptr: map<nat, nat>, size: map<nat, nat>, k: nat, n: nat)
    requires Sorted(f) && Stored(f, ptr, size) && 0 < k < |f| && 0 < n < f[k].units
    ensures Stored(Carve(f, k, n), ptr, size[f[k].at := f[k].units - n][Carved(f, k, n).at := n])
  {
    var g, q := Carve(f, k, n), Carved(f, k, n).at;
    var size' := size[f[k].at := f[k].units - n][q := n];
    forall j: nat | j < |g|
      ensures StoredAt(g, ptr, size', j)
    {
      assert StoredAt(f, ptr, size, j);
      Addresses(f, j, k);
      if j < k { assert Apart(f, j, k); }
      if j > k { assert Apart(f, k, j); }
    }
  }

  // ----- live blocks --------------------------------------------------------------------------

  predicate LiveIn(live: map<nat, nat>, a: nat, x: nat) { a in live && a <= x < a + live[a] }

  ghost predicate Live(live: map<nat, nat>, x: nat) { exists a: nat :: LiveIn(live, a, x) }

  /** Free and live blocks tile exactly the areas morecore obtained. */
  ghost predicate Tiled(f: seq<Blk>, live: map<nat, nat>, areas: seq<Blk>, x: nat)
  {
    && (Covered(areas, x) <==> Covered(f, x) || Live(live, x))
    && !(Covered(f, x) && Live(live, x))
  }

  predicate Separate(live: map<nat, nat>, a: nat, c: nat)
    requires a in live && c in live
  {
    a + live[a] <= c || c + live[c] <= a
  }

  ghost predicate HeapOk(f: seq<Blk>, live: map<nat, nat>, areas: seq<Blk>, top: nat)
  {
    && Ordered(f)
    && (forall x: nat :: Tiled(f, live, areas, x))
    && (forall a: nat, c: nat :: a in live && c in live && a != c ==> Separate(live, a, c))
    && (forall a: nat :: a in live ==> 0 < a && 0 < live[a] && a + live[a] <= top)
    && (forall k: nat :: k < |f| ==> End(f[k]) <= top)
  }

  /** A live block lies between two free ones. */
  lemma PlaceFor(f: seq<Blk>, live: map<nat, nat>, areas: seq<Blk>, top: nat, a: nat) returns (k: nat)
    requires HeapOk(f, live, areas, top) && a in live
    ensures Behind(f, k, Blk(a, live[a]))
  {
    k := 0;
    while k + 1 < |f| && f[k + 1].at < a
      invariant k < |f| && f[k].at < a
    {
      k := k + 1;
    }
    var b := Blk(a, live[a]);
    assert Tiled(f, live, areas, a) && LiveIn(live, a, a);
    assert !In(f[k], a);
    if k + 1 < |f| {
      assert Proper(f, k + 1) && In(f[k + 1], f[k + 1].at);
      assert Tiled(f, live, areas, f[k + 1].at);
      assert !LiveIn(live, a, f[k + 1].at);
    }
  }

  /** Only block k is where a belongs. */
  lemma PlaceUnique(f: seq<Blk>, k: nat, b: Blk, i: nat)
    requires Sorted(f) && Behind(f, k, b) && i < |f|
    ensures i <= k ==> f[i].at < b.at
    ensures i > k ==> b.at < f[i].at
  {
    if i <= k {
      if i < k { AddressesRise(f, i, k); }
      if k > 0 { assert Proper(f, k); }
    } else if i > k + 1 {
      AddressesRise(f, k + 1, i);
    }
  }

  lemma LiveNotFree(f: seq<Blk>, live: map<nat, nat>, areas: seq<Blk>, top: nat, a: nat, k: nat)
    requires HeapOk(f, live, areas, top) && a in live && k < |f|
    ensures a != f[k].at
  {
    if k > 0 {
      assert Proper(f, k) && In(f[k], f[k].at) && Tiled(f, live, areas, f[k].at);
      assert LiveIn(live, f[k].at, f[k].at) ==> Live(live, f[k].at);
    }
  }

  // ----- freeing and allocating ---------------------------------------------------------------

  lemma LiveWithout(live: map<nat, nat>, a: nat, x: nat)
    requires a in live && forall c: nat :: c in live && c != a ==> Separate(live, a, c)
    ensures Live(live, x) <==> Live(live - {a}, x) || LiveIn(live, a, x)
    ensures !(Live(live - {a}, x) && LiveIn(live, a, x))
  {
    if c: nat :| LiveIn(live, c, x) {
      if c != a { assert LiveIn(live - {a}, c, x); }
    }
    if c: nat :| LiveIn(live - {a}, c, x) {
      assert LiveIn(live, c, x) && Separate(live, a, c);
    }
  }

  lemma LiveWith(live: map<nat, nat>, a: nat, n: nat, live': map<nat, nat>, x: nat)
    requires a !in live && live' == live[a := n]
    ensures Live(live', x) <==> Live(live, x) || In(Blk(a, n), x)
  {
    if c: nat :| LiveIn(live, c, x) { assert LiveIn(live', c, x); }
    if In(Blk(a, n), x) { assert LiveIn(live', a, x); }
    if c: nat :| LiveIn(live', c, x) { assert c != a ==> LiveIn(live, c, x); }
  }

  lemma {:induction false} InsertBelow(f: seq<Blk>, k: nat, b: Blk, top: nat)
    requires k < |f| && End(b) <= top && forall j: nat :: j < |f| ==> End(f[j]) <= top
    ensures forall j: nat :: j < |Insert(f, k, b)| ==> End(Insert(f, k, b)[j]) <= top
  {
    var g := Put(f, k, b);
    assert forall j: nat :: j < |g| ==> End(g[j]) <= top;
    var h := Coalesce(g, k + 1);
    assert forall j: nat :: j < |h| ==> End(h[j]) <= top;
  }

  /** free() keeps the tiling: the block's units change sides. */
  lemma FreeOk(f: seq<Blk>, live: map<nat, nat>, areas: seq<Blk>, top: nat, a: nat, k: nat)
    requires HeapOk(f, live, areas, top) && a in live && Behind(f, k, Blk(a, live[a]))
    ensures HeapOk(Insert(f, k, Blk(a, live[a])), live - {a}, areas, top)
  {
    var b, g := Blk(a, live[a]), Insert(f, k, Blk(a, live[a]));
    InsertOrdered(f, k, b);
    InsertBelow(f, k, b, top);
    forall x: nat
      ensures Tiled(g, live - {a}, areas, x)
    {
      assert Tiled(f, live, areas, x);
      InsertCovers(f, k, b, x);
      LiveWithout(live, a, x);
    }
    forall c: nat, d: nat | c in live - {a} && d in live - {a}
      && c != d ensures Separate(live - {a}, c, d) { assert Separate(live, c, d); }
  }

  /** malloc() keeps it too: the carved units become a new live block. */
  lemma CarveOk(f: seq<Blk>, live: map<nat, nat>, areas: seq<Blk>, top: nat, k: nat, n: nat)
    requires HeapOk(f, live, areas, top) && 0 < k < |f| && 0 < n <= f[k].units
    ensures var q := Carved(f, k, n).at;
            q !in live && HeapOk(Carve(f, k, n), live[q := n], areas, top)
  {
    var b, g := Carved(f, k, n), Carve(f, k, n);
    var live' := live[b.at := n];
    CarveOrdered(f, k, n);
    assert Proper(f, k) && In(f[k], b.at) && Covered(f, b.at) && Tiled(f, live, areas, b.at);
    assert LiveIn(live, b.at, b.at) ==> Live(live, b.at);
    forall x: nat
      ensures Tiled(g, live', areas, x)
    {
      assert Tiled(f, live, areas, x);
      CarveCovers(f, k, n, x);
      LiveWith(live, b.at, n, live', x);
    }
    forall c: nat | c in live
      ensures c + live[c] <= b.at || End(b) <= c
    {
      CarvedApart(f, live, areas, top, k, n, c);
    }
    forall c: nat, d: nat | c in live' && d in live' && c != d
      ensures Separate(live', c, d)
    {
      if c != b.at && d != b.at { assert Separate(live, c, d); }
    }
  }

  lemma CarvedApart(f: seq<Blk>, live: map<nat, nat>, areas: seq<Blk>, top: nat, k: nat, n: nat, c: nat)
    requires HeapOk(f, live, areas, top) && 0 < k < |f| && 0 < n <= f[k].units && c in live
    ensures var b := Carved(f, k, n); c + live[c] <= b.at || End(b) <= c
  {
    var b := Carved(f, k, n);
    var x := if c <= b.at then b.at else c;
    assert Tiled(f, live, areas, x);
    assert In(b, x) ==> In(f[k], x);
    assert LiveIn(live, c, x) ==> Live(live, x);
  }

  /** A new area beyond everything else, as one live block. */
  lemma AreaOk(f: seq<Blk>, live: map<nat, nat>, areas: seq<Blk>, top: nat, p: nat, n: nat)
    requires HeapOk(f, live, areas, top) && p >= top && p > 0 && n > 0
    ensures p !in live && HeapOk(f, live[p := n], areas + [Blk(p, n)], p + n)
  {
    var areas', live' := areas + [Blk(p, n)], live[p := n];
    assert p !in live;
    forall x: nat
      ensures Tiled(f, live', areas', x)
    {
      assert Tiled(f, live, areas, x);
      LiveWith(live, p, n, live', x);
      AreaCovers(areas, Blk(p, n), x);
      if j: nat :| j < |f| && In(f[j], x) { assert End(f[j]) <= top; }
      if a: nat :| LiveIn(live, a, x) { assert a + live[a] <= top; }
    }
    forall c: nat, d: nat | c in live' && d in live' && c != d
      ensures Separate(live', c, d)
    {
      if c != p && d != p { assert Separate(live, c, d); }
    }
  }

  lemma AreaCovers(areas: seq<Blk>, b: Blk, x: nat)
    ensures Covered(areas + [b], x) <==> Covered(areas, x) || In(b, x)
  {
    if j: nat :| j < |areas| && In(areas[j], x) { assert In((areas + [b])[j], x); }
    if In(b, x) { assert In((areas + [b])[|areas|], x); }
  }

  /** The coalesced block is at least as large as what was inserted. */
  lemma InsertBig(f: seq<Blk>, k: nat, b: Blk)
    requires k < |f|
    ensures Fits(Insert(f, k, b), b.units) && InList(Insert(f, k, b), f[k].at)
  {
    var g := Put(f, k, b);
    var h := Coalesce(g, k + 1);
    assert h[k + 1].units >= b.units && h[k].at == f[k].at && Insert(f, k, b)[k].at == f[k].at;
    assert Insert(f, k, b)[if Touching(h, k) then k else k + 1].units >= b.units;
  }

  /** The list is stored but for the link of block k. */
  ghost predicate StoredBut(h: seq<Blk>, ptr: map<nat, nat>, size: map<nat, nat>, k: nat)
  {
    && k < |h| && h[k].at in ptr && h[k].at in size && size[h[k].at] == h[k].units
    && forall j: nat :: j < |h| && j != k ==> StoredAt(h, ptr, size, j)
  }

  /** List f with the block at bp behind block k, which does not point to it yet. */
  ghost predicate HalfLinked(f: seq<Blk>, h: seq<Blk>, ptr: map<nat, nat>, size: map<nat, nat>, k: nat, bp: nat)
  {
    Sorted(h) && StoredBut(h, ptr, size, k) && k < |f| && k + 1 < |h| && h[k] == f[k] && h[k + 1].at == bp
  }

  /** free()'s first test, both ways: b joined with the block above it, or linked to it. */
  lemma UpperLink(f: seq<Blk>, ptr: map<nat, nat>, size: map<nat, nat>, k: nat, b: Blk, h: seq<Blk>)
    requires Sorted(f) && Stored(f, ptr, size) && Behind(f, k, b) && b.at in size && size[b.at] == b.units
    requires (k + 1 < |f| ==> End(b) != f[k + 1].at) && h == Coalesce(Put(f, k, b), k + 1)
    ensures f[k].at in ptr && HalfLinked(f, h, ptr[b.at := ptr[f[k].at]], size, k, b.at)
  {
    StoredPut(f, ptr, size, k, b);
    assert StoredAt(f, ptr, size, k);
    PutSorted(f, k, b);
    var g, ptr' := Put(f, k, b), ptr[b.at := ptr[f[k].at]];
    forall j: nat | j < |g| && j != k
      ensures StoredAt(g, ptr', size, j)
    {
      Addresses(g, j, k);
      assert StoredAt(g, ptr'[f[k].at := b.at], size, j);
    }
    Addresses(g, k, k + 1);
  }

  lemma UpperJoin(f: seq<Blk>, ptr: map<nat, nat>, size: map<nat, nat>, k: nat, b: Blk, h: seq<Blk>)
    requires Sorted(f) && Stored(f, ptr, size) && Behind(f, k, b) && b.at in size && size[b.at] == b.units
    requires k + 1 < |f| && End(b) == f[k + 1].at && h == Coalesce(Put(f, k, b), k + 1)
    ensures f[k + 1].at in ptr && f[k + 1].at in size
    ensures HalfLinked(f, h, ptr[b.at := ptr[f[k + 1].at]], size[b.at := size[b.at] + size[f[k + 1].at]], k, b.at)
  {
    var g := Put(f, k, b);
    PutSorted(f, k, b);
    assert StoredAt(f, ptr, size, k) && StoredAt(f, ptr, size, k + 1);
    JoinSorted(g, k + 1);
    var ptr', size' := ptr[b.at := ptr[f[k + 1].at]], size[b.at := size[b.at] + size[f[k + 1].at]];
    forall j: nat | j < |h| && j != k
      ensures StoredAt(h, ptr', size', j)
    {
      if j != k + 1 {
        assert StoredAt(f, ptr, size, j);
        Addresses(g, if j < k then j else j + 1, k + 1);
      }
    }
    Addresses(g, k, k + 1);
  }

  /** Its second test, both ways. */
  lemma LowerLink(h: seq<Blk>, ptr: map<nat, nat>, size: map<nat, nat>, k: nat)
    requires Sorted(h) && StoredBut(h, ptr, size, k) && k + 1 < |h|
    ensures Stored(h, ptr[h[k].at := h[k + 1].at], size)
  {
    var ptr' := ptr[h[k].at := h[k + 1].at];
    forall j: nat | j < |h|
      ensures StoredAt(h, ptr', size, j)
    {
      Addresses(h, j, k);
      if j != k { assert StoredAt(h, ptr, size, j); }
    }
  }

  lemma LowerJoin(h: seq<Blk>, ptr: map<nat, nat>, size: map<nat, nat>, k: nat)
    requires Sorted(h) && StoredBut(h, ptr, size, k) && Touching(h, k)
    ensures h[k + 1].at in ptr && h[k + 1].at in size
    ensures Stored(Join(h, k), ptr[h[k].at := ptr[h[k + 1].at]], size[h[k].at := size[h[k].at] + size[h[k + 1].at]])
  {
    assert StoredAt(h, ptr, size, k + 1);
    var g := Join(h, k);
    var ptr', size' := ptr[h[k].at := ptr[h[k + 1].at]], size[h[k].at := size[h[k].at] + size[h[k + 1].at]];
    forall j: nat | j < |g|
      ensures StoredAt(g, ptr', size', j)
    {
      var l := if j <= k then j else j + 1;
      Addresses(h, l, k);
      if l != k { assert StoredAt(h, ptr, size, l); }
    }
  }

  // ----- the allocator ------------------------------------------------------------------------

  /** nunits for a request, with the 32-bit sum of the source. */
  function Units(nbytes: nat): (n: nat)
    ensures n > 0
  {
    (nbytes + 7) % 0x1_0000_0000 / 8 + 1
  }

  /** The units hold a header and the bytes asked for unless the sum overflows. */
  lemma UnitsSuffice(nbytes: nat)
    requires nbytes < 0x1_0000_0000
    ensures 8 * (Units(nbytes) - 1) >= nbytes <==> nbytes <= 0xFFFF_FFF8
  {
    if nbytes > 0xFFFF_FFF8 { assert (nbytes + 7) % 0x1_0000_0000 == nbytes + 7 - 0x1_0000_0000; }
  }

  const USER_LIMIT := 0x8000_0000      // KERNBASE

  /** The units morecore() asks for. */
  function AreaUnits(nu: nat): (n: nat) { if nu < 4096 then 4096 else nu }

  /** nu * sizeof(Header) as sbrk() sees it: 32 bits, signed. */
  function SbrkArgument(nu: nat): (n: int)
  {
    var x := 8 * AreaUnits(nu) % 0x1_0000_0000;
    if x < 0x8000_0000 then x else x - 0x1_0000_0000
  }

  /** The size that growproc(n) gives a process of sz bytes, None being -1; memory says whether allocuvm
      finds the pages. */
  function Growproc(sz: nat, n: int, memory: bool): (r: Option<nat>)
  {
    var target := (sz + n) % 0x1_0000_0000;
    if n > 0 then
      if target >= USER_LIMIT then None
      else if target < sz then Some(sz)
      else if memory then Some(target)
      else None
    else if n < 0 then
      var kept := if target >= sz then sz else target;
      if kept == 0 then None else Some(kept)
    else Some(sz)
  }

  /** When sbrk does not refuse, morecore() got the area it goes on to use if and only if that is below
      2^31 bytes: beyond, the argument is negative or 0, and the process does not grow. */
  lemma SbrkGrows(sz: nat, nbytes: nat, memory: bool)
    requires sz < USER_LIMIT && nbytes < 0x1_0000_0000
    requires Growproc(sz, SbrkArgument(Units(nbytes)), memory).Some?
    ensures Growproc(sz, SbrkArgument(Units(nbytes)), memory).value >= sz + 8 * AreaUnits(Units(nbytes))
            <==> 8 * Units(nbytes) < 0x8000_0000
  {
    var x := 8 * AreaUnits(Units(nbytes));
    assert x <= 0x1_0000_0000;
    if x < 0x8000_0000 {
      assert (sz + x) % 0x1_0000_0000 == sz + x;
    } else if x < 0x1_0000_0000 {
      assert sz + x < 0x1_0000_0000 ==> (sz + (x - 0x1_0000_0000)) % 0x1_0000_0000 == sz + x;
    }
  }

  /** malloc of half the address space, in a process of one page: sbrk answers as if it had grown. */
  lemma HugeRequest()
    ensures Growproc(4096, SbrkArgument(Units(0x8000_0000)), false) == Some(4096)
  {
    assert SbrkArgument(Units(0x8000_0000)) == 8 - 0x8000_0000;
    assert (4096 + (8 - 0x8000_0000)) % 0x1_0000_0000 == 0x8000_0000 + 4104;
  }

  /** The two exit conditions of free()'s search hold at block k and nowhere else. */
  lemma CircleAt(f: seq<Blk>, k: nat, b: Blk, i: nat)
    requires Sorted(f) && Behind(f, k, b) && i < |f|
    ensures b.at > f[i].at && b.at < NextAt(f, i) ==> i == k
    ensures f[i].at >= NextAt(f, i) <==> i + 1 == |f|
    ensures f[i].at >= NextAt(f, i) && (b.at > f[i].at || b.at < NextAt(f, i)) ==> i == k
    ensures i == k ==> b.at > f[i].at && (b.at < NextAt(f, i) || i + 1 == |f|)
  {
    PlaceUnique(f, k, b, i);
    if i + 1 < |f| {
      PlaceUnique(f, k, b, i + 1);
      AddressesRise(f, i, i + 1);
    }
  }

  /** Block t is among those a search that began behind block j and stands at block i has passed. */
  predicate Passed(j: nat, i: nat, t: nat) { if i > j then j < t < i else t > j || t < i }

  /** None of the blocks passed between j and k has n units. */
  predicate FirstFrom(f: seq<Blk>, j: nat, k: nat, n: nat)
  {
    forall t :: 0 <= t < |f| && Passed(j, k, t) ==> f[t].units < n
  }

  function Onward(f: seq<Blk>, k: nat): (r: nat) { if k + 1 < |f| then k + 1 else 0 }

  function Backward(f: seq<Blk>, k: nat): (r: int) { if k == 0 then |f| - 1 else k - 1 }

  /** How far a search from behind block j that stands at block k still is from the end of its lap. */
  function ToGo(f: seq<Blk>, j: nat, k: nat): (r: int) { if k > j then |f| - k + j else j - k }

  lemma LapBegins(f: seq<Blk>, j: nat, n: nat)
    requires j < |f|
    ensures Onward(f, j) < |f| && Backward(f, Onward(f, j)) == j && FirstFrom(f, j, Onward(f, j), n)
  {
  }

  lemma LapGoesOn(f: seq<Blk>, j: nat, k: nat, n: nat)
    requires j < |f| && k < |f| && k != j && FirstFrom(f, j, k, n) && f[k].units < n
    ensures Onward(f, k) < |f| && Backward(f, Onward(f, k)) == k && FirstFrom(f, j, Onward(f, k), n)
    ensures 0 <= ToGo(f, j, Onward(f, k)) < ToGo(f, j, k)
  {
  }

  ghost predicate InList(f: seq<Blk>, at: nat) { exists k: nat :: k < |f| && f[k].at == at }

  /** Some block has n units. */
  ghost predicate Fits(f: seq<Blk>, n: nat) { exists k: nat :: k < |f| && f[k].units >= n }

  lemma NothingFits(n: nat)
    requires n > 0
    ensures !Fits([], n) && !Fits([Blk(0, 0)], n)
  {
  }

  lemma FitsLess(f: seq<Blk>, n: nat, m: nat)
    requires Fits(f, n) && m <= n
    ensures Fits(f, m)
  {
    var k: nat :| k < |f| && f[k].units >= n;
    assert f[k].units >= m;
  }

  /** What freeing block a means for the blocks. */
  lemma Freed(f: seq<Blk>, live: map<nat, nat>, areas: seq<Blk>, top: nat, a: nat, k: nat)
    requires HeapOk(f, live, areas, top) && a in live && Behind(f, k, Blk(a, live[a]))
    ensures HeapOk(Insert(f, k, Blk(a, live[a])), live - {a}, areas, top)
    ensures InList(Insert(f, k, Blk(a, live[a])), f[k].at) && f[k].at !in live
  {
    if f[k].at in live { LiveNotFree(f, live, areas, top, f[k].at, k); }
    FreeOk(f, live, areas, top, a, k);
    InsertBig(f, k, Blk(a, live[a]));
  }

  /** What a stored list's headers say of block k. */
  lemma ReadHeader(f: seq<Blk>, ptr: map<nat, nat>, size: map<nat, nat>, k: nat)
    requires Stored(f, ptr, size) && k < |f| && f[0].at == 0
    ensures f[k].at in ptr && f[k].at in size && size[f[k].at] == f[k].units
    ensures Onward(f, k) < |f| && ptr[f[k].at] == f[Onward(f, k)].at
  {
    assert StoredAt(f, ptr, size, k);
  }

  lemma LapOver(f: seq<Blk>, j: nat, n: nat)
    requires j < |f| && FirstFrom(f, j, j, n) && f[j].units < n
    ensures !Fits(f, n)
  {
    forall k: nat | k < |f| ensures f[k].units < n { assert k != j ==> Passed(j, j, k); }
  }

  class Allocator {
    var ptr: map<nat, nat>
    var size: map<nat, nat>
    var freep: Option<nat>
    ghost var free: seq<Blk>
    ghost var live: map<nat, nat>
    ghost var areas: seq<Blk>
    ghost var top: nat

    constructor ()
      ensures Valid() && freep == None && live == map[] && areas == []
    {
      ptr, size, freep := map[], map[], None;
      free, live, areas, top := [], map[], [], 1;
    }

    ghost predicate Valid()
      reads this
    {
      if freep == None then free == [] && live == map[] && areas == []
      else
        && HeapOk(free, live, areas, top) && Stored(free, ptr, size)
        && (forall a: nat :: a in live ==> a in size && size[a] == live[a])
        && InList(free, freep.value)
    }

    /** free(): find the place by walking the circle from freep, then link and coalesce. */
    method Free(ap: nat) returns (ghost k: nat)
      requires Valid() && freep.Some? && ap > 0 && ap - 1 in live
      modifies this
      ensures Valid() && freep.Some? && live == old(live) - {ap - 1} && areas == old(areas) && top == old(top)
      ensures Behind(old(free), k, Blk(ap - 1, old(live)[ap - 1])) && freep == Some(old(free)[k].at)
      ensures free == Insert(old(free), k, Blk(ap - 1, old(live)[ap - 1]))
    {
      var bp := ap - 1;
      ghost var b := Blk(bp, live[bp]);
      k := PlaceFor(free, live, areas, top, bp);
      ghost var i: nat :| i < |free| && free[i].at == freep.value;
      var p := freep.value;
      assert StoredAt(free, ptr, size, i);
      while true
        invariant i < |free| && p == free[i].at && StoredAt(free, ptr, size, i)
        modifies {}
        decreases if i <= k then k - i else |free| - i + k
      {
        CircleAt(free, k, b, i);
        if bp > p && bp < ptr[p] {
          assert i == k;
          break;
        }
        if p >= ptr[p] && (bp > p || bp < ptr[p]) {
          assert i == k;
          break;
        }
        p := ptr[p];
        i := if i + 1 < |free| then i + 1 else 0;
        assert StoredAt(free, ptr, size, i);
      }
      Relink(p, bp, k);
    }

    /** Headers of live blocks other than bp and of free block p's size are as given. */
    ghost predicate LiveSizes(bp: nat)
      reads this
    {
      forall a: nat :: a in live && a != bp ==> a in size && size[a] == live[a]
    }

    /** free()'s first test once p, block k, is found. */
    method LinkUp(p: nat, bp: nat, ghost k: nat)
      requires Sorted(free) && Stored(free, ptr, size) && bp in live && bp in size && size[bp] == live[bp]
      requires Behind(free, k, Blk(bp, live[bp])) && p == free[k].at && LiveSizes(bp)
      modifies this`ptr, this`size
      ensures var h := Coalesce(Put(free, k, Blk(bp, live[bp])), k + 1);
              HalfLinked(free, h, ptr, size, k, bp)
      ensures LiveSizes(bp)
    {
      ghost var f, b := free, Blk(bp, live[bp]);
      ghost var h := Coalesce(Put(f, k, b), k + 1);
      assert StoredAt(f, ptr, size, k);
      if bp + size[bp] == ptr[p] {
        UpperJoin(f, ptr, size, k, b, h);
        size, ptr := size[bp := size[bp] + size[ptr[p]]], ptr[bp := ptr[ptr[p]]];
      } else {
        UpperLink(f, ptr, size, k, b, h);
        ptr := ptr[bp := ptr[p]];
      }
    }

    /** Its second test. */
    method LinkDown(p: nat, bp: nat, ghost h: seq<Blk>, ghost k: nat)
      requires Sorted(h) && StoredBut(h, ptr, size, k) && k + 1 < |h| && h[k].at == p && h[k + 1].at == bp
      requires LiveSizes(bp) && p !in live
      modifies this`ptr, this`size
      ensures Stored(Coalesce(h, k), ptr, size) && LiveSizes(bp)
    {
      assert StoredAt(h, ptr, size, k + 1);
      if p + size[p] == bp {
        LowerJoin(h, ptr, size, k);
        size, ptr := size[p := size[p] + size[bp]], ptr[p := ptr[bp]];
      } else {
        LowerLink(h, ptr, size, k);
        ptr := ptr[p := bp];
      }
    }

    /** Both tests of free(). */
    method LinkBoth(p: nat, bp: nat, ghost k: nat)
      requires Sorted(free) && Stored(free, ptr, size) && bp in live && bp in size && size[bp] == live[bp]
      requires Behind(free, k, Blk(bp, live[bp])) && p == free[k].at && p !in live && LiveSizes(bp)
      modifies this`ptr, this`size
      ensures Stored(Insert(free, k, Blk(bp, live[bp])), ptr, size) && LiveSizes(bp)
    {
      ghost var h := Coalesce(Put(free, k, Blk(bp, live[bp])), k + 1);
      LinkUp(p, bp, k);
      LinkDown(p, bp, h, k);
    }

    /** The assignments of free() once p, block k, is found. */
    method Relink(p: nat, bp: nat, ghost k: nat)
      requires Valid() && freep.Some? && bp in live && Behind(free, k, Blk(bp, live[bp])) && p == free[k].at
      modifies this
      ensures Valid() && freep == Some(p) && live == old(live) - {bp} && areas == old(areas) && top == old(top)
      ensures free == Insert(old(free), k, Blk(bp, old(live)[bp]))
    {
      ghost var f, b := free, Blk(bp, live[bp]);
      Freed(f, live, areas, top, bp, k);
      LinkBoth(p, bp, k);
      freep := Some(p);
      free := Insert(f, k, b);
      live := live - {bp};
    }

    /** morecore(): at least 4096 units from sbrk, whose answer is brk, freed into the list. */
    method Morecore(nu: nat, brk: Option<nat>) returns (r: Option<nat>)
      requires Valid() && freep.Some? && nu > 0 && (brk.Some? ==> brk.value >= top && brk.value > 0)
      modifies this
      ensures Valid() && freep.Some? && live == old(live)
      ensures brk == None ==> r == None && freep == old(freep) && free == old(free) && areas == old(areas)
      ensures brk.Some? ==> r == freep && Fits(free, nu) && areas == old(areas) + [Blk(brk.value, AreaUnits(nu))]
    {
      var n := if nu < 4096 then 4096 else nu;
      if brk == None {
        return None;
      }
      var hp := brk.value;
      ghost var f, b, was := free, Blk(hp, n), live;
      AreaOk(f, live, areas, top, hp, n);
      forall k: nat | k < |f| ensures f[k].at != hp { assert End(f[k]) <= top; if k > 0 { assert Proper(f, k); } }
      size := size[hp := n];
      live, areas, top := live[hp := n], areas + [b], hp + n;
      forall k: nat | k < |f| ensures StoredAt(f, ptr, size, k) { assert StoredAt(f, ptr, old(size), k); }
      ghost var k := Free(hp + 1);
      assert live == was;
      InsertBig(f, k, b);
      FitsLess(free, n, nu);
      return freep;
    }

    /** malloc()'s answer from block k at p, which is large enough; prevp is before it. */
    method Take(prevp: nat, p: nat, ghost k: nat, n: nat) returns (q: nat)
      requires Valid() && freep.Some? && 0 < k < |free| && p == free[k].at && prevp == free[k - 1].at
      requires 0 < n <= free[k].units
      modifies this
      ensures Valid() && freep == Some(prevp) && q !in old(live) && live == old(live)[q := n] && areas == old(areas)
      ensures free == Carve(old(free), k, n) && q == Carved(old(free), k, n).at
    {
      ghost var f := free;
      assert StoredAt(f, ptr, size, k) && StoredAt(f, ptr, size, k - 1);
      CarveOk(f, live, areas, top, k, n);
      forall a: nat | a in live ensures a != p { LiveNotFree(f, live, areas, top, a, k); }
      q := p;
      if size[p] == n {
        StoredWhole(f, ptr, size, k);
        ptr := ptr[prevp := ptr[p]];
      } else {
        StoredTail(f, ptr, size, k, n);
        size := size[p := size[p] - n];
        q := p + size[p];
        size := size[q := n];
      }
      freep := Some(prevp);
      free := Carve(f, k, n);
      live := live[q := n];
      assert free[k - 1].at == prevp && InList(free, prevp);
    }

    /** The first call's initialisation: a circle of the empty base block alone. */
    method Init()
      requires Valid() && freep == None
      modifies this
      ensures Valid() && freep == Some(0) && free == [Blk(0, 0)] && live == old(live) && areas == old(areas) && top == 1
    {
      ptr, size := ptr[0 := 0], size[0 := 0];
      freep := Some(0);
      free, top := [Blk(0, 0)], 1;
      forall x: nat ensures Tiled(free, live, areas, x) {}
      assert StoredAt(free, ptr, size, 0);
      assert free[0].at == 0 && InList(free, 0);
    }

    /** malloc()'s loop for one lap: from the block behind freep to the first that fits, or back to
        freep without one. */
    method Search(nunits: nat) returns (found: bool, prevp: nat, p: nat, ghost k: nat)
      requires Valid() && freep.Some? && nunits > 0
      ensures found <==> Fits(free, nunits)
      ensures found ==> 0 < k < |free| && p == free[k].at && prevp == free[k - 1].at && free[k].units >= nunits
      ensures found ==> exists j: nat :: j < |free| && free[j].at == freep.value && FirstFrom(free, j, k, nunits)
    {
      ghost var j: nat :| j < |free| && free[j].at == freep.value;
      found, prevp, p, k := Lap(nunits, j);
    }

    method Lap(nunits: nat, ghost j: nat) returns (found: bool, prevp: nat, p: nat, ghost k: nat)
      requires Sorted(free) && Stored(free, ptr, size) && nunits > 0 && freep.Some? && j < |free|
      requires free[j].at == freep.value
      ensures found <==> Fits(free, nunits)
      ensures found ==> 0 < k < |free| && p == free[k].at && prevp == free[k - 1].at && free[k].units >= nunits
      ensures found ==> FirstFrom(free, j, k, nunits)
    {
      prevp := freep.value;
      ReadHeader(free, ptr, size, j);
      p := ptr[prevp];
      k := Onward(free, j);
      LapBegins(free, j, nunits);
      while true
        invariant k < |free| && p == free[k].at && prevp == free[Backward(free, k)].at && FirstFrom(free, j, k, nunits)
        decreases ToGo(free, j, k)
      {
        ReadHeader(free, ptr, size, k);
        if size[p] >= nunits {
          return true, prevp, p, k;
        }
        Addresses(free, k, j);
        if p == freep.value {
          LapOver(free, j, nunits);
          return false, prevp, p, k;
        }
        LapGoesOn(free, j, k, nunits);
        prevp := p;
        p := ptr[p];
        k := Onward(free, k);
      }
    }

    /** malloc() once it knows how many units it needs. */
    method Allocate(nunits: nat, brk: Option<nat>) returns (r: Option<nat>, asked: nat)
      requires Valid() && nunits > 0 && (!Fits(free, nunits) && brk.Some? ==> brk.value >= top && brk.value > 0)
      modifies this
      ensures Valid() && freep.Some? && asked == if Fits(old(free), nunits) then 0 else 1
      ensures r == None <==> asked == 1 && brk == None
      ensures r == None ==> live == old(live) && areas == old(areas)
      ensures r.Some? ==> r.value > 0 && r.value - 1 !in old(live) && live == old(live)[r.value - 1 := nunits]
      ensures r.Some? ==> areas == old(areas) + if asked == 0 then [] else [Blk(brk.value, AreaUnits(nunits))]
    {
      asked := 0;
      if freep == None {
        NothingFits(nunits);
        Init();
      }
      var found, prevp, p;
      ghost var k;
      found, prevp, p, k := Search(nunits);
      if !found {
        asked := 1;
        var m := Morecore(nunits, brk);
        if m == None {
          return None, asked;
        }
        found, prevp, p, k := Search(nunits);      // the loop goes on from the new freep
      }
      var q := Take(prevp, p, k, nunits);
      return Some(q + 1), asked;
    }

    /** malloc(): first fit from freep on. The new block is apart from every live one; sbrk is asked
        only when no block fits, and at most once; None means it was asked and refused. */
    method Malloc(nbytes: nat, brk: Option<nat>) returns (r: Option<nat>, asked: nat)
      requires Valid() && nbytes < 0x1_0000_0000
      requires !Fits(free, Units(nbytes)) && brk.Some? ==>
               brk.value >= top && brk.value > 0 && 8 * Units(nbytes) < 0x8000_0000
      modifies this
      ensures Valid() && freep.Some? && asked == if Fits(old(free), Units(nbytes)) then 0 else 1
      ensures r == None <==> asked == 1 && brk == None
      ensures r == None ==> live == old(live) && areas == old(areas)
      ensures r.Some? ==> r.value > 0 && r.value - 1 !in old(live) && live == old(live)[r.value - 1 := Units(nbytes)]
      ensures r.Some? ==> areas == old(areas) + if asked == 0 then [] else [Blk(brk.value, AreaUnits(Units(nbytes)))]
    {
      var nunits := Units(nbytes);
      r, asked := Allocate(nunits, brk);
    }
  }
}

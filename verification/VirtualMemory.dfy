/** kalloc.c, and walkpgdir, deallocuvm and freevm of vm.c, as code over physical pages: the
    allocator, page-table walks, and shrinking and freeing address spaces, proved against PageTables. */
module VirtualMemory {
  import opened Collections
  import opened Layout
  import opened PageTables

  /** A frame's role is part of address space d. */
  predicate BelongsTo(role: Role, f: nat, d: nat)
  {
    (role == Dir && f == d) || (role.Table? && role.d == d) || (role.User? && role.d == d)
  }

  /** From m to m', frames other than f keep their role or went from the free list to d's tables. */
  ghost predicate OnlyTables(m: Mem, m': Mem, d: nat, f: nat)
  {
    && Shaped(m) && Shaped(m')
    && (forall g :: 0 <= g < NFRAMES && g != f ==>
          m'.owner[g] == m.owner[g] || (m.owner[g] == Free && m'.owner[g].Table? && m'.owner[g].d == d))
  }

  /** Maps of all directories agree except for page v of d. */
  ghost predicate MapsExcept(m: Mem, m': Mem, d: nat, v: nat)
  {
    && Shaped(m) && Shaped(m')
    && (forall c: nat, u: nat :: c < NFRAMES && IsDir(m, c) && (c, u) != (d, v) ==> Pte(m', c, u) == Pte(m, c, u))
  }

  /** Contents of user and held pages are as they were. */
  ghost predicate SameData(m: Mem, m': Mem)
  {
    && Shaped(m) && Shaped(m')
    && forall f :: 0 <= f < NFRAMES && (m.owner[f].User? || m.owner[f] == Held) ==> m'.pages[f] == m.pages[f]
  }

  /** A new table is one absent entry less. */
  lemma TableCounted(p: Page, k: nat, w: Uint)
    requires k < NENTRIES && !Present(p[k]) && Present(w)
    ensures DirGrown(p, p[k := w], k, k + 1)
    ensures Absent(p[k := w], 0, NENTRIES) == Absent(p, 0, NENTRIES) - 1
  {
    AbsentGrown(p, p[k := w], k, k + 1);
    assert Absent(p, k + 1, k + 1) == 0;
  }

  /** Zeroing a popped frame and installing it as a table. */
  lemma WalkAllocates(m: Mem, d: nat, v: nat)
    requires Inv(m) && IsDir(m, d) && v < NENTRIES * NENTRIES && !HasTable(m, d, v) && m.freelist.Some?
    ensures var f := m.freelist.value;
            && m.free != [] && f < NFRAMES && m.owner[f] == Free && f != d
            && var m' := NewTable(SetPage(Pop(m), f, Filled(1024, 0)), d, v / NENTRIES, f);
               && Inv(m') && SameMaps(m, m') && IsDir(m', d) && HasTable(m', d, v) && OnlyTables(m, m', d, NFRAMES)
               && SameData(m, m')
               && Spare(m', d) == Spare(m, d) && DirGrown(m.pages[d], m'.pages[d], v / NENTRIES, v / NENTRIES + 1)
  {
    PopInv(m);
    var f := m.freelist.value;
    EntryParts(f, 7);
    TableCounted(m.pages[d], v / NENTRIES, MakeEntry(f, 7));
    var m1 := Pop(m);
    SetPageInv(m1, f, Filled(1024, 0));
    var m2 := SetPage(m1, f, Filled(1024, 0));
    NewTableMaps(m2, d, v / NENTRIES, f);
    NewTableInv(m2, d, v / NENTRIES, f);
    var m' := NewTable(m2, d, v / NENTRIES, f);
    forall c: nat, u: nat | c < NFRAMES && IsDir(m, c)
      ensures Pte(m', c, u) == Pte(m, c, u)
    {
      assert IsDir(m1, c) && IsDir(m2, c);
      assert Pte(m1, c, u) == Pte(m, c, u) && Pte(m2, c, u) == Pte(m1, c, u);
    }
  }

  /** From m to m', frame f became free and page v of d lost it; nothing else changed. */
  ghost predicate Unmapped(m: Mem, m': Mem, d: nat, v: nat, f: nat)
  {
    && MapsExcept(m, m', d, v) && Pte(m', d, v) == 0
    && f < NFRAMES && m'.owner == m.owner[f := Free]
    && (forall g :: 0 <= g < NFRAMES && g != f && (m.owner[g].User? || m.owner[g] == Held) ==>
       m'.pages[g] == m.pages[g])
  }

  /** deallocuvm's step for a present page: kfree, then clear the entry. */
  lemma UnmapInv(m: Mem, d: nat, v: nat)
    requires Inv(m) && IsDir(m, d) && v < USER_PAGES && Present(Pte(m, d, v))
    ensures var f := FrameOf(Pte(m, d, v));
            && f < NFRAMES && m.owner[f] == User(d, v) && HasTable(m, d, v) && TableOf(m, d, v) < NFRAMES
            && TableOf(m, d, v) != f && f != d
            && var m' := SetPage(Push(m, f), TableOf(m, d, v), m.pages[TableOf(m, d, v)][v % NENTRIES := 0]);
               Inv(m') && IsDir(m', d) && Unmapped(m, m', d, v, f)
  {
    UnhangInv(m, d, v);
    TableRole(m, d, v);
    SetPteMaps(m, d, v, 0);
    var f, t := FrameOf(Pte(m, d, v)), TableOf(m, d, v);
    var mid := Remap(m, d, v, 0, f, Held);
    PushInv(mid, f);
    var m' := SetPage(Push(m, f), t, m.pages[t][v % NENTRIES := 0]);
    assert m'.pages == Push(mid, f).pages && m'.owner == Push(mid, f).owner;
    assert m' == Push(mid, f);
    forall c: nat, u: nat | c < NFRAMES && IsDir(m, c)
      ensures Pte(m', c, u) == if (c, u) == (d, v) then 0 else Pte(m, c, u)
    {
      assert IsDir(mid, c) && Pte(m', c, u) == Pte(mid, c, u) == Pte(SetPte(m, d, v, 0), c, u);
    }
  }

  /** User pages lo to hi of d are gone and their frames free; nothing else changed. */
  ghost predicate Shrunk(m: Mem, m': Mem, d: nat, lo: nat, hi: nat)
  {
    && Shaped(m) && Shaped(m')
    && (forall c: nat, u: nat :: c < NFRAMES && IsDir(m, c) ==>
          Pte(m', c, u) == if c == d && lo <= u < hi && Present(Pte(m, c, u)) then 0 else Pte(m, c, u))
    && (forall g :: 0 <= g < NFRAMES ==>
          m'.owner[g] == if m.owner[g].User? && m.owner[g].d == d && lo <= m.owner[g].v < hi then Free else m.owner[g])
    && (forall g :: 0 <= g < NFRAMES && m'.owner[g] == m.owner[g] && (m.owner[g].User? || m.owner[g] == Held) ==>
       m'.pages[g] == m.pages[g])
  }

  lemma ShrunkMore(m: Mem, mid: Mem, m': Mem, d: nat, lo: nat, v: nat, f: nat)
    requires Inv(m) && IsDir(m, d) && lo <= v < USER_PAGES && Shrunk(m, mid, d, lo, v) && Unmapped(mid, m', d, v, f)
    requires Present(Pte(mid, d, v)) && mid.owner[f] == User(d, v) && f == FrameOf(Pte(mid, d, v))
    ensures Shrunk(m, m', d, lo, v + 1)
  {
    forall c: nat, u: nat | c < NFRAMES && IsDir(m, c)
      ensures Pte(m', c, u) == if c == d && lo <= u < v + 1 && Present(Pte(m, c, u)) then 0 else Pte(m, c, u)
    {
      assert IsDir(mid, c);
    }
    forall g: nat | g < NFRAMES
      ensures m'.owner[g] == if m.owner[g].User? && m.owner[g].d == d
              && lo <= m.owner[g].v < v + 1 then Free else m.owner[g]
    {
      assert Hangs(m, g);
    }
  }

  /** Where page v of d is absent there is nothing to do. */
  lemma ShrunkSkip(m: Mem, m': Mem, d: nat, lo: nat, v: nat, next: nat)
    requires Inv(m) && IsDir(m, d) && lo <= v <= next <= USER_PAGES && Shrunk(m, m', d, lo, v)
    requires forall u: nat :: v <= u < next ==> !Present(Pte(m', d, u))
    ensures Shrunk(m, m', d, lo, next)
  {
    forall u: nat | v <= u < next ensures !Present(Pte(m, d, u)) { assert Pte(m', d, u) == Pte(m, d, u); }
    forall g: nat | g < NFRAMES
      ensures m'.owner[g] == if m.owner[g].User? && m.owner[g].d == d
              && lo <= m.owner[g].v < next then Free else m.owner[g]
    {
      assert Hangs(m, g);
    }
  }

  /** Without a table, all the pages it would hold are absent: the jump over them. */
  lemma ShrunkJump(m: Mem, m': Mem, d: nat, lo: nat, v: nat, hi: nat)
    requires Inv(m) && IsDir(m, d) && lo <= v < hi <= USER_PAGES && Shrunk(m, m', d, lo, v) && !HasTable(m', d, v)
    ensures var next := (v / NENTRIES + 1) * NENTRIES;
            v < next <= USER_PAGES && Shrunk(m, m', d, lo, if next <= hi then next else hi)
  {
    var next := (v / NENTRIES + 1) * NENTRIES;
    forall u: nat | v <= u < next ensures !Present(Pte(m', d, u)) { assert u / NENTRIES == v / NENTRIES; }
    ShrunkSkip(m, m', d, lo, v, if next <= hi then next else hi);
  }

  function PageUp(sz: nat): (v: nat) { (sz + PGSIZE - 1) / PGSIZE }

  // ----- taking an address space apart --------------------------------------------------------

  /** The directory and the tables of d, without user pages, given up for freeing. */
  function Retired(m: Mem, d: nat): (r: Mem)
    requires Shaped(m)
  {
    m.(owner :=
      seq(NFRAMES, (f: nat) requires 0 <= f < |m.owner| => if BelongsTo(m.owner[f], f, d) then Held else m.owner[f]))
  }

  lemma RetiredInv(m: Mem, d: nat)
    requires Inv(m) && IsDir(m, d) && forall v: nat :: v < USER_PAGES ==> !Present(Pte(m, d, v))
    ensures Inv(Retired(m, d))
  {
    var m' := Retired(m, d);
    assert forall c: nat, u: nat :: Pte(m', c, u) == Pte(m, c, u);
    forall k | 0 <= k < |m.free| ensures FreeAt(m', k) { assert FreeAt(m, k); }
    forall c: nat, i: nat | c < NFRAMES && i < NENTRIES && IsDir(m', c)
      ensures DirAt(m', c, i)
    {
      assert IsDir(m, c) && DirAt(m, c, i);
    }
    forall c: nat, u: nat | c < NFRAMES && u < USER_PAGES && IsDir(m', c)
      ensures UserAt(m', c, u)
    {
      assert IsDir(m, c) && UserAt(m, c, u);
    }
    forall g: nat | g < NFRAMES ensures Hangs(m', g) { assert Hangs(m, g); }
  }

  /** d's tables below entry i are free; what is left of d is held; the rest is as in m. */
  ghost predicate TablesFreed(m: Mem, m': Mem, d: nat, i: nat)
  {
    && Shaped(m) && Shaped(m') && d < NFRAMES && m'.pages[d] == m.pages[d]
    && (forall g :: 0 <= g < NFRAMES ==>
          m'.owner[g] == if m.owner[g].Table? && m.owner[g].d == d && m.owner[g].i < i then Free
                         else if BelongsTo(m.owner[g], g, d) then Held else m.owner[g])
    && (forall c: nat, u: nat :: c < NFRAMES && c != d && IsDir(m, c) ==> Pte(m', c, u) == Pte(m, c, u))
    && (forall g :: 0 <= g < NFRAMES && !BelongsTo(m.owner[g], g, d) && (m.owner[g].User? || m.owner[g] == Held) ==>
       m'.pages[g] == m.pages[g])
  }

  lemma TableFreed(m: Mem, mid: Mem, d: nat, i: nat)
    requires Inv(m) && IsDir(m, d) && i < NENTRIES && Inv(mid) && TablesFreed(m, mid, d, i) && Present(m.pages[d][i])
    ensures var t := FrameOf(m.pages[d][i]);
            && t < NFRAMES && mid.owner[t] == Held && t != d && m.owner[t] == Table(d, i)
            && Inv(Push(mid, t)) && TablesFreed(m, Push(mid, t), d, i + 1)
  {
    assert DirAt(m, d, i);
    var t := FrameOf(m.pages[d][i]);
    PushInv(mid, t);
    var m' := Push(mid, t);
    forall g: nat | g < NFRAMES
      ensures m'.owner[g] == if m.owner[g].Table? && m.owner[g].d == d && m.owner[g].i < i + 1 then Free
                             else if BelongsTo(m.owner[g], g, d) then Held else m.owner[g]
    {
      assert Hangs(m, g);
    }
    forall c: nat, u: nat | c < NFRAMES && c != d && IsDir(m, c)
      ensures Pte(m', c, u) == Pte(m, c, u)
    {
      assert IsDir(mid, c);
    }
  }

  lemma NoTableFreed(m: Mem, mid: Mem, d: nat, i: nat)
    requires Inv(m) && IsDir(m, d) && i < NENTRIES && TablesFreed(m, mid, d, i) && !Present(m.pages[d][i])
    ensures TablesFreed(m, mid, d, i + 1)
  {
    forall g: nat | g < NFRAMES ensures m.owner[g] != Table(d, i) { assert Hangs(m, g); }
  }

  /** Address space d is gone: all its frames, and only they, have become free. */
  ghost predicate Gone(m: Mem, m': Mem, d: nat)
  {
    && Shaped(m) && Shaped(m')
    && (forall g :: 0 <= g < NFRAMES ==> m'.owner[g] == if BelongsTo(m.owner[g], g, d) then Free else m.owner[g])
    && (forall c: nat, u: nat :: c < NFRAMES && c != d && IsDir(m, c) ==> Pte(m', c, u) == Pte(m, c, u))
    && (forall g :: 0 <= g < NFRAMES && !BelongsTo(m.owner[g], g, d) && (m.owner[g].User? || m.owner[g] == Held) ==>
       m'.pages[g] == m.pages[g])
  }

  lemma GoneAll(was: Mem, m: Mem, mid: Mem, d: nat)
    requires Inv(was) && IsDir(was, d) && Shrunk(was, m, d, 0, USER_PAGES) && Inv(m)
    requires Inv(mid) && TablesFreed(m, mid, d, NENTRIES)
    ensures Inv(Push(mid, d)) && Gone(was, Push(mid, d), d)
  {
    PushInv(mid, d);
    var m' := Push(mid, d);
    forall g: nat | g < NFRAMES
      ensures m'.owner[g] == if BelongsTo(was.owner[g], g, d) then Free else was.owner[g]
    {
      assert Hangs(was, g) && Hangs(m, g);
    }
    forall c: nat, u: nat | c < NFRAMES && c != d && IsDir(was, c)
      ensures Pte(m', c, u) == Pte(was, c, u)
    {
      assert IsDir(m, c) && IsDir(mid, c);
    }
    forall g: nat | g < NFRAMES && !BelongsTo(was.owner[g], g, d) && (was.owner[g].User? || was.owner[g] == Held)
      ensures m'.pages[g] == was.pages[g]
    {
      assert m.owner[g] == was.owner[g] && g != d;
    }
  }

  // ----- freerange's addresses ----------------------------------------------------------------

  function Wrapped(x: nat): (r: Uint) { x % UINT_LIMIT }

  /** PGROUNDUP, in 32 bits. */
  function RoundUp(va: Uint): (r: Uint) { Wrapped(va + PGSIZE - 1) / PGSIZE * PGSIZE }

  /** How many whole pages there are between the addresses; the last page of all is followed by address 0. */
  function PagesIn(vstart: Uint, vend: Uint): (n: nat)
  {
    var p := RoundUp(vstart);
    if p == UINT_LIMIT - PGSIZE then 1 else if p + PGSIZE <= vend then (vend - p) / PGSIZE else 0
  }

  predicate InRange(vstart: Uint, vend: Uint, f: nat)
  {
    RoundUp(vstart) <= KERNBASE + f * PGSIZE && KERNBASE + (f + 1) * PGSIZE <= vend
  }

  lemma PagesLeft(vstart: Uint, vend: Uint, k: nat)
    requires var p := RoundUp(vstart) + k * PGSIZE; p < UINT_LIMIT && Wrapped(p + PGSIZE) <= vend
    requires k > 0 ==> RoundUp(vstart) + k * PGSIZE < UINT_LIMIT - PGSIZE
    ensures k < PagesIn(vstart, vend)
  {
    var p := RoundUp(vstart);
    if p != UINT_LIMIT - PGSIZE {
      assert (k + 1) * PGSIZE <= vend - p;
      assert (vend - p) / PGSIZE >= k + 1;
    }
  }

  lemma PagesDone(vstart: Uint, vend: Uint, k: nat)
    requires var p := RoundUp(vstart) + k * PGSIZE;
             p < UINT_LIMIT && Wrapped(p + PGSIZE) > vend && (k > 0 ==> p <= vend)
    ensures k == PagesIn(vstart, vend)
  {
    var p := RoundUp(vstart);
    if k > 0 {
      assert k * PGSIZE <= vend - p < (k + 1) * PGSIZE;
      assert (vend - p) / PGSIZE == k;
    }
  }

  datatype MapResult = Mapped | OutOfMemory | Remapped

  class Memory {
    const end: Uint            // first address after the kernel
    var pages: seq<Page>
    var freelist: Option<nat>
    ghost var free: seq<nat>
    ghost var owner: seq<Role>

    ghost function Now(): (m: Mem)
      reads this
    {
      Mem(pages, freelist, free, owner)
    }

    /** The invariant, and the kernel's frames are nobody else's. */
    ghost predicate Valid()
      reads this
    {
      && Inv(Now()) && KERNBASE < end
      && forall f :: 0 <= f < NFRAMES && KERNBASE + f * PGSIZE < end ==> owner[f] == Kernel
    }

    /** Before kinit1: nothing is free; the frames behind the kernel wait for freerange. */
    constructor (end: Uint)
      requires KERNBASE < end
      ensures Valid() && this.end == end && freelist == None
      ensures forall f :: 0 <= f < NFRAMES ==> owner[f] == if KERNBASE + f * PGSIZE < end then Kernel else Held
    {
      this.end := end;
      pages := seq(NFRAMES, (_: nat) => Filled(1024, 0));
      freelist := None;
      free := [];
      owner := seq(NFRAMES, (f: nat) => if KERNBASE + f * PGSIZE < end then Kernel else Held);
    }

    /** freerange: the whole pages between the two addresses become free. It panics exactly if one of them
        is the kernel's or beyond physical memory. */
    method Freerange(vstart: Uint, vend: Uint) returns (ok: bool)
      requires Valid()
      requires forall f :: 0 <= f < NFRAMES && InRange(vstart, vend, f) && end <= KERNBASE + f * PGSIZE ==>
               owner[f] == Held
      modifies this
      ensures ok <==> PagesIn(vstart, vend) == 0 ||
                      (end <= RoundUp(vstart)
                        && RoundUp(vstart) + PagesIn(vstart, vend) * PGSIZE <= KERNBASE + NFRAMES * PGSIZE)
      ensures ok ==> Valid() && |free| == old(|free|) + PagesIn(vstart, vend)
      ensures ok ==>
              forall f :: 0 <= f < NFRAMES ==> owner[f] == if InRange(vstart, vend, f) then Free else old(owner)[f]
    {
      var p := RoundUp(vstart);
      ghost var k := 0;
      while Wrapped(p + PGSIZE) <= vend
        invariant p == RoundUp(vstart) + k * PGSIZE && Valid() && |free| == old(|free|) + k
        invariant k > 0 ==> end <= RoundUp(vstart) && p <= KERNBASE + NFRAMES * PGSIZE && p <= vend
        invariant forall f :: 0 <= f < NFRAMES ==>
                    owner[f] == if InRange(vstart, vend, f) && KERNBASE + f * PGSIZE < p then Free else old(owner)[f]
        decreases UINT_LIMIT - p
      {
        PagesLeft(vstart, vend, k);
        if end <= p < KERNBASE + NFRAMES * PGSIZE {
          ghost var f := (p - KERNBASE) / PGSIZE;
          assert InRange(vstart, vend, f) && KERNBASE + f * PGSIZE == p;
          PushInv(Now(), f);
        }
        ok := Kfree(p);
        if !ok {
          return;
        }
        p := p + PGSIZE;
        k := k + 1;
      }
      PagesDone(vstart, vend, k);
      ok := true;
    }

    /** kalloc */
    method Kalloc() returns (r: Option<nat>)
      requires Valid()
      modifies this`freelist, this`free, this`owner
      ensures Valid() && r == old(freelist)
      ensures r == None ==> Now() == old(Now()) && free == []
      ensures r.Some? ==>
                && old(free) != [] && r.value < NFRAMES && old(owner)[r.value] == Free && owner[r.value] == Held
                && Now() == Pop(old(Now())) && SameMaps(old(Now()), Now())
    {
      r := freelist;
      if r.Some? {
        PopInv(Now());
        freelist := Follow(pages[r.value][0]);
        free := free[1..];
        owner := owner[r.value := Held];
      }
    }

    /** kfree of the page at address va; false is its panic. */
    method Kfree(va: Uint) returns (ok: bool)
      requires Shaped(Now()) && KERNBASE < end
      modifies this
      ensures ok <==> va % PGSIZE == 0 && end <= va < KERNBASE + NFRAMES * PGSIZE
      ensures Now() == if ok then Push(old(Now()), (va - KERNBASE) / PGSIZE) else old(Now())
    {
      if va % PGSIZE != 0 || va < end || va - KERNBASE >= NFRAMES * PGSIZE {
        return false;
      }
      var f := (va - KERNBASE) / PGSIZE;
      ghost var was := pages;
      pages := pages[f := Filled(1024, 0x01010101)];
      pages := pages[f := pages[f][0 := LinkWord(freelist)]];
      assert pages == was[f := Junk(freelist)];
      freelist := Some(f);
      free := [f] + free;
      owner := owner[f := Free];
      return true;
    }

    /** kfree(P2V(pa)) for the frame at pa. */
    method FreeFrame(f: nat) returns (ok: bool)
      requires Shaped(Now()) && KERNBASE < end && f < NFRAMES
      modifies this
      ensures ok <==> end <= KERNBASE + f * PGSIZE
      ensures Now() == if ok then Push(old(Now()), f) else old(Now())
    {
      ok := Kfree(KERNBASE + f * PGSIZE);
    }

    /** walkpgdir for page v: whether there is a table for it, made if alloc says so. */
    method Walk(d: nat, v: nat, alloc: bool) returns (ok: bool)
      requires Valid() && IsDir(Now(), d) && v < NENTRIES * NENTRIES
      modifies this
      ensures ok <==> HasTable(old(Now()), d, v) || (alloc && old(free) != [])
      ensures HasTable(old(Now()), d, v) || !ok ==> Now() == old(Now())
      ensures Valid() && SameMaps(old(Now()), Now()) && IsDir(Now(), d) && HasTable(Now(), d, v) == ok
      ensures OnlyTables(old(Now()), Now(), d, NFRAMES) && SameData(old(Now()), Now())
      ensures Spare(Now(), d) == Spare(old(Now()), d)
      ensures DirGrown(old(pages)[d], pages[d], v / NENTRIES, v / NENTRIES + 1)
    {
      if Present(pages[d][v / NENTRIES]) {
        return true;
      }
      if !alloc {
        return false;
      }
      ghost var was := Now();
      var t := Kalloc();
      if t == None {
        return false;
      }
      WalkAllocates(was, d, v);
      pages := pages[t.value := Filled(1024, 0)];
      pages := pages[d := pages[d][v / NENTRIES := MakeEntry(t.value, 7)]];
      owner := owner[t.value := Table(d, v / NENTRIES)];
      return true;
    }

    /** The store of mappages: entry w at the absent page v, whose table exists. A user page takes over
        its frame, which the caller holds. */
    method SetEntry(d: nat, v: nat, w: Uint)
      requires Valid() && IsDir(Now(), d) && v < NENTRIES * NENTRIES && HasTable(Now(), d, v)
      requires !Present(Pte(Now(), d, v)) && Present(w)
      requires v < USER_PAGES ==> FrameOf(w) < NFRAMES && owner[FrameOf(w)] == Held
      modifies this
      ensures Valid() && IsDir(Now(), d) && SameData(old(Now()), Now()) && pages[d] == old(pages)[d]
      ensures free == old(free)
      ensures Pte(Now(), d, v) == w && MapsExcept(old(Now()), Now(), d, v)
      ensures owner == if v < USER_PAGES then old(owner)[FrameOf(w) := User(d, v)] else old(owner)
    {
      ghost var mid := Now();
      TableRole(mid, d, v);
      var t := FrameOf(pages[d][v / NENTRIES]);
      SetPteMaps(mid, d, v, w);
      if v < USER_PAGES {
        HangInv(mid, d, v, w, FrameOf(w));
        pages := pages[t := pages[t][v % NENTRIES := w]];
        owner := owner[FrameOf(w) := User(d, v)];
      } else {
        KernelPteInv(mid, d, v, w);
        pages := pages[t := pages[t][v % NENTRIES := w]];
      }
    }

    /** One round of mappages: page v of d gets entry w. */
    method MapPage(d: nat, v: nat, w: Uint) returns (r: MapResult)
      requires Valid() && IsDir(Now(), d) && v < NENTRIES * NENTRIES && Present(w)
      requires v < USER_PAGES ==> FrameOf(w) < NFRAMES && owner[FrameOf(w)] == Held
      modifies this
      ensures r == OutOfMemory <==> !HasTable(old(Now()), d, v) && old(free) == []
      ensures r == Remapped <==> Present(Pte(old(Now()), d, v))
      ensures r == OutOfMemory ==> Now() == old(Now())
      ensures Valid() && IsDir(Now(), d) && SameData(old(Now()), Now()) && Spare(Now(), d) == Spare(old(Now()), d)
      ensures DirGrown(old(pages)[d], pages[d], v / NENTRIES, v / NENTRIES + 1)
      ensures (r == OutOfMemory || HasTable(Now(), d, v))
      ensures r == Mapped ==> Pte(Now(), d, v) == w && MapsExcept(old(Now()), Now(), d, v)
      ensures r == Mapped ==> OnlyTables(old(Now()), Now(), d, if v < USER_PAGES then FrameOf(w) else NFRAMES)
      ensures r == Mapped && v < USER_PAGES ==> owner[FrameOf(w)] == User(d, v)
    {
      var ok := Walk(d, v, true);
      if !ok {
        return OutOfMemory;
      }
      TableRole(Now(), d, v);
      if Present(pages[FrameOf(pages[d][v / NENTRIES])][v % NENTRIES]) {
        return Remapped;
      }
      SetEntry(d, v, w);
      return Mapped;
    }

    /** The part of deallocuvm for a present page. */
    method UnmapPage(d: nat, v: nat) returns (ok: bool)
      requires Valid() && IsDir(Now(), d) && v < USER_PAGES && Present(Pte(Now(), d, v))
      modifies this
      ensures ok && Valid() && IsDir(Now(), d)
      ensures Unmapped(old(Now()), Now(), d, v, FrameOf(Pte(old(Now()), d, v)))
    {
      UnmapInv(Now(), d, v);
      TableRole(Now(), d, v);
      var t := FrameOf(pages[d][v / NENTRIES]);
      var pa := FrameOf(pages[t][v % NENTRIES]);
      if pa == 0 {
        return false;
      }
      ok := FreeFrame(pa);
      pages := pages[t := pages[t][v % NENTRIES := 0]];
    }

    /** One round of deallocuvm's loop at page v, in a shrinking begun at was with pages lo to hi. */
    method ShrinkAt(ghost was: Mem, d: nat, ghost lo: nat, v: nat, ghost hi: nat) returns (ok: bool, next: nat)
      requires Valid() && Inv(was) && IsDir(was, d) && IsDir(Now(), d) && lo <= v < hi <= USER_PAGES
      requires Shrunk(was, Now(), d, lo, v)
      modifies this
      ensures ok && Valid() && IsDir(Now(), d) && v < next <= USER_PAGES
      ensures Shrunk(was, Now(), d, lo, if next <= hi then next else hi)
    {
      var has := Walk(d, v, false);
      if !has {
        ok, next := true, (v / NENTRIES + 1) * NENTRIES;      // back one page, then on by the loop's increment
        ShrunkJump(was, Now(), d, lo, v, hi);
      } else {
        ok := ShrinkOne(was, d, lo, v);
        next := v + 1;
      }
    }

    /** The round where there is a table. */
    method ShrinkOne(ghost was: Mem, d: nat, ghost lo: nat, v: nat) returns (ok: bool)
      requires Valid() && Inv(was) && IsDir(was, d) && IsDir(Now(), d) && lo <= v < USER_PAGES
      requires Shrunk(was, Now(), d, lo, v)
      requires HasTable(Now(), d, v)
      modifies this
      ensures ok && Valid() && IsDir(Now(), d) && Shrunk(was, Now(), d, lo, v + 1)
    {
      ok := true;
      TableRole(Now(), d, v);
      if Present(pages[FrameOf(pages[d][v / NENTRIES])][v % NENTRIES]) {
        ghost var mid := Now();
        assert UserAt(mid, d, v);
        ok := UnmapPage(d, v);
        ShrunkMore(was, mid, Now(), d, lo, v, FrameOf(Pte(mid, d, v)));
      } else {
        ShrunkSkip(was, Now(), d, lo, v, v + 1);
      }
    }

    /** deallocuvm: the loop with its jump over absent tables frees the same pages as visiting every
        one of them, and never frees a page that is not allocated. */
    method Deallocuvm(d: nat, oldsz: nat, newsz: nat) returns (ok: bool, sz: nat)
      requires Valid() && IsDir(Now(), d) && oldsz <= KERNBASE
      modifies this
      ensures ok && Valid() && IsDir(Now(), d) && sz == if newsz >= oldsz then oldsz else newsz
      ensures Shrunk(old(Now()), Now(), d, PageUp(newsz), if newsz >= oldsz then PageUp(newsz) else PageUp(oldsz))
    {
      if newsz >= oldsz {
        return true, oldsz;
      }
      ghost var was := Now();
      ghost var hi := PageUp(oldsz);
      var v := PageUp(newsz);
      ok := true;
      while v * PGSIZE < oldsz
        invariant ok && PageUp(newsz) <= v <= USER_PAGES && Valid() && IsDir(Now(), d)
        invariant Shrunk(was, Now(), d, PageUp(newsz), if v <= hi then v else hi)
        decreases USER_PAGES - v
      {
        ok, v := ShrinkAt(was, d, PageUp(newsz), v, hi);
      }
      return ok, newsz;
    }

    /** freevm's loop over the directory. */
    method FreeTables(d: nat) returns (ok: bool)
      requires Valid() && IsDir(Now(), d) && forall v: nat :: v < USER_PAGES ==> !Present(Pte(Now(), d, v))
      modifies this
      ensures ok && Valid() && TablesFreed(old(Now()), Now(), d, NENTRIES)
    {
      ghost var was := Now();
      RetiredInv(was, d);
      owner := Retired(was, d).owner;
      var i := 0;
      ok := true;
      while i < NENTRIES
        invariant 0 <= i <= NENTRIES && ok && Valid() && TablesFreed(was, Now(), d, i)
      {
        if Present(pages[d][i]) {
          TableFreed(was, Now(), d, i);
          ok := FreeFrame(FrameOf(pages[d][i]));
        } else {
          NoTableFreed(was, Now(), d, i);
        }
        i := i + 1;
      }
    }

    /** freevm */
    method Freevm(d: nat) returns (ok: bool)
      requires Valid() && IsDir(Now(), d)
      modifies this
      ensures ok && Valid() && Gone(old(Now()), Now(), d)
    {
      ghost var was := Now();
      var sz: nat;
      ok, sz := Deallocuvm(d, KERNBASE, 0);
      ghost var mid := Now();
      forall v: nat | v < USER_PAGES
        ensures !Present(Pte(mid, d, v))
      {
        assert Pte(mid, d, v) == if Present(Pte(was, d, v)) then 0 else Pte(was, d, v);
      }
      ok := FreeTables(d);
      GoneAll(was, mid, Now(), d);
      ok := FreeFrame(d);
    }
  }
}

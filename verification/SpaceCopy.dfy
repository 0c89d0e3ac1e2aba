/** setupkvm and copyuvm of vm.c: a new address space either complete or not there at all. */
module SpaceCopy {
  import opened Collections
  import opened Layout
  import opened PageTables
  import opened VirtualMemory
  import opened AddressSpaces

  // ----- the kernel half ----------------------------------------------------------------------

  datatype Region = Region(virt: Uint, start: Uint, end: Uint, perm: nat)

  const EXT := 256             // EXTMEM / PGSIZE
  const DEV := 0xFE000         // DEVSPACE / PGSIZE
  const ALL := 0x100000        // page numbers

  /** The kmap table; data is the frame where the kernel's data begins. */
  function Kmap(data: nat): (r: seq<Region>)
    requires EXT < data < NFRAMES
    ensures |r| == 4
  {
    [Region(KERNBASE, 0, EXT * PGSIZE, 2),
     Region(KERNBASE + EXT * PGSIZE, EXT * PGSIZE, data * PGSIZE, 0),
     Region(KERNBASE + data * PGSIZE, data * PGSIZE, NFRAMES * PGSIZE, 2),
     Region(DEV * PGSIZE, DEV * PGSIZE, 0, 2)]
  }

  /** What the kernel half of every map holds: physical memory from KERNBASE on, its text read-only,
      and the devices where they are. */
  function KernelPte(data: nat, v: nat): (w: Uint)
  {
    if v < USER_PAGES || v >= ALL then 0
    else if v < USER_PAGES + NFRAMES then MakeEntry(v - USER_PAGES, if EXT <= v - USER_PAGES < data then 1 else 3)
    else if v < DEV then 0
    else MakeEntry(v, 3)
  }

  /** First page number after the first k regions. */
  function Done(data: nat, k: nat): (v: nat)
  {
    if k == 0 then USER_PAGES else if k == 1 then USER_PAGES + EXT else if k == 2 then USER_PAGES + data
    else if k == 3 then USER_PAGES + NFRAMES else ALL
  }

  ghost predicate BuiltTo(m: Mem, d: nat, data: nat, end: nat)
  {
    forall v: nat :: Pte(m, d, v) == if v < end then KernelPte(data, v) else 0
  }

  /** Where region k begins, what it maps and how. */
  lemma RegionPages(data: nat, k: nat)
    requires EXT < data < NFRAMES && k < 4
    ensures var r := Kmap(data)[k]; var size := (r.end - r.start) % UINT_LIMIT;
            && size > 0 && r.virt + size <= UINT_LIMIT && r.start % PGSIZE == 0 && r.perm < 4096
            && Done(data, k) <= r.virt / PGSIZE && (r.virt + size - 1) / PGSIZE + 1 == Done(data, k + 1)
            && r.start / PGSIZE + (r.virt + size - 1) / PGSIZE - r.virt / PGSIZE < ALL
            && (forall v: nat :: Done(data, k) <= v < r.virt / PGSIZE ==> KernelPte(data, v) == 0)
            && (forall v: nat :: r.virt / PGSIZE <= v < Done(data, k + 1) ==>
                  r.start / PGSIZE + (v - r.virt / PGSIZE) < ALL
                    && KernelPte(data, v) == MakeEntry(r.start / PGSIZE + (v - r.virt / PGSIZE), WithP(r.perm)))
  {
  }

  lemma BuiltMore(m: Mem, m': Mem, d: nat, data: nat, k: nat)
    requires EXT < data < NFRAMES && k < 4 && Shaped(m) && IsDir(m, d) && BuiltTo(m, d, data, Done(data, k))
    requires var r := Kmap(data)[k];
             r.virt / PGSIZE <= Done(data, k + 1) && r.start / PGSIZE + (Done(data, k + 1) - r.virt / PGSIZE) <= ALL
             && r.perm < 4096 && MapsTo(m, m', d, r.virt / PGSIZE, Done(data, k + 1), r.start / PGSIZE, WithP(r.perm))
    ensures BuiltTo(m', d, data, Done(data, k + 1))
  {
    RegionPages(data, k);
    forall v: nat
      ensures Pte(m', d, v) == if v < Done(data, k + 1) then KernelPte(data, v) else 0
    {
      assert Pte(m, d, v) == if v < Done(data, k) then KernelPte(data, v) else 0;
    }
  }

  // ----- a new address space ------------------------------------------------------------------

  /** d is new, made of frames that were free; all older maps and pages are untouched. */
  ghost predicate Spawned(m: Mem, m': Mem, d: nat, h: nat)
  {
    Taken(m, m', d, h) && SameMaps(m, m') && d < NFRAMES && m.owner[d] == Free && IsDir(m', d)
  }

  lemma SpawnDir(m: Mem)
    requires Inv(m) && m.freelist.Some?
    ensures m.free != [] && m.freelist.value < NFRAMES
    ensures var d := m.freelist.value;
            var m1 := SetPage(Pop(m), d, Filled(1024, 0));
            var m' := m1.(owner := m1.owner[d := Dir]);
            Inv(m') && Spawned(m, m', d, NONE) && BuiltTo(m', d, 0, 0)
  {
    PopInv(m);
    var d := m.freelist.value;
    SetPageInv(Pop(m), d, Filled(1024, 0));
    var m1 := SetPage(Pop(m), d, Filled(1024, 0));
    NewDirInv(m1, d);
    var m' := m1.(owner := m1.owner[d := Dir]);
    assert forall v: nat :: Pte(m', d, v) == Pte(m1, d, v);
    forall g: nat | g < NFRAMES ensures TakenAt(m, m', d, NONE, g) {}
    forall c: nat, u: nat | c < NFRAMES && IsDir(m, c)
      ensures Pte(m', c, u) == Pte(m, c, u)
    {
      assert IsDir(Pop(m), c) && Pte(m', c, u) == Pte(m1, c, u) == Pte(Pop(m), c, u);
    }
  }

  /** Mapping kernel pages into it takes only tables. */
  lemma SpawnKernelPages(m: Mem, mid: Mem, m': Mem, d: nat, lo: nat, v: nat, f0: nat, flags: nat)
    requires flags < 4096 && USER_PAGES <= lo <= v && f0 + (v - lo) <= ALL && Inv(m) && Spawned(m, mid, d, NONE)
    requires Inv(m') && IsDir(m', d)
    requires MappedTo(mid, m', d, lo, v, f0, flags)
    ensures Spawned(m, m', d, NONE)
  {
    forall g: nat | g < NFRAMES
      ensures TakenAt(m, m', d, NONE, g)
    {
      assert TakenAt(m, mid, d, NONE, g) && RoleFor(mid.owner[g], m'.owner[g], d, lo, v) && Hangs(m', g);
    }
    forall g: nat | g < NFRAMES && (m.owner[g].User? || m.owner[g] == Held)
      ensures m'.pages[g] == m.pages[g]
    {
      assert TakenAt(m, mid, d, NONE, g);
    }
    forall c: nat, u: nat | c < NFRAMES && IsDir(m, c)
      ensures Pte(m', c, u) == Pte(m, c, u)
    {
      TakenDirs(m, mid, d, NONE, c);
    }
  }

  /** Freeing the new address space restores every frame's role. */
  lemma GoneRestores(m: Mem, mid: Mem, m': Mem, d: nat)
    requires Inv(m) && Spawned(m, mid, d, NONE) && Gone(mid, m', d)
    ensures m'.owner == m.owner && SameMaps(m, m') && SameData(m, m')
  {
    forall g: nat | g < NFRAMES
      ensures m'.owner[g] == m.owner[g] && (m.owner[g].User? || m.owner[g] == Held ==> m'.pages[g] == m.pages[g])
    {
      assert TakenAt(m, mid, d, NONE, g) && Hangs(m, g);
    }
    forall c: nat, u: nat | c < NFRAMES && IsDir(m, c)
      ensures Pte(m', c, u) == Pte(m, c, u)
    {
      TakenDirs(m, mid, d, NONE, c);
    }
  }

  // ----- how many frames it takes -------------------------------------------------------------

  /** Directory entries for n user pages. */
  function UserSlots(n: nat): (r: nat) { (n + NENTRIES - 1) / NENTRIES }

  /** The entries of the kernel half: physical memory and the devices. */
  predicate KernelSlot(i: nat) { 512 <= i < 568 || 1016 <= i < NENTRIES }

  /** Only the kernel half and n user pages have tables. */
  predicate DirWithin(p: Page, n: nat)
  {
    forall i: nat :: i < NENTRIES && Present(p[i]) ==> KernelSlot(i) || i < UserSlots(n)
  }

  /** The frames of a complete address space: a directory, 64 tables of the kernel half, and the pages with
      their tables. */
  function FramesForSpace(n: nat): (r: nat) { 65 + n + UserSlots(n) }

  lemma {:induction false} AbsentAll(p: Page, i: nat, j: nat)
    requires i <= j <= NENTRIES && forall k :: i <= k < j ==> !Present(p[k])
    ensures Absent(p, i, j) == j - i
    decreases j - i
  {
    if i < j {
      AbsentAll(p, i + 1, j);
    }
  }

  lemma RangesCounted(p: Page, u: nat, a: nat, b: nat, c: nat, e: nat)
    requires u <= a <= b <= c <= e <= NENTRIES
    requires (forall k :: u <= k < a ==> !Present(p[k])) && (forall k :: b <= k < c ==> !Present(p[k]))
    ensures Absent(p, 0, e) == (a - u) + (c - b) + Absent(p, 0, u) + Absent(p, a, b) + Absent(p, c, e)
  {
    AbsentSplit(p, 0, u, e);
    AbsentSplit(p, u, a, e);
    AbsentSplit(p, a, b, e);
    AbsentSplit(p, b, c, e);
    AbsentAll(p, u, a);
    AbsentAll(p, b, c);
  }

  lemma SlotsRise(n: nat, all: nat)
    requires n < all <= USER_PAGES
    ensures UserSlots(n) + (if n % NENTRIES == 0 then 1 else 0) <= UserSlots(all) <= 512
    ensures if n % NENTRIES == 0 then n / NENTRIES == UserSlots(n) else n / NENTRIES < UserSlots(n)
  {
    var q, r := n / NENTRIES, n % NENTRIES;
    assert n == q * NENTRIES + r;
    assert UserSlots(n) == if r == 0 then q else q + 1;
    assert UserSlots(all) >= q + 1;
  }

  lemma SlotsFit(n: nat)
    requires n <= USER_PAGES
    ensures UserSlots(n) <= 512
  {
  }

  /** Entries of the kernel half without a table. */
  function KernelAbsent(p: Page): (r: nat) { Absent(p, 512, 568) + Absent(p, 1016, NENTRIES) }

  lemma KernelAbsentNone(p: Page)
    ensures KernelAbsent(p) == 0 <==> forall i: nat :: i < NENTRIES && KernelSlot(i) ==> Present(p[i])
  {
    AbsentNone(p, 512, 568);
    AbsentNone(p, 1016, NENTRIES);
  }

  lemma SlotsCounted(p: Page, n: nat)
    requires n <= USER_PAGES && DirWithin(p, n)
    ensures UserSlots(n) <= 512
    ensures Absent(p, 0, NENTRIES) == 960 - UserSlots(n) + Absent(p, 0, UserSlots(n)) + KernelAbsent(p)
  {
    SlotsFit(n);
    RangesCounted(p, UserSlots(n), 512, 568, 1016, NENTRIES);
  }

  /** With frames frames free at first, the directory and n pages have been taken, and tables. */
  ghost predicate Counted(m: Mem, d: nat, frames: nat, n: nat)
  {
    Shaped(m) && d < NFRAMES && DirWithin(m.pages[d], n) && Spare(m, d) == frames - 1 - NENTRIES - n
  }

  /** Every entry that should have a table has one: the frames were enough. */
  lemma SpaceDone(m: Mem, d: nat, frames: nat, n: nat)
    requires n <= USER_PAGES && Counted(m, d, frames, n)
    requires forall i: nat :: i < NENTRIES && (KernelSlot(i) || i < UserSlots(n)) ==> Present(m.pages[d][i])
    ensures frames >= FramesForSpace(n)
  {
    var p := m.pages[d];
    SlotsCounted(p, n);
    AbsentNone(p, 0, UserSlots(n));
    KernelAbsentNone(p);
  }

  /** No frame is left, and slot i, which needs a table, has none: they were not. */
  lemma TableLacking(m: Mem, d: nat, frames: nat, n: nat, i: nat)
    requires n <= USER_PAGES && Counted(m, d, frames, n) && i < NENTRIES && !Present(m.pages[d][i])
    requires KernelSlot(i) || i < UserSlots(n)
    ensures frames < |m.free| + FramesForSpace(n)
  {
    var p := m.pages[d];
    SlotsCounted(p, n);
    AbsentNone(p, 0, UserSlots(n));
    KernelAbsentNone(p);
  }

  /** Page n found no frame, or a frame and no table. */
  lemma PageLacking(m: Mem, d: nat, frames: nat, n: nat, all: nat)
    requires n < all <= USER_PAGES && Counted(m, d, frames, n)
    requires |m.free| == 0 || (|m.free| == 1 && !Present(m.pages[d][n / NENTRIES]))
    ensures frames < FramesForSpace(all)
  {
    SlotsCounted(m.pages[d], n);
    SlotsRise(n, all);
    if |m.free| == 1 && n % NENTRIES != 0 {
      TableLacking(m, d, frames, n, n / NENTRIES);
    }
  }

  lemma RegionSlots(data: nat, k: nat, p: Page, p': Page, next: nat)
    requires EXT < data < NFRAMES && k < 4 && Kmap(data)[k].virt / PGSIZE <= next <= Done(data, k + 1)
    requires DirWithin(p, 0) && TablesTo(p, p', Kmap(data)[k].virt / PGSIZE, next)
    ensures DirWithin(p', 0)
    ensures next < Done(data, k + 1) ==> next / NENTRIES < NENTRIES && KernelSlot(next / NENTRIES)
  {
  }

  /** setupkvm: a directory with the kernel's mappings and no user page, or, when memory runs out, all
      frames as before; it takes 65 frames. */
  method Setupkvm(mm: Memory, data: nat) returns (r: Option<nat>)
    requires mm.Valid() && EXT < data < NFRAMES
    modifies mm
    ensures mm.Valid()
    ensures r.Some? <==> |old(mm.free)| >= FramesForSpace(0)
    ensures r.Some? ==> Counted(mm.Now(), r.value, |old(mm.free)|, 0)
    ensures r.Some? ==> Spawned(old(mm.Now()), mm.Now(), r.value, NONE) && BuiltTo(mm.Now(), r.value, data, ALL)
    ensures r == None ==>
            mm.owner == old(mm.owner) && SameMaps(old(mm.Now()), mm.Now()) && SameData(old(mm.Now()), mm.Now())
  {
    ghost var was := mm.Now();
    r := NewDirectory(mm, data);
    if r == None {
      return;
    }
    var d := r.value;
    var k := 0;
    while k < 4
      invariant 0 <= k <= 4 && mm.Valid() && Spawned(was, mm.Now(), d, NONE)
      invariant BuiltTo(mm.Now(), d, data, Done(data, k))
      invariant Counted(mm.Now(), d, |was.free|, 0)
    {
      var ok := MapRegion(mm, was, d, data, k);
      if !ok {
        ghost var mid := mm.Now();
        ok := mm.Freevm(d);
        GoneRestores(was, mid, mm.Now(), d);
        return None;
      }
      k := k + 1;
    }
    KernelBuilt(mm.Now(), d, data);
    SpaceDone(mm.Now(), d, |was.free|, 0);
    r := Some(d);
  }

  /** The beginning of setupkvm: a zeroed directory. */
  method NewDirectory(mm: Memory, ghost data: nat) returns (r: Option<nat>)
    requires mm.Valid() && EXT < data < NFRAMES
    modifies mm
    ensures mm.Valid() && (r == None <==> old(mm.free) == [])
    ensures r == None ==> mm.Now() == old(mm.Now())
    ensures r.Some? ==>
            Spawned(old(mm.Now()), mm.Now(), r.value, NONE) && BuiltTo(mm.Now(), r.value, data, Done(data, 0))
    ensures r.Some? ==> Counted(mm.Now(), r.value, |old(mm.free)|, 0)
    ensures r.Some? ==> |mm.free| == |old(mm.free)| - 1 && mm.pages[r.value] == Filled(1024, 0)
  {
    ghost var was := mm.Now();
    r := mm.Kalloc();
    if r.Some? {
      SpawnDir(was);
      AbsentAll(Filled(1024, 0), 0, NENTRIES);
      mm.pages := mm.pages[r.value := Filled(1024, 0)];
      mm.owner := mm.owner[r.value := Dir];
    }
  }

  /** One round of setupkvm's loop. */
  method MapRegion(mm: Memory, ghost was: Mem, d: nat, data: nat, k: nat) returns (ok: bool)
    requires mm.Valid() && Inv(was) && EXT < data < NFRAMES && k < 4
    requires Spawned(was, mm.Now(), d, NONE) && BuiltTo(mm.Now(), d, data, Done(data, k))
    requires Counted(mm.Now(), d, |was.free|, 0)
    modifies mm
    ensures mm.Valid() && Spawned(was, mm.Now(), d, NONE)
    ensures ok ==> BuiltTo(mm.Now(), d, data, Done(data, k + 1)) && Counted(mm.Now(), d, |was.free|, 0)
    ensures !ok ==> |was.free| < FramesForSpace(0)
  {
    ghost var mid := mm.Now();
    RegionPages(data, k);
    var g := Kmap(data)[k];
    var size := (g.end - g.start) % UINT_LIMIT;
    var r, next := Mappages(mm, d, g.virt, size, g.start, g.perm);
    assert Pte(mid, d, next) == 0;
    SpawnKernelPages(was, mid, mm.Now(), d, g.virt / PGSIZE, next, g.start / PGSIZE, WithP(g.perm));
    ok := r == Mapped;
    RegionSlots(data, k, mid.pages[d], mm.pages[d], next);
    if ok {
      BuiltMore(mid, mm.Now(), d, data, k);
    } else {
      TableLacking(mm.Now(), d, |was.free|, 0, next / NENTRIES);
    }
  }

  lemma KernelBuilt(m: Mem, d: nat, data: nat)
    requires Shaped(m) && d < NFRAMES && forall u: nat :: USER_PAGES <= u ==> Pte(m, d, u) == KernelPte(data, u)
    ensures forall i: nat :: i < NENTRIES && KernelSlot(i) ==> Present(m.pages[d][i])
  {
    forall i: nat | i < NENTRIES && KernelSlot(i)
      ensures Present(m.pages[d][i])
    {
      var u := i * NENTRIES;
      assert Present(KernelPte(data, u)) && u / NENTRIES == i;
      assert Pte(m, d, u) == KernelPte(data, u);
    }
  }

  // ----- copyuvm ------------------------------------------------------------------------------

  /** Page u of d2 is a copy of page u of d: same flags, same contents. */
  predicate CopyAt(m: Mem, m': Mem, d: nat, d2: nat, u: nat)
    requires Shaped(m) && Shaped(m')
  {
    var w, w' := Pte(m, d, u), Pte(m', d2, u);
    && Present(w') && Flags(w') == Flags(w) && FrameOf(w') < NFRAMES && FrameOf(w) < NFRAMES
    && m'.pages[FrameOf(w')] == m.pages[FrameOf(w)]
  }

  /** Pages below v are copied, no other user page is there, and the kernel half is complete. */
  ghost predicate CopiedTo(m: Mem, m': Mem, d: nat, d2: nat, v: nat, data: nat)
  {
    && Shaped(m) && Shaped(m')
    && (forall u: nat :: u < v ==> CopyAt(m, m', d, d2, u))
    && (forall u: nat :: v <= u ==> Pte(m', d2, u) == KernelPte(data, u))
  }

  /** The frame in hand filled with the original's page. */
  lemma CopyTaken(was: Mem, m: Mem, d: nat, d2: nat, v: nat, data: nat)
    requires Inv(was) && Inv(m) && IsDir(was, d) && Spawned(was, m, d2, NONE) && CopiedTo(was, m, d, d2, v, data)
    requires v < USER_PAGES
    requires m.freelist.Some? && Present(Pte(was, d, v))
    ensures m.free != [] && m.freelist.value < NFRAMES && FrameOf(Pte(m, d, v)) < NFRAMES
    ensures Pte(m, d, v) == Pte(was, d, v)
    ensures var h := m.freelist.value; var p := m.pages[FrameOf(Pte(m, d, v))]; var m' := SetPage(Pop(m), h, p);
            && Inv(m') && Spawned(was, m', d2, h) && HeldAt(m', h) && CopiedTo(was, m', d, d2, v, data)
            && p == was.pages[FrameOf(Pte(was, d, v))] && FrameOf(Pte(m, d, v)) != h
  {
    TakenDirs(was, m, d2, NONE, d);
    assert UserAt(was, d, v) && UserAt(m, d, v);
    PopInv(m);
    TakenPop(was, m, d2);
    var h, p, m1 := m.freelist.value, m.pages[FrameOf(Pte(m, d, v))], Pop(m);
    var m' := SetPage(m1, h, p);
    SetPageInv(m1, h, p);
    TakenSetPage(was, m1, d2, h, p);
    forall c: nat, u: nat | c < NFRAMES && IsDir(was, c)
      ensures Pte(m', c, u) == Pte(was, c, u)
    {
      TakenDirs(was, m, d2, NONE, c);
      TakenDirs(was, m1, d2, h, c);
    }
    assert IsDir(m1, d2);
    forall u: nat | u < v ensures CopyAt(was, m', d, d2, u) { assert CopyAt(was, m, d, d2, u) && UserAt(m, d2, u); }
    forall u: nat | v <= u ensures Pte(m', d2, u) == KernelPte(data, u) { assert Pte(m', d2, u) == Pte(m, d2, u); }
  }

  /** mappages of the copy, whether it went through or not. */
  lemma CopyMapped(was: Mem, mid: Mem, m': Mem, d: nat, d2: nat, v: nat, next: nat, data: nat, h: nat)
    requires Inv(was) && Inv(mid) && Inv(m') && IsDir(was, d) && IsDir(m', d2) && v < USER_PAGES && v <= next <= v + 1
    requires h < NFRAMES
    requires Spawned(was, mid, d2, h) && CopiedTo(was, mid, d, d2, v, data) && Present(Pte(was, d, v))
    requires FrameOf(Pte(was, d, v)) < NFRAMES
    requires mid.pages[h] == was.pages[FrameOf(Pte(was, d, v))]
    requires MappedTo(mid, m', d2, v, next, h, WithP(Flags(Pte(was, d, v))))
    ensures Spawned(was, m', d2, if next == v + 1 then NONE else h) && CopiedTo(was, m', d, d2, next, data)
  {
    assert TakenAt(was, mid, d2, h, h);
    EntryParts(h, WithP(Flags(Pte(was, d, v))));
    if next == v + 1 { assert Pte(m', d2, v) == MakeEntry(h, WithP(Flags(Pte(was, d, v)))) && UserAt(m', d2, v); }
    TakenMap(was, mid, m', d2, h, v, next);
    forall c: nat, u: nat | c < NFRAMES && IsDir(was, c)
      ensures Pte(m', c, u) == Pte(was, c, u)
    {
      TakenDirs(was, mid, d2, h, c);
    }
    forall u: nat | u < next
      ensures CopyAt(was, m', d, d2, u)
    {
      if u < v { assert CopyAt(was, mid, d, d2, u) && UserAt(mid, d2, u); }
    }
    forall u: nat | next <= u ensures Pte(m', d2, u) == KernelPte(data, u) { assert Pte(m', d2, u) == Pte(mid, d2, u); }
  }

  /** The first half of a round of copyuvm's loop after the checks: a frame in hand that holds the
      original's page. */
  method TakeCopy(mm: Memory, ghost was: Mem, d: nat, ghost d2: nat, v: nat, ghost data: nat)
    returns (mem: Option<nat>, flags: nat)
    requires mm.Valid() && Inv(was) && IsDir(was, d) && IsDir(mm.Now(), d) && v < USER_PAGES && Present(Pte(was, d, v))
    requires HasTable(mm.Now(), d, v) && Spawned(was, mm.Now(), d2, NONE) && CopiedTo(was, mm.Now(), d, d2, v, data)
    modifies mm
    ensures mm.Valid() && flags == Flags(Pte(was, d, v))
    ensures mem == None ==> mm.Now() == old(mm.Now()) && mm.free == []
    ensures mem.Some? ==>
              && Spawned(was, mm.Now(), d2, mem.value) && HeldAt(mm.Now(), mem.value)
              && CopiedTo(was, mm.Now(), d, d2, v, data)
              && FrameOf(Pte(was, d, v)) < NFRAMES && mm.pages[mem.value] == was.pages[FrameOf(Pte(was, d, v))]
              && |mm.free| == |old(mm.free)| - 1 && mm.pages[d2] == old(mm.pages)[d2]
  {
    ghost var m0 := mm.Now();
    TableRole(m0, d, v);
    TakenDirs(was, m0, d2, NONE, d);
    var pte := mm.pages[FrameOf(mm.pages[d][v / NENTRIES])][v % NENTRIES];
    assert pte == Pte(m0, d, v) == Pte(was, d, v);
    flags := Flags(pte);
    mem := mm.Kalloc();
    if mem.Some? {
      CopyTaken(was, m0, d, d2, v, data);
      mm.pages := mm.pages[mem.value := mm.pages[FrameOf(pte)]];
    }
  }

  /** The second half: the copy is mapped, or the frame given back. */
  method MapCopy(mm: Memory, ghost was: Mem, ghost d: nat, d2: nat, v: nat, ghost data: nat, h: nat, flags: nat)
    returns (ok: bool)
    requires mm.Valid() && Inv(was) && IsDir(was, d) && v < USER_PAGES && Present(Pte(was, d, v))
    requires flags == Flags(Pte(was, d, v))
    requires Spawned(was, mm.Now(), d2, h) && HeldAt(mm.Now(), h) && CopiedTo(was, mm.Now(), d, d2, v, data)
    requires FrameOf(Pte(was, d, v)) < NFRAMES && mm.pages[h] == was.pages[FrameOf(Pte(was, d, v))]
    modifies mm
    ensures mm.Valid() && Spawned(was, mm.Now(), d2, NONE)
    ensures ok ==> CopiedTo(was, mm.Now(), d, d2, v + 1, data)
    ensures ok ==>
            Spare(mm.Now(), d2) == Spare(old(mm.Now()), d2) && TablesTo(old(mm.pages)[d2], mm.pages[d2], v, v + 1)
    ensures !ok ==> old(mm.free) == [] && !HasTable(old(mm.Now()), d2, v)
  {
    ghost var m1 := mm.Now();
    assert Pte(m1, d2, v) == 0;
    var r := MapUserPage(mm, d2, v, h, flags);
    ok := r == Mapped;
    CopyMapped(was, m1, mm.Now(), d, d2, v, if ok then v + 1 else v, data, h);
    if !ok {
      DropHeld(mm, was, d2, h);
    }
  }

  /** The part of copyuvm's loop after the checks: allocate, copy, map. On failure nothing is left in
      hand. */
  method CopyPage(mm: Memory, ghost was: Mem, d: nat, d2: nat, v: nat, ghost data: nat) returns (ok: bool)
    requires mm.Valid() && Inv(was) && IsDir(was, d) && IsDir(mm.Now(), d) && v < USER_PAGES && Present(Pte(was, d, v))
    requires HasTable(mm.Now(), d, v) && Spawned(was, mm.Now(), d2, NONE) && CopiedTo(was, mm.Now(), d, d2, v, data)
    modifies mm
    ensures mm.Valid() && Spawned(was, mm.Now(), d2, NONE)
    ensures ok ==> CopiedTo(was, mm.Now(), d, d2, v + 1, data)
    ensures ok ==>
            Spare(mm.Now(), d2) == Spare(old(mm.Now()), d2) - 1 && TablesTo(old(mm.pages)[d2], mm.pages[d2], v, v + 1)
    ensures !ok ==> |old(mm.free)| == 0 || (|old(mm.free)| == 1 && !HasTable(old(mm.Now()), d2, v))
  {
    var mem, flags := TakeCopy(mm, was, d, d2, v, data);
    if mem == None {
      return false;
    }
    ok := MapCopy(mm, was, d, d2, v, data, mem.value, flags);
  }

  /** kfree of the frame in hand. */
  method DropHeld(mm: Memory, ghost was: Mem, d2: nat, h: nat)
    requires mm.Valid() && h < NFRAMES && Spawned(was, mm.Now(), d2, h)
    modifies mm
    ensures mm.Valid() && Spawned(was, mm.Now(), d2, NONE)
  {
    ghost var mid := mm.Now();
    assert TakenAt(was, mid, d2, h, h);
    PushInv(mid, h);
    TakenPush(was, mid, d2, h);
    var ok := mm.FreeFrame(h);
    forall c: nat, u: nat | c < NFRAMES && IsDir(was, c)
      ensures Pte(mm.Now(), c, u) == Pte(was, c, u)
    {
      TakenDirs(was, mid, d2, h, c);
    }
  }

  lemma CountedMore(m: Mem, m': Mem, d2: nat, frames: nat, v: nat)
    requires v < USER_PAGES && Counted(m, d2, frames, v) && Shaped(m')
    requires Spare(m', d2) == Spare(m, d2) - 1 && TablesTo(m.pages[d2], m'.pages[d2], v, v + 1)
    ensures Counted(m', d2, frames, v + 1)
  {
    assert UserSlots(v) <= UserSlots(v + 1) && v / NENTRIES < UserSlots(v + 1);
  }

  lemma SpaceComplete(was: Mem, m: Mem, d: nat, d2: nat, n: nat, data: nat)
    requires n <= USER_PAGES && Counted(m, d2, |was.free|, n) && CopiedTo(was, m, d, d2, n, data)
    ensures |was.free| >= FramesForSpace(n)
  {
    KernelBuilt(m, d2, data);
    forall i: nat | i < UserSlots(n)
      ensures Present(m.pages[d2][i])
    {
      var u := i * NENTRIES;
      assert u < n && u / NENTRIES == i && CopyAt(was, m, d, d2, u);
    }
    SpaceDone(m, d2, |was.free|, n);
  }

  datatype CopyResult = NewSpace(d: nat) | NoSpace | Missing

  /** The state of copyuvm with the pages below i copied. */
  ghost predicate Copying(was: Mem, m: Mem, d: nat, d2: nat, i: nat, data: nat)
  {
    Spawned(was, m, d2, NONE) && CopiedTo(was, m, d, d2, i, data) && Counted(m, d2, |was.free|, i)
  }

  /** copyuvm's checks of page i: it has a table and is present. */
  method PageThere(mm: Memory, ghost was: Mem, d: nat, ghost d2: nat, i: nat) returns (there: bool)
    requires mm.Valid() && Spawned(was, mm.Now(), d2, NONE) && IsDir(was, d) && i < USER_PAGES
    modifies mm
    ensures mm.Now() == old(mm.Now()) && IsDir(mm.Now(), d)
    ensures there <==> Present(Pte(was, d, i))
    ensures there ==> HasTable(mm.Now(), d, i)
  {
    TakenDirs(was, mm.Now(), d2, NONE, d);
    assert Pte(mm.Now(), d, i) == Pte(was, d, i);
    there := mm.Walk(d, i, false);
    if there {
      TableRole(mm.Now(), d, i);
      there := Present(mm.pages[FrameOf(mm.pages[d][i / NENTRIES])][i % NENTRIES]);
    }
  }

  /** copyuvm: a new address space with equal flags and bytes in fresh frames, or every frame as it was;
      it panics only if some page below sz is missing. */
  method Copyuvm(mm: Memory, d: nat, sz: nat, data: nat) returns (r: CopyResult)
    requires mm.Valid() && IsDir(mm.Now(), d) && sz <= KERNBASE && EXT < data < NFRAMES
    modifies mm
    ensures mm.Valid()
    ensures r.NewSpace? ==>
            Spawned(old(mm.Now()), mm.Now(), r.d, NONE) && CopiedTo(old(mm.Now()), mm.Now(), d, r.d, PageUp(sz), data)
    ensures r == NoSpace ==>
            mm.owner == old(mm.owner) && SameMaps(old(mm.Now()), mm.Now()) && SameData(old(mm.Now()), mm.Now())
    ensures r == NoSpace ==> |old(mm.free)| < FramesForSpace(PageUp(sz))
    ensures r.NewSpace? ==> |old(mm.free)| >= FramesForSpace(PageUp(sz))
    ensures r == Missing ==> exists u: nat :: u < PageUp(sz) && !Present(Pte(old(mm.Now()), d, u))
  {
    ghost var was := mm.Now();
    var d2 := Setupkvm(mm, data);
    if d2 == None {
      return NoSpace;
    }
    var i := 0;
    while i * PGSIZE < sz
      invariant 0 <= i <= PageUp(sz) && mm.Valid() && Copying(was, mm.Now(), d, d2.value, i, data)
    {
      ghost var mid := mm.Now();
      var there := PageThere(mm, was, d, d2.value, i);
      if !there {
        return Missing;
      }
      var ok := CopyPage(mm, was, d, d2.value, i, data);
      if !ok {
        PageLacking(mid, d2.value, |was.free|, i, PageUp(sz));
        ghost var full := mm.Now();
        ok := mm.Freevm(d2.value);
        GoneRestores(was, full, mm.Now(), d2.value);
        return NoSpace;
      }
      CountedMore(mid, mm.Now(), d2.value, |was.free|, i);
      i := i + 1;
    }
    SpaceComplete(was, mm.Now(), d, d2.value, PageUp(sz), data);
    return NewSpace(d2.value);
  }

  /** A failed allocuvm that keeps a table: a directory, two free frames, and two pages asked for. */
  method TableLeftBehind() returns (mm: Memory, d: nat, r: GrowResult, ghost before: Mem)
    ensures mm.Valid() && Inv(before) && IsDir(before, d) && |before.free| == 2
    ensures r == NoMemory && mm.owner != before.owner
  {
    mm := new Memory(KERNBASE + (NFRAMES - 3) * PGSIZE);
    var ok := mm.Freerange(KERNBASE + (NFRAMES - 3) * PGSIZE, KERNBASE + NFRAMES * PGSIZE);
    var dir := NewDirectory(mm, 1000);
    d := dir.value;
    before := mm.Now();
    EmptyDirectory(before, d);
    r := Allocuvm(mm, d, 0, 2 * PGSIZE);
  }

  lemma EmptyDirectory(m: Mem, d: nat)
    requires Shaped(m) && d < NFRAMES && m.pages[d] == Filled(1024, 0) && |m.free| == 2
    ensures PageUp(0) == 0 && PageUp(2 * PGSIZE) == 2
    ensures FramesToGrow(m, d, 0, 2) == 3 && LeavesTable(m, d, 0, 2)
    ensures forall u: nat :: !Present(Pte(m, d, u))
  {
    AbsentAll(m.pages[d], 0, 1);
  }
}

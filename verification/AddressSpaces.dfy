/** Mapping pages and growing address spaces: mappages and allocuvm of vm.c. */
module AddressSpaces {
  import opened Collections
  import opened Layout
  import opened PageTables
  import opened VirtualMemory

  /** perm | PTE_P */
  function WithP(perm: nat): (r: nat)
    requires perm < 4096
    ensures r < 4096 && r % 2 == 1
  {
    if perm % 2 == 1 then perm else perm + 1
  }

  // ----- mappages -----------------------------------------------------------------------------

  /** Pages lo to v of d map frames f0 on with these flags, and no map is otherwise changed. */
  ghost predicate MapsTo(m: Mem, m': Mem, d: nat, lo: nat, v: nat, f0: nat, flags: nat)
    requires flags < 4096 && lo <= v && f0 + (v - lo) <= 0x100000
  {
    && Shaped(m) && Shaped(m')
    && forall c: nat, u: nat :: c < NFRAMES && IsDir(m, c) ==>
         Pte(m', c, u) == if c == d && lo <= u < v then MakeEntry(f0 + (u - lo), flags) else Pte(m, c, u)
  }

  ghost predicate RolesFor(m: Mem, m': Mem, d: nat, lo: nat, v: nat)
  {
    Shaped(m) && Shaped(m') && forall g: nat :: g < NFRAMES ==> RoleFor(m.owner[g], m'.owner[g], d, lo, v)
  }

  /** The pages are mapped; d may have got tables, and user pages took over their frames; nothing else
      changed. */
  ghost predicate MappedTo(m: Mem, m': Mem, d: nat, lo: nat, v: nat, f0: nat, flags: nat)
    requires flags < 4096 && lo <= v && f0 + (v - lo) <= 0x100000
  {
    MapsTo(m, m', d, lo, v, f0, flags) && RolesFor(m, m', d, lo, v) && SameData(m, m')
  }

  /** A role is kept, or a free frame became a table of d, or a held one a user page of d from lo to v. */
  predicate RoleFor(was: Role, now: Role, d: nat, lo: nat, v: nat)
  {
    || now == was
    || (was == Free && now.Table? && now.d == d)
    || (was == Held && now.User? && now.d == d && lo <= now.v < v)
  }

  predicate HeldAt(m: Mem, g: nat) { g < |m.owner| && m.owner[g] == Held }

  /** The frames for the user part of pages lo to hi are in the caller's hands. */
  ghost predicate FramesHeld(m: Mem, lo: nat, hi: nat, f0: nat)
  {
    Shaped(m) && forall g: nat :: lo <= hi && f0 <= g < f0 + (hi - lo) && lo + (g - f0) < USER_PAGES ==> HeldAt(m, g)
  }

  lemma MapsMore(m: Mem, mid: Mem, m': Mem, d: nat, lo: nat, v: nat, f0: nat, flags: nat)
    requires flags < 4096 && lo <= v && f0 + (v - lo) < 0x100000
    requires MapsTo(m, mid, d, lo, v, f0, flags) && RolesFor(m, mid, d, lo, v) && MapsExcept(mid, m', d, v)
    requires Pte(m', d, v) == MakeEntry(f0 + (v - lo), flags)
    ensures MapsTo(m, m', d, lo, v + 1, f0, flags)
  {
    forall c: nat, u: nat | c < NFRAMES && IsDir(m, c)
      ensures Pte(m', c, u) == if c == d && lo <= u < v + 1 then MakeEntry(f0 + (u - lo), flags) else Pte(m, c, u)
    {
      assert RoleFor(m.owner[c], mid.owner[c], d, lo, v);
      assert IsDir(mid, c);
      if (c, u) != (d, v) { assert Pte(m', c, u) == Pte(mid, c, u); }
    }
  }

  lemma RolesMore(m: Mem, mid: Mem, m': Mem, d: nat, lo: nat, v: nat, f: nat)
    requires RolesFor(m, mid, d, lo, v) && OnlyTables(mid, m', d, f) && lo <= v
    requires f < NFRAMES ==> m.owner[f] == Held && m'.owner[f] == User(d, v)
    ensures RolesFor(m, m', d, lo, v + 1)
  {
    forall g: nat | g < NFRAMES
      ensures RoleFor(m.owner[g], m'.owner[g], d, lo, v + 1)
    {
      assert RoleFor(m.owner[g], mid.owner[g], d, lo, v);
    }
  }

  lemma DataMore(m: Mem, mid: Mem, m': Mem, d: nat, lo: nat, v: nat)
    requires RolesFor(m, mid, d, lo, v) && SameData(m, mid) && SameData(mid, m')
    ensures SameData(m, m')
  {
    forall g: nat | g < NFRAMES && (m.owner[g].User? || m.owner[g] == Held)
      ensures m'.pages[g] == m.pages[g]
    {
      assert RoleFor(m.owner[g], mid.owner[g], d, lo, v);
    }
  }

  /** The frame whose turn it is has not been used. */
  lemma StillHeld(m: Mem, mid: Mem, d: nat, lo: nat, v: nat, f0: nat, flags: nat)
    requires flags < 4096 && lo <= v < USER_PAGES && f0 + (v - lo) < 0x100000 && Inv(m) && IsDir(m, d) && Inv(mid)
    requires MappedTo(m, mid, d, lo, v, f0, flags) && HeldAt(m, f0 + (v - lo))
    ensures HeldAt(mid, f0 + (v - lo))
  {
    var f := f0 + (v - lo);
    assert RoleFor(m.owner[f], mid.owner[f], d, lo, v) && Hangs(mid, f);
    if mid.owner[f] != Held { EntryParts(f0 + (mid.owner[f].v - lo), flags); }
  }

  /** The directory entry behind those of pages lo to v. */
  function SlotEnd(lo: nat, v: nat): (r: nat) { if v <= lo then lo / NENTRIES else (v - 1) / NENTRIES + 1 }

  predicate AllPresent(p: Page, i: nat, j: nat)
    requires j <= NENTRIES
  {
    forall k :: i <= k < j ==> Present(p[k])
  }

  /** From p to p' the directory got exactly the tables that pages lo to v lacked. */
  predicate TablesTo(p: Page, p': Page, lo: nat, v: nat)
    requires v <= NENTRIES * NENTRIES && lo <= v
  {
    DirGrown(p, p', lo / NENTRIES, SlotEnd(lo, v)) && AllPresent(p', lo / NENTRIES, SlotEnd(lo, v))
  }

  lemma TablesMore(p: Page, q: Page, r: Page, lo: nat, v: nat)
    requires lo <= v < NENTRIES * NENTRIES && TablesTo(p, q, lo, v)
    requires DirGrown(q, r, v / NENTRIES, v / NENTRIES + 1) && Present(r[v / NENTRIES])
    ensures TablesTo(p, r, lo, v + 1)
  {
  }

  /** A mapping begun at was has come to page a: the pages before it are mapped, with their tables. */
  ghost predicate MapState(was: Mem, m: Mem, d: nat, lo: nat, a: nat, f0: nat, flags: nat)
    requires flags < 4096 && lo <= a <= NENTRIES * NENTRIES && f0 + (a - lo) <= 0x100000 && d < NFRAMES
  {
    MappedTo(was, m, d, lo, a, f0, flags) && TablesTo(was.pages[d], m.pages[d], lo, a) && Spare(m, d) == Spare(was, d)
  }

  /** One round of mappages. */
  method MapNext(mm: Memory, ghost was: Mem, d: nat, ghost lo: nat, a: nat, ghost hi: nat, ghost f0: nat, f: nat,
                 flags: nat)
    returns (r: MapResult)
    requires mm.Valid() && IsDir(mm.Now(), d) && lo <= a < hi <= NENTRIES * NENTRIES && f == f0 + (a - lo) < 0x100000
    requires flags < 4096 && flags % 2 == 1 && Inv(was) && IsDir(was, d)
    requires FramesHeld(was, lo, hi, f0) && MapState(was, mm.Now(), d, lo, a, f0, flags)
    modifies mm
    ensures mm.Valid() && IsDir(mm.Now(), d)
    ensures r == Remapped ==> Present(Pte(old(mm.Now()), d, a)) && Spare(mm.Now(), d) == Spare(was, d)
    ensures r == OutOfMemory ==> mm.free == [] && mm.Now() == old(mm.Now()) && !HasTable(mm.Now(), d, a)
    ensures r == Mapped ==> MapState(was, mm.Now(), d, lo, a + 1, f0, flags)
  {
    ghost var mid := mm.Now();
    if a < USER_PAGES {
      assert HeldAt(was, f);
      StillHeld(was, mid, d, lo, a, f0, flags);
    }
    var w := MakeEntry(f, flags);
    assert Present(w) && FrameOf(w) == f by { EntryParts(f, flags); }
    r := mm.MapPage(d, a, w);
    if r == Mapped {
      MapsMore(was, mid, mm.Now(), d, lo, a, f0, flags);
      RolesMore(was, mid, mm.Now(), d, lo, a, if a < USER_PAGES then f else NFRAMES);
      DataMore(was, mid, mm.Now(), d, lo, a);
      TablesMore(was.pages[d], mid.pages[d], mm.pages[d], lo, a);
    }
  }

  /** The loop of mappages, over page numbers a to last. */
  method MapLoop(mm: Memory, d: nat, lo: nat, last: nat, f0: nat, flags: nat) returns (r: MapResult, next: nat)
    requires mm.Valid() && IsDir(mm.Now(), d) && lo <= last < NENTRIES * NENTRIES && f0 + (last - lo) < 0x100000
    requires flags < 4096 && flags % 2 == 1 && FramesHeld(mm.Now(), lo, last + 1, f0)
    modifies mm
    ensures lo <= next <= last + 1 && (r == Mapped <==> next == last + 1)
    ensures mm.Valid() && IsDir(mm.Now(), d)
    ensures r == Remapped ==> Present(Pte(old(mm.Now()), d, next)) && Spare(mm.Now(), d) == Spare(old(mm.Now()), d)
    ensures r == OutOfMemory ==> mm.free == [] && !HasTable(mm.Now(), d, next)
    ensures r == OutOfMemory && next == lo ==> mm.Now() == old(mm.Now())
    ensures r != Remapped ==> MapState(old(mm.Now()), mm.Now(), d, lo, next, f0, flags)
  {
    ghost var was := mm.Now();
    var a, f := lo, f0;
    while true
      invariant lo <= a <= last && f == f0 + (a - lo) && mm.Valid() && IsDir(mm.Now(), d)
      invariant MapState(was, mm.Now(), d, lo, a, f0, flags) && (a == lo ==> mm.Now() == was)
      decreases last - a
    {
      r := MapNext(mm, was, d, lo, a, last + 1, f0, f, flags);
      if r != Mapped {
        return r, a;
      }
      if a == last {
        break;
      }
      a := a + 1;
      f := f + 1;
    }
    return Mapped, a + 1;
  }

  /** mappages. next is where it stopped: behind the last page, or at the page it had no table for or
      found present. The tables it made are those that were missing before next. */
  method Mappages(mm: Memory, d: nat, va: Uint, size: Uint, pa: Uint, perm: nat) returns (r: MapResult, next: nat)
    requires mm.Valid() && IsDir(mm.Now(), d) && size > 0 && va + size <= UINT_LIMIT && pa % PGSIZE == 0 && perm < 4096
    requires pa / PGSIZE + (va + size - 1) / PGSIZE - va / PGSIZE < 0x100000
    requires FramesHeld(mm.Now(), va / PGSIZE, (va + size - 1) / PGSIZE + 1, pa / PGSIZE)
    modifies mm
    ensures va / PGSIZE <= next <= (va + size - 1) / PGSIZE + 1
    ensures r == Mapped <==> next == (va + size - 1) / PGSIZE + 1
    ensures mm.Valid() && IsDir(mm.Now(), d) && Spare(mm.Now(), d) == Spare(old(mm.Now()), d)
    ensures r == Remapped ==> Present(Pte(old(mm.Now()), d, next))
    ensures r == OutOfMemory ==> mm.free == [] && !HasTable(mm.Now(), d, next)
    ensures r == OutOfMemory && next == va / PGSIZE ==> mm.Now() == old(mm.Now())
    ensures TablesTo(old(mm.pages)[d], mm.pages[d], va / PGSIZE, next) || r == Remapped
    ensures MappedTo(old(mm.Now()), mm.Now(), d, va / PGSIZE, next, pa / PGSIZE, WithP(perm)) || r == Remapped
  {
    r, next := MapLoop(mm, d, va / PGSIZE, (va + size - 1) / PGSIZE, pa / PGSIZE, WithP(perm));
  }

  lemma WholePage(v: nat)
    ensures v * PGSIZE / PGSIZE == v && (v * PGSIZE + PGSIZE - 1) / PGSIZE == v && v * PGSIZE % PGSIZE == 0
  {
  }

  /** mappages as allocuvm and copyuvm call it: one user page for the frame in hand. */
  method MapUserPage(mm: Memory, d: nat, v: nat, f: nat, perm: nat) returns (r: MapResult)
    requires mm.Valid() && IsDir(mm.Now(), d) && v < USER_PAGES && HeldAt(mm.Now(), f) && perm < 4096
    modifies mm
    ensures mm.Valid() && IsDir(mm.Now(), d) && Spare(mm.Now(), d) == Spare(old(mm.Now()), d)
    ensures r == Remapped ==> Present(Pte(old(mm.Now()), d, v))
    ensures r == OutOfMemory ==> mm.free == [] && mm.Now() == old(mm.Now()) && !HasTable(mm.Now(), d, v)
    ensures r == OutOfMemory ==> MappedTo(old(mm.Now()), mm.Now(), d, v, v, f, WithP(perm))
    ensures r == Mapped ==> MappedTo(old(mm.Now()), mm.Now(), d, v, v + 1, f, WithP(perm))
    ensures r == Mapped ==> TablesTo(old(mm.pages)[d], mm.pages[d], v, v + 1)
  {
    WholePage(v);
    WholePage(f);
    var next: nat;
    r, next := Mappages(mm, d, v * PGSIZE, PGSIZE, f * PGSIZE, perm);
    assert next == if r == Mapped then v + 1 else v;
  }

  // ----- frames taken for an address space ----------------------------------------------------

  /** A frame's role is kept, or it was free and is now d's; frame h was free and is in hand. */
  predicate TakenAt(m: Mem, m': Mem, d: nat, h: nat, g: nat)
    requires Shaped(m) && Shaped(m') && g < NFRAMES
  {
    if g == h then m.owner[g] == Free && m'.owner[g] == Held
    else m'.owner[g] == m.owner[g] || (m.owner[g] == Free && BelongsTo(m'.owner[g], g, d))
  }

  ghost predicate Taken(m: Mem, m': Mem, d: nat, h: nat)
  {
    && Shaped(m) && Shaped(m') && SameData(m, m')
    && forall g: nat :: g < NFRAMES ==> TakenAt(m, m', d, h, g)
  }

  const NONE := NFRAMES

  /** kalloc takes a frame in hand. */
  lemma TakenPop(m: Mem, mid: Mem, d: nat)
    requires Inv(mid) && Taken(m, mid, d, NONE) && mid.freelist.Some?
    ensures mid.free != [] && mid.freelist.value < NFRAMES && Taken(m, Pop(mid), d, mid.freelist.value)
    ensures mid.owner[mid.freelist.value] == Free
  {
    PopInv(mid);
    var f := mid.freelist.value;
    assert TakenAt(m, mid, d, NONE, f);
    forall g: nat | g < NFRAMES ensures TakenAt(m, Pop(mid), d, f, g) { assert TakenAt(m, mid, d, NONE, g); }
  }

  /** Its contents are the caller's business. */
  lemma TakenSetPage(m: Mem, mid: Mem, d: nat, h: nat, p: Page)
    requires Taken(m, mid, d, h) && h < NFRAMES
    ensures Taken(m, SetPage(mid, h, p), d, h)
  {
    assert TakenAt(m, mid, d, h, h);
    forall g: nat | g < NFRAMES ensures TakenAt(m, SetPage(mid, h, p), d, h, g) { assert TakenAt(m, mid, d, h, g); }
  }

  /** kfree puts it back. */
  lemma TakenPush(m: Mem, mid: Mem, d: nat, h: nat)
    requires Taken(m, mid, d, h) && h < NFRAMES
    ensures Taken(m, Push(mid, h), d, NONE)
  {
    assert TakenAt(m, mid, d, h, h);
    forall g: nat | g < NFRAMES ensures TakenAt(m, Push(mid, h), d, NONE, g) { assert TakenAt(m, mid, d, h, g); }
  }

  /** mappages of the frame in hand at user page v, whether it went through or not. */
  lemma TakenMap(m: Mem, mid: Mem, m': Mem, d: nat, h: nat, v: nat, next: nat)
    requires Taken(m, mid, d, h) && h < NFRAMES && Inv(m') && v <= next <= v + 1 && v < USER_PAGES
    requires RolesFor(mid, m', d, v, next) && SameData(mid, m') && (next == v + 1 ==> m'.owner[h] == User(d, v))
    ensures Taken(m, m', d, if next == v + 1 then NONE else h)
  {
    assert TakenAt(m, mid, d, h, h);
    var h' := if next == v + 1 then NONE else h;
    forall g: nat | g < NFRAMES
      ensures TakenAt(m, m', d, h', g)
    {
      assert TakenAt(m, mid, d, h, g) && RoleFor(mid.owner[g], m'.owner[g], d, v, next) && Hangs(m', g) && Hangs(m', h);
    }
    forall g: nat | g < NFRAMES && (m.owner[g].User? || m.owner[g] == Held)
      ensures m'.pages[g] == m.pages[g]
    {
      assert TakenAt(m, mid, d, h, g);
    }
  }

  // ----- allocuvm -----------------------------------------------------------------------------

  predicate FreshAt(m: Mem, d: nat, u: nat)
    requires Shaped(m)
  {
    var w := Pte(m, d, u);
    Present(w) && Flags(w) == 7 && FrameOf(w) < NFRAMES && IsZero(m.pages[FrameOf(w)])
  }

  /** Pages lo to v of d are zeroed, writeable user pages, and no map is otherwise changed. */
  ghost predicate GrownMap(m: Mem, m': Mem, d: nat, lo: nat, v: nat)
  {
    && Shaped(m) && Shaped(m')
    && (forall u: nat :: lo <= u < v ==> FreshAt(m', d, u))
    && (forall c: nat, u: nat :: c < NFRAMES && IsDir(m, c) && !(c == d && lo <= u < v) ==>
       Pte(m', c, u) == Pte(m, c, u))
  }

  lemma GrownSameMaps(m: Mem, mid: Mem, m': Mem, d: nat, lo: nat, v: nat)
    requires Inv(m) && IsDir(m, d) && Inv(mid) && IsDir(mid, d) && GrownMap(m, mid, d, lo, v) && v <= USER_PAGES
    requires SameMaps(mid, m') && SameData(mid, m') && (forall c: nat :: c < NFRAMES && IsDir(m, c) ==> IsDir(mid, c))
    ensures GrownMap(m, m', d, lo, v)
  {
    forall u: nat | lo <= u < v ensures FreshAt(m', d, u) { assert FreshAt(mid, d, u) && UserAt(mid, d, u); }
    forall c: nat, u: nat | c < NFRAMES && IsDir(m, c) && !(c == d && lo <= u < v)
      ensures Pte(m', c, u) == Pte(m, c, u)
    {
      assert IsDir(mid, c);
    }
  }

  lemma GrownMore(m: Mem, mid: Mem, m': Mem, d: nat, lo: nat, v: nat, f: nat)
    requires Inv(m) && IsDir(m, d) && Inv(mid) && IsDir(mid, d) && GrownMap(m, mid, d, lo, v) && lo <= v < USER_PAGES
    requires f < NFRAMES
    requires (forall c: nat :: c < NFRAMES && IsDir(m, c) ==> IsDir(mid, c)) && mid.owner[f] == Held
    requires IsZero(mid.pages[f])
    requires MapsTo(mid, m', d, v, v + 1, f, 7) && SameData(mid, m')
    ensures GrownMap(m, m', d, lo, v + 1)
  {
    forall u: nat | lo <= u < v + 1
      ensures FreshAt(m', d, u)
    {
      if u < v { assert FreshAt(mid, d, u) && UserAt(mid, d, u) && Pte(m', d, u) == Pte(mid, d, u); }
    }
    forall c: nat, u: nat | c < NFRAMES && IsDir(m, c) && !(c == d && lo <= u < v + 1)
      ensures Pte(m', c, u) == Pte(m, c, u)
    {
      assert IsDir(mid, c) && Pte(m', c, u) == Pte(mid, c, u);
    }
  }

  lemma TakenDirs(m: Mem, m': Mem, d: nat, h: nat, c: nat)
    requires Taken(m, m', d, h) && c < NFRAMES && IsDir(m, c)
    ensures IsDir(m', c)
  {
    assert TakenAt(m, m', d, h, c);
  }

  /** Every map shows the same pages. */
  ghost predicate SamePages(m: Mem, m': Mem)
  {
    && Shaped(m) && Shaped(m')
    && forall c: nat, u: nat :: c < NFRAMES && IsDir(m, c) ==>
         Pte(m', c, u) == Pte(m, c, u) || (!Present(Pte(m', c, u)) && !Present(Pte(m, c, u)))
  }

  /** Frames keep their role, except that d may have got tables. */
  ghost predicate OnlyNewTables(m: Mem, m': Mem, d: nat, h: nat)
  {
    Taken(m, m', d, h) && forall g: nat :: g < NFRAMES && m.owner[g] == Free && g != h ==>
      m'.owner[g] == Free || m'.owner[g].Table?
  }

  /** deallocuvm after a failed growth: what allocuvm had mapped is given back. */
  lemma GrowthUndone(m: Mem, mid: Mem, m': Mem, d: nat, lo: nat, v: nat, hi: nat, h: nat)
    requires Inv(m) && IsDir(m, d) && Inv(mid) && Taken(m, mid, d, h) && GrownMap(m, mid, d, lo, v)
    requires lo <= v <= hi <= USER_PAGES
    requires forall u: nat :: lo <= u < hi ==> !Present(Pte(m, d, u))
    requires Shrunk(mid, m', d, lo, hi)
    ensures SamePages(m, m') && OnlyNewTables(m, m', d, h)
  {
    forall c: nat, u: nat | c < NFRAMES && IsDir(m, c)
      ensures Pte(m', c, u) == Pte(m, c, u) || (!Present(Pte(m', c, u)) && !Present(Pte(m, c, u)))
    {
      TakenDirs(m, mid, d, h, c);
    }
    forall g: nat | g < NFRAMES
      ensures TakenAt(m, m', d, h, g) && (m.owner[g] == Free && g != h ==> m'.owner[g] == Free || m'.owner[g].Table?)
    {
      assert TakenAt(m, mid, d, h, g) && Hangs(mid, g) && Hangs(m, g);
      UserElsewhere(m, mid, d, lo, v, h, g);
    }
    forall g: nat | g < NFRAMES && (m.owner[g].User? || m.owner[g] == Held)
      ensures m'.pages[g] == m.pages[g]
    {
      assert TakenAt(m, mid, d, h, g);
      UserElsewhere(m, mid, d, lo, v, h, g);
      assert Hangs(m, g);
    }
  }

  /** A user page of d outside the pages being added has the role it had. */
  lemma UserElsewhere(m: Mem, mid: Mem, d: nat, lo: nat, v: nat, h: nat, g: nat)
    requires Inv(m) && IsDir(m, d) && Inv(mid) && Taken(m, mid, d, h) && GrownMap(m, mid, d, lo, v) && g < NFRAMES
    ensures mid.owner[g].User? && mid.owner[g].d == d && !(lo <= mid.owner[g].v < v) ==> m.owner[g] == mid.owner[g]
  {
    if mid.owner[g].User? && mid.owner[g].d == d && !(lo <= mid.owner[g].v < v) {
      assert Hangs(mid, g) && Pte(mid, d, mid.owner[g].v) == Pte(m, d, mid.owner[g].v) && UserAt(m, d, mid.owner[g].v);
    }
  }

  /** Filling the frame in hand does not show in any map. */
  lemma GrownZeroed(m: Mem, m1: Mem, m2: Mem, d: nat, lo: nat, v: nat, h: nat)
    requires Inv(m) && IsDir(m, d) && Inv(m1) && IsDir(m1, d) && GrownMap(m, m1, d, lo, v) && v <= USER_PAGES
    requires h < NFRAMES && m1.owner[h] == Held && SameMaps(m1, m2) && m2 == SetPage(m1, h, m2.pages[h])
    requires forall c: nat :: c < NFRAMES && IsDir(m, c) ==> IsDir(m1, c)
    ensures GrownMap(m, m2, d, lo, v)
  {
    forall u: nat | lo <= u < v ensures FreshAt(m2, d, u) { assert FreshAt(m1, d, u) && UserAt(m1, d, u); }
    forall c: nat, u: nat | c < NFRAMES && IsDir(m, c) && !(c == d && lo <= u < v)
      ensures Pte(m2, c, u) == Pte(m, c, u)
    {
      assert IsDir(m1, c);
    }
  }

  lemma TakenAfterMap(m: Mem, mid: Mem, m': Mem, d: nat, lo: nat, v: nat, next: nat, h: nat)
    requires Inv(m) && IsDir(m, d) && Inv(mid) && IsDir(mid, d) && Inv(m') && IsDir(m', d) && lo <= v < USER_PAGES
    requires h < NFRAMES && v <= next <= v + 1
    requires Taken(m, mid, d, h) && GrownMap(m, mid, d, lo, v) && IsZero(mid.pages[h])
    requires MappedTo(mid, m', d, v, next, h, 7)
    ensures Taken(m, m', d, if next == v + 1 then NONE else h) && GrownMap(m, m', d, lo, next)
  {
    forall c: nat | c < NFRAMES && IsDir(m, c) ensures IsDir(mid, c) { TakenDirs(m, mid, d, h, c); }
    assert TakenAt(m, mid, d, h, h);
    if next == v + 1 {
      EntryParts(h, 7);
      assert Pte(m', d, v) == MakeEntry(h, 7) && UserAt(m', d, v);
      GrownMore(m, mid, m', d, lo, v, h);
    } else {
      assert SameMaps(mid, m');
      GrownSameMaps(m, mid, m', d, lo, v);
    }
    TakenMap(m, mid, m', d, h, v, next);
  }

  datatype GrowResult = Grown(sz: nat) | NoMemory | Panic

  /** kalloc and memset, seen from the beginning of the growth. */
  lemma TakenZeroed(was: Mem, m: Mem, d: nat, lo: nat, v: nat)
    requires Inv(m) && Inv(was) && IsDir(was, d) && IsDir(m, d) && lo <= v < USER_PAGES && m.freelist.Some?
    requires Taken(was, m, d, NONE) && GrownMap(was, m, d, lo, v)
    ensures m.free != [] && m.freelist.value < NFRAMES
    ensures var h := m.freelist.value; var m' := SetPage(Pop(m), h, Filled(1024, 0));
            Inv(m') && IsDir(m', d) && Taken(was, m', d, h) && GrownMap(was, m', d, lo, v) && HeldAt(m', h)
  {
    PopInv(m);
    TakenPop(was, m, d);
    var h, m1 := m.freelist.value, Pop(m);
    var m' := SetPage(m1, h, Filled(1024, 0));
    SetPageInv(m1, h, Filled(1024, 0));
    TakenSetPage(was, m1, d, h, Filled(1024, 0));
    forall c: nat | c < NFRAMES && IsDir(was, c)
      ensures IsDir(m, c) && IsDir(m1, c)
    {
      TakenDirs(was, m, d, NONE, c);
      TakenDirs(was, m1, d, h, c);
    }
    GrownSameMaps(was, m, m1, d, lo, v);
    GrownZeroed(was, m1, m', d, lo, v, h);
  }

  // ----- how many frames it takes, and which a failure keeps ----------------------------------

  /** The frames for pages lo to hi of d: the pages, and the tables they lack. */
  function FramesToGrow(m: Mem, d: nat, lo: nat, hi: nat): (n: int)
    requires d < |m.pages| && hi <= NENTRIES * NENTRIES && lo <= hi
  {
    hi - lo + Absent(m.pages[d], lo / NENTRIES, SlotEnd(lo, hi))
  }

  /** The first of the pages v to hi without a table; hi if they all have one. */
  function FirstWithout(p: Page, v: nat, hi: nat): (r: nat)
    requires v <= hi <= NENTRIES * NENTRIES
    ensures v <= r <= hi && (r < hi ==> !Present(p[r / NENTRIES]))
    ensures forall u: nat :: v <= u < r ==> Present(p[u / NENTRIES])
    decreases hi - v
  {
    if v == hi || !Present(p[v / NENTRIES]) then v else FirstWithout(p, v + 1, hi)
  }

  /** A failing growth reaches a page without a table, with a frame for the page and one for its table. */
  predicate LeavesTable(m: Mem, d: nat, lo: nat, hi: nat)
    requires d < |m.pages| && lo <= hi <= NENTRIES * NENTRIES
  {
    var first := FirstWithout(m.pages[d], lo, hi);
    first < hi && |m.free| >= first - lo + 2
  }

  /** Pages lo to v have their tables and a frame each. */
  ghost predicate Growing(was: Mem, m: Mem, d: nat, lo: nat, v: nat)
    requires lo <= v <= NENTRIES * NENTRIES
  {
    && Shaped(was) && Shaped(m) && d < NFRAMES
    && TablesTo(was.pages[d], m.pages[d], lo, v) && Spare(m, d) == Spare(was, d) - (v - lo)
  }

  /** The state of allocuvm at page v. */
  ghost predicate GrownTo(was: Mem, m: Mem, d: nat, lo: nat, v: nat)
    requires lo <= v <= NENTRIES * NENTRIES
  {
    Taken(was, m, d, NONE) && GrownMap(was, m, d, lo, v) && Growing(was, m, d, lo, v)
  }

  lemma GrowingMore(was: Mem, mid: Mem, m: Mem, d: nat, lo: nat, v: nat)
    requires lo <= v < NENTRIES * NENTRIES && Growing(was, mid, d, lo, v) && Shaped(m)
    requires TablesTo(mid.pages[d], m.pages[d], v, v + 1) && Spare(m, d) == Spare(mid, d) - 1
    ensures Growing(was, m, d, lo, v + 1)
  {
    TablesMore(was.pages[d], mid.pages[d], m.pages[d], lo, v);
  }

  /** The frames taken so far. */
  lemma GrowingCount(was: Mem, m: Mem, d: nat, lo: nat, v: nat)
    requires lo <= v <= NENTRIES * NENTRIES && Growing(was, m, d, lo, v)
    ensures |was.free| == |m.free| + (v - lo) + Absent(was.pages[d], lo / NENTRIES, SlotEnd(lo, v))
  {
    var i, j := lo / NENTRIES, SlotEnd(lo, v);
    if i <= j <= NENTRIES {
      AbsentGrown(was.pages[d], m.pages[d], i, j);
      AbsentNone(m.pages[d], i, j);
    }
  }

  lemma GrowthDone(was: Mem, m: Mem, d: nat, lo: nat, hi: nat)
    requires lo <= hi <= NENTRIES * NENTRIES && Growing(was, m, d, lo, hi)
    ensures FramesToGrow(was, d, lo, hi) <= |was.free|
  {
    GrowingCount(was, m, d, lo, hi);
  }

  /** A failure at page v: too few frames, and a table was made exactly if LeavesTable says so. */
  lemma GrowthStopped(was: Mem, m: Mem, d: nat, lo: nat, v: nat, hi: nat, h: nat)
    requires lo <= v < hi <= NENTRIES * NENTRIES && Growing(was, m, d, lo, v)
    requires |m.free| == if h == NONE then 0 else 1
    requires h != NONE ==> !HasTable(m, d, v)
    ensures FramesToGrow(was, d, lo, hi) > |was.free|
    ensures m.pages[d] == was.pages[d] <==> !LeavesTable(was, d, lo, hi)
    ensures DirGrown(was.pages[d], m.pages[d], 0, NENTRIES)
  {
    var p, i, j, k := was.pages[d], lo / NENTRIES, SlotEnd(lo, v), SlotEnd(lo, hi);
    GrowingCount(was, m, d, lo, v);
    AbsentSplit(p, i, j, k);
    var first := FirstWithout(p, lo, hi);
    if h != NONE {
      assert v / NENTRIES >= j;
      AbsentNone(p, j, k);
    }
    AbsentNone(p, i, j);
    if v <= first {
      SlotsBefore(p, lo, v);
      assert m.pages[d] == p;
    } else {
      assert first / NENTRIES < j;
    }
  }

  lemma SlotsBefore(p: Page, lo: nat, v: nat)
    requires lo <= v <= NENTRIES * NENTRIES && forall u: nat :: lo <= u < v ==> Present(p[u / NENTRIES])
    ensures AllPresent(p, lo / NENTRIES, SlotEnd(lo, v))
  {
    forall k | lo / NENTRIES <= k < SlotEnd(lo, v)
      ensures Present(p[k])
    {
      var u := if k * NENTRIES < lo then lo else k * NENTRIES;
      assert lo <= u < v && u / NENTRIES == k;
    }
  }

  /** Some frame has become a table. */
  ghost predicate NewTables(was: Mem, m: Mem)
    requires Shaped(was) && Shaped(m)
  {
    exists g: nat :: g < NFRAMES && m.owner[g].Table? && was.owner[g] == Free
  }

  /** Tables are what d's directory says. */
  lemma TablesAreRoles(was: Mem, m: Mem, d: nat, h: nat)
    requires Inv(was) && Inv(m) && IsDir(was, d) && IsDir(m, d) && Taken(was, m, d, h)
    requires DirGrown(was.pages[d], m.pages[d], 0, NENTRIES)
    ensures NewTables(was, m) <==> m.pages[d] != was.pages[d]
  {
    if m.pages[d] == was.pages[d] {
      forall g: nat | g < NFRAMES && m.owner[g].Table?
        ensures was.owner[g] != Free
      {
        assert TakenAt(was, m, d, h, g) && Hangs(m, g);
        assert DirAt(was, d, m.owner[g].i);
      }
    } else {
      var i :| 0 <= i < NENTRIES && m.pages[d][i] != was.pages[d][i];
      var g := FrameOf(m.pages[d][i]);
      assert DirAt(m, d, i) && TakenAt(was, m, d, h, g) && Hangs(was, g);
      assert m.owner[g].Table? && was.owner[g] == Free;
    }
  }

  /** Giving pages back keeps the tables, so that they alone tell the roles apart. */
  lemma TablesStay(was: Mem, mid: Mem, m: Mem, d: nat)
    requires Shaped(was) && Shaped(mid) && OnlyNewTables(was, m, d, NONE)
    requires forall g: nat :: g < NFRAMES ==> (m.owner[g].Table? <==> mid.owner[g].Table?)
    ensures m.owner == was.owner <==> !NewTables(was, mid)
  {
    forall g: nat | g < NFRAMES
      ensures m.owner[g] == was.owner[g] || (m.owner[g].Table? && was.owner[g] == Free)
    {
      assert TakenAt(was, m, d, NONE, g);
    }
    if m.owner != was.owner {
      var g: nat :| g < NFRAMES && m.owner[g] != was.owner[g];
      assert mid.owner[g].Table? && was.owner[g] == Free;
    }
  }

  /** One round of allocuvm's loop: a zeroed page at v. h is a frame left in hand on failure. */
  method GrowPage(mm: Memory, ghost was: Mem, d: nat, ghost lo: nat, v: nat) returns (r: MapResult, h: nat)
    requires mm.Valid() && Inv(was) && IsDir(was, d) && IsDir(mm.Now(), d) && lo <= v < USER_PAGES
    requires Taken(was, mm.Now(), d, NONE) && GrownMap(was, mm.Now(), d, lo, v)
    modifies mm
    ensures mm.Valid() && IsDir(mm.Now(), d) && h <= NONE
    ensures r == Remapped ==> Present(Pte(was, d, v))
    ensures r == Mapped ==> h == NONE && Taken(was, mm.Now(), d, NONE) && GrownMap(was, mm.Now(), d, lo, v + 1)
    ensures r == OutOfMemory ==> mm.free == [] && Taken(was, mm.Now(), d, h) && GrownMap(was, mm.Now(), d, lo, v)
    ensures r == Mapped ==>
            Spare(mm.Now(), d) == Spare(old(mm.Now()), d) - 1 && TablesTo(old(mm.pages)[d], mm.pages[d], v, v + 1)
    ensures r == OutOfMemory ==> mm.pages[d] == old(mm.pages)[d] && |old(mm.free)| == if h == NONE then 0 else 1
    ensures r == OutOfMemory && h != NONE ==> !HasTable(mm.Now(), d, v)
  {
    ghost var m0 := mm.Now();
    var mem := mm.Kalloc();
    if mem == None {
      return OutOfMemory, NONE;
    }
    h := mem.value;
    TakenZeroed(was, m0, d, lo, v);
    mm.pages := mm.pages[h := Filled(1024, 0)];
    ghost var m1 := mm.Now();
    r := MapUserPage(mm, d, v, h, 6);
    if r == Mapped {
      TakenAfterMap(was, m1, mm.Now(), d, lo, v, v + 1, h);
      h := NONE;
    } else if r == OutOfMemory {
      TakenAfterMap(was, m1, mm.Now(), d, lo, v, v, h);
    }
  }

  /** allocuvm. Success maps a fresh zeroed page for every new page number; failure leaves every map
      showing what it showed, and takes no frame but for d's tables. It succeeds exactly if the free
      frames are enough, and a failure keeps every frame's role exactly if it made no table. */
  method Allocuvm(mm: Memory, d: nat, oldsz: Uint, newsz: Uint) returns (r: GrowResult)
    requires mm.Valid() && IsDir(mm.Now(), d)
    requires newsz < KERNBASE ==> forall u: nat :: PageUp(oldsz) <= u < PageUp(newsz) ==> !Present(Pte(mm.Now(), d, u))
    modifies mm
    ensures mm.Valid() && IsDir(mm.Now(), d) && r != Panic
    ensures newsz >= KERNBASE ==> r == NoMemory
    ensures newsz < KERNBASE && newsz < oldsz ==> r == Grown(oldsz)
    ensures newsz >= KERNBASE || newsz < oldsz ==> mm.Now() == old(mm.Now())
    ensures r.Grown? && newsz >= oldsz ==>
              && r.sz == newsz && Taken(old(mm.Now()), mm.Now(), d, NONE)
              && GrownMap(old(mm.Now()), mm.Now(), d, PageUp(oldsz), PageUp(newsz))
    ensures r == NoMemory ==> SamePages(old(mm.Now()), mm.Now()) && OnlyNewTables(old(mm.Now()), mm.Now(), d, NONE)
    ensures oldsz <= newsz < KERNBASE ==>
              (r.Grown? <==> FramesToGrow(old(mm.Now()), d, PageUp(oldsz), PageUp(newsz)) <= |old(mm.free)|)
    ensures r == NoMemory && newsz < KERNBASE ==>
              (mm.owner == old(mm.owner) <==> !LeavesTable(old(mm.Now()), d, PageUp(oldsz), PageUp(newsz)))
  {
    if newsz >= KERNBASE {
      return NoMemory;
    }
    if newsz < oldsz {
      return Grown(oldsz);
    }
    r := GrowLoop(mm, d, oldsz, newsz);
  }

  /** allocuvm's loop. */
  method GrowLoop(mm: Memory, d: nat, oldsz: Uint, newsz: Uint) returns (r: GrowResult)
    requires mm.Valid() && IsDir(mm.Now(), d) && oldsz <= newsz < KERNBASE
    requires forall u: nat :: PageUp(oldsz) <= u < PageUp(newsz) ==> !Present(Pte(mm.Now(), d, u))
    modifies mm
    ensures mm.Valid() && IsDir(mm.Now(), d) && r != Panic
    ensures r.Grown? ==> r.sz == newsz && GrownTo(old(mm.Now()), mm.Now(), d, PageUp(oldsz), PageUp(newsz))
    ensures r == NoMemory ==> SamePages(old(mm.Now()), mm.Now()) && OnlyNewTables(old(mm.Now()), mm.Now(), d, NONE)
    ensures r.Grown? <==> FramesToGrow(old(mm.Now()), d, PageUp(oldsz), PageUp(newsz)) <= |old(mm.free)|
    ensures r == NoMemory ==>
              (mm.owner == old(mm.owner) <==> !LeavesTable(old(mm.Now()), d, PageUp(oldsz), PageUp(newsz)))
  {
    ghost var was := mm.Now();
    ghost var lo, hi := PageUp(oldsz), PageUp(newsz);
    var v := PageUp(oldsz);
    while v * PGSIZE < newsz
      invariant lo <= v <= hi && mm.Valid() && IsDir(mm.Now(), d) && GrownTo(was, mm.Now(), d, lo, v)
    {
      ghost var before := mm.Now();
      var m, h := GrowPage(mm, was, d, lo, v);
      if m == Remapped {
        return Panic;
      }
      if m == OutOfMemory {
        GrowthStopped(was, before, d, lo, v, hi, h);
        UndoGrowth(mm, was, d, oldsz, newsz, v, h);
        return NoMemory;
      }
      GrowingMore(was, before, mm.Now(), d, lo, v);
      v := v + 1;
    }
    GrowthDone(was, mm.Now(), d, lo, hi);
    return Grown(newsz);
  }

  /** allocuvm's way out when memory runs out: deallocuvm, and kfree of a frame in hand. */
  method UndoGrowth(mm: Memory, ghost was: Mem, d: nat, oldsz: Uint, newsz: Uint, ghost v: nat, h: nat)
    requires mm.Valid() && Inv(was) && IsDir(was, d) && IsDir(mm.Now(), d) && h <= NONE && oldsz <= newsz < KERNBASE
    requires PageUp(oldsz) <= v <= PageUp(newsz) && Taken(was, mm.Now(), d, h)
    requires GrownMap(was, mm.Now(), d, PageUp(oldsz), v)
    requires forall u: nat :: PageUp(oldsz) <= u < PageUp(newsz) ==> !Present(Pte(was, d, u))
    requires DirGrown(was.pages[d], mm.pages[d], 0, NENTRIES)
    modifies mm
    ensures mm.Valid() && IsDir(mm.Now(), d) && SamePages(was, mm.Now()) && OnlyNewTables(was, mm.Now(), d, NONE)
    ensures mm.owner == was.owner <==> old(mm.pages)[d] == was.pages[d]
  {
    ghost var mid := mm.Now();
    TablesAreRoles(was, mid, d, h);
    var ok, sz := mm.Deallocuvm(d, newsz, oldsz);
    GrowthUndone(was, mid, mm.Now(), d, PageUp(oldsz), v, PageUp(newsz), h);
    if h != NONE {
      assert TakenAt(was, mid, d, h, h);
      ReleaseHeld(mm, was, d, h);
    }
    TablesStay(was, mid, mm.Now(), d);
  }

  /** The frame left in hand goes back too. */
  method ReleaseHeld(mm: Memory, ghost was: Mem, d: nat, h: nat)
    requires mm.Valid() && Inv(was) && IsDir(mm.Now(), d) && h < NFRAMES && SamePages(was, mm.Now())
    requires OnlyNewTables(was, mm.Now(), d, h)
    modifies mm
    ensures mm.Valid() && IsDir(mm.Now(), d) && SamePages(was, mm.Now()) && OnlyNewTables(was, mm.Now(), d, NONE)
    ensures mm.owner == old(mm.owner)[h := Free]
  {
    ghost var mid := mm.Now();
    assert TakenAt(was, mid, d, h, h);
    PushInv(mid, h);
    TakenPush(was, mid, d, h);
    var ok := mm.FreeFrame(h);
    forall c: nat, u: nat | c < NFRAMES && IsDir(was, c)
      ensures Pte(mm.Now(), c, u) == Pte(mid, c, u)
    {
      TakenDirs(was, mid, d, h, c);
    }
  }
}

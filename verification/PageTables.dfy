/** Physical pages, the free list of kalloc.c and the two-level page tables of vm.c as a value, with
    an invariant that gives every page frame one role. */
module PageTables {
  import opened Collections
  import opened Layout

  const NFRAMES := 57344       // PHYSTOP / PGSIZE
  const NENTRIES := 1024       // NPDENTRIES and NPTENTRIES
  const USER_PAGES := 524288   // KERNBASE / PGSIZE
  const PGSIZE := 4096
  const KERNBASE := 0x80000000

  /** A page, read as 32-bit words. */
  type Page = p: seq<Uint> | |p| == 1024 witness Filled(1024, 0)

  function Filled(n: nat, w: Uint): (r: seq<Uint>)
    ensures |r| == n && forall k :: 0 <= k < n ==> r[k] == w
  {
    if n == 0 then [] else Filled(n - 1, w) + [w]
  }

  /** What a frame is used for: on the free list, a page directory, the table behind entry i of
      directory d, user page v of directory d, in the hands of the allocating code, or the kernel's. */
  datatype Role = Free | Dir | Table(d: nat, i: nat) | User(d: nat, v: nat) | Held | Kernel

  /** free and owner are history: the frames on the free list in order, and every frame's role. */
  datatype Mem = Mem(pages: seq<Page>, freelist: Option<nat>, free: seq<nat>, owner: seq<Role>)

  // ----- entries ------------------------------------------------------------------------------

  predicate Present(w: Uint) { w % 2 == 1 }

  function FrameOf(w: Uint): (r: nat) { w / 4096 }

  function Flags(w: Uint): (r: nat) { w % 4096 }

  function MakeEntry(f: nat, flags: nat): (w: Uint)
    requires f < 0x100000 && flags < 4096
  {
    f * 4096 + flags
  }

  lemma EntryParts(f: nat, flags: nat)
    requires f < 0x100000 && flags < 4096
    ensures FrameOf(MakeEntry(f, flags)) == f && Flags(MakeEntry(f, flags)) == flags
    ensures Present(MakeEntry(f, flags)) == (flags % 2 == 1)
  {
  }

  /** The word of directory d's table for page v; 0 if there is no table. */
  function Pte(m: Mem, d: nat, v: nat): (w: Uint)
  {
    if d < |m.pages| && v < NENTRIES * NENTRIES && Present(m.pages[d][v / NENTRIES])
       && FrameOf(m.pages[d][v / NENTRIES]) < |m.pages|
    then m.pages[FrameOf(m.pages[d][v / NENTRIES])][v % NENTRIES]
    else 0
  }

  /** How many of the entries i to j of a directory page lack a table. */
  function Absent(p: Page, i: nat, j: nat): (r: nat)
    requires j <= NENTRIES
    decreases j - i
  {
    if i >= j then 0 else Absent(p, i + 1, j) + if Present(p[i]) then 0 else 1
  }

  lemma {:induction false} AbsentSplit(p: Page, i: nat, j: nat, k: nat)
    requires i <= j <= k <= NENTRIES
    ensures Absent(p, i, k) == Absent(p, i, j) + Absent(p, j, k)
    decreases j - i
  {
    if i < j {
      AbsentSplit(p, i + 1, j, k);
    }
  }

  lemma {:induction false} AbsentSame(p: Page, p': Page, i: nat, j: nat)
    requires j <= NENTRIES && forall k :: i <= k < j ==> (Present(p'[k]) <==> Present(p[k]))
    ensures Absent(p', i, j) == Absent(p, i, j)
    decreases j - i
  {
    if i < j {
      AbsentSame(p, p', i + 1, j);
    }
  }

  /** None is absent exactly if all are present. */
  lemma {:induction false} AbsentNone(p: Page, i: nat, j: nat)
    requires j <= NENTRIES
    ensures Absent(p, i, j) == 0 <==> forall k :: i <= k < j ==> Present(p[k])
    decreases j - i
  {
    if i < j {
      AbsentNone(p, i + 1, j);
    }
  }

  /** From p to p', entries a to b that lacked a table may have got one. */
  predicate DirGrown(p: Page, p': Page, a: nat, b: nat)
  {
    forall i :: 0 <= i < NENTRIES ==> p'[i] == p[i] || (a <= i < b && !Present(p[i]) && Present(p'[i]))
  }

  /** What has become of the absent ones. */
  lemma AbsentGrown(p: Page, p': Page, a: nat, b: nat)
    requires a <= b <= NENTRIES && DirGrown(p, p', a, b)
    ensures Absent(p', 0, NENTRIES) == Absent(p, 0, NENTRIES) - Absent(p, a, b) + Absent(p', a, b)
  {
    AbsentSplit(p, 0, a, NENTRIES);
    AbsentSplit(p, a, b, NENTRIES);
    AbsentSplit(p', 0, a, NENTRIES);
    AbsentSplit(p', a, b, NENTRIES);
    AbsentSame(p, p', 0, a);
    AbsentSame(p, p', b, NENTRIES);
  }

  /** The free frames beyond those that would give every entry of directory d a table. */
  function Spare(m: Mem, d: nat): (r: int)
  {
    |m.free| - if d < |m.pages| then Absent(m.pages[d], 0, NENTRIES) else 0
  }

  predicate Shaped(m: Mem) { |m.pages| == |m.owner| == NFRAMES }

  // ----- the invariant ------------------------------------------------------------------------

  /** The link kfree stores in a free page: a kernel virtual address, or null. */
  function LinkWord(f: Option<nat>): (w: Uint)
  {
    if f.Some? && f.value < NFRAMES then KERNBASE + f.value * PGSIZE else 0
  }

  function At(q: seq<nat>, k: nat): (r: Option<nat>)
  {
    if k < |q| then Some(q[k]) else None
  }

  predicate FreeAt(m: Mem, k: nat)
    requires Shaped(m) && k < |m.free|
  {
    && m.free[k] < NFRAMES && m.owner[m.free[k]] == Free
    && m.pages[m.free[k]][0] == LinkWord(At(m.free, k + 1))
  }

  ghost predicate FreeOk(m: Mem)
    requires Shaped(m)
  {
    && m.freelist == At(m.free, 0) && Distinct(m.free)
    && (forall k :: 0 <= k < |m.free| ==> FreeAt(m, k))
    && (forall f :: 0 <= f < NFRAMES && m.owner[f] == Free ==> f in m.free)
  }

  predicate DirAt(m: Mem, d: nat, i: nat)
    requires Shaped(m) && d < NFRAMES && i < NENTRIES
  {
    Present(m.pages[d][i]) ==> FrameOf(m.pages[d][i]) < NFRAMES && m.owner[FrameOf(m.pages[d][i])] == Table(d, i)
  }

  predicate UserAt(m: Mem, d: nat, v: nat)
    requires Shaped(m) && d < NFRAMES && v < USER_PAGES
  {
    Present(Pte(m, d, v)) ==> FrameOf(Pte(m, d, v)) < NFRAMES && m.owner[FrameOf(Pte(m, d, v))] == User(d, v)
  }

  predicate IsDir(m: Mem, d: nat)
    requires Shaped(m)
  {
    d < NFRAMES && m.owner[d] == Dir
  }

  /** A table or user frame hangs where its role says. */
  predicate Hangs(m: Mem, f: nat)
    requires Shaped(m) && f < NFRAMES
  {
    match m.owner[f]
    case Table(d, i) => IsDir(m, d) && i < NENTRIES && Present(m.pages[d][i]) && FrameOf(m.pages[d][i]) == f
    case User(d, v) => IsDir(m, d) && v < USER_PAGES && Present(Pte(m, d, v)) && FrameOf(Pte(m, d, v)) == f
    case _ => true
  }

  /** Free list, tables, user pages and directories are exactly the frames with those roles. */
  ghost predicate Inv(m: Mem)
  {
    && Shaped(m) && FreeOk(m)
    && (forall d: nat, i: nat :: d < NFRAMES && i < NENTRIES && IsDir(m, d) ==> DirAt(m, d, i))
    && (forall d: nat, v: nat :: d < NFRAMES && v < USER_PAGES && IsDir(m, d) ==> UserAt(m, d, v))
    && (forall f: nat :: f < NFRAMES ==> Hangs(m, f))
  }

  // ----- frames come and go -------------------------------------------------------------------

  /** The frame a link stored in a free page leads to. */
  function Follow(w: Uint): (r: Option<nat>)
  {
    if w < KERNBASE then None else Some((w - KERNBASE) / PGSIZE)
  }

  function Pop(m: Mem): (r: Mem)
    requires Shaped(m) && m.freelist.Some? && m.freelist.value < NFRAMES && m.free != []
  {
    var f := m.freelist.value;
    m.(freelist := Follow(m.pages[f][0]), free := m.free[1..], owner := m.owner[f := Held])
  }

  function Junk(next: Option<nat>): (p: Page) { Filled(1024, 0x01010101)[0 := LinkWord(next)] }

  function Push(m: Mem, f: nat): (r: Mem)
    requires Shaped(m) && f < NFRAMES
  {
    Mem(m.pages[f := Junk(m.freelist)], Some(f), [f] + m.free, m.owner[f := Free])
  }

  function SetPage(m: Mem, f: nat, p: Page): (r: Mem)
    requires f < |m.pages|
  {
    m.(pages := m.pages[f := p])
  }

  /** The page tables of every directory read the same. */
  ghost predicate SameMaps(m: Mem, m': Mem)
  {
    && Shaped(m) && Shaped(m')
    && (forall d: nat, v: nat :: d < NFRAMES && IsDir(m, d) ==> Pte(m', d, v) == Pte(m, d, v))
  }

  lemma PopFree(m: Mem)
    requires Inv(m) && m.freelist.Some?
    ensures m.free != [] && m.freelist.value == m.free[0] < NFRAMES && m.owner[m.free[0]] == Free
    ensures FreeOk(Pop(m))
  {
    assert FreeAt(m, 0);
    var f := m.free[0];
    var m' := Pop(m);
    assert |m.free| > 1 ==> FreeAt(m, 1);
    forall k | 0 <= k < |m'.free| ensures FreeAt(m', k) { assert FreeAt(m, k + 1); }
    forall g | 0 <= g < NFRAMES && m'.owner[g] == Free
      ensures g in m'.free
    {
      assert g in m.free && g != f;
      var k := IndexOf(m.free, g);
      assert m'.free[k - 1] == g;
    }
  }

  lemma PopInv(m: Mem)
    requires Inv(m) && m.freelist.Some?
    ensures m.free != [] && m.freelist.value == m.free[0] < NFRAMES && m.owner[m.free[0]] == Free
    ensures Inv(Pop(m)) && SameMaps(m, Pop(m))
  {
    PopFree(m);
    var m' := Pop(m);
    forall d: nat, v: nat ensures Pte(m', d, v) == Pte(m, d, v) {}
    forall d: nat, i: nat | d < NFRAMES && i < NENTRIES && IsDir(m', d)
      ensures DirAt(m', d, i)
    {
      assert IsDir(m, d) && DirAt(m, d, i);
    }
    forall d: nat, v: nat | d < NFRAMES && v < USER_PAGES && IsDir(m', d)
      ensures UserAt(m', d, v)
    {
      assert IsDir(m, d) && UserAt(m, d, v);
    }
    forall f: nat | f < NFRAMES ensures Hangs(m', f) { assert Hangs(m, f); }
  }

  /** A frame that is no directory and no table can be overwritten without any map noticing. */
  lemma PageMaps(m: Mem, f: nat, p: Page)
    requires Inv(m) && f < NFRAMES && !m.owner[f].Dir? && !m.owner[f].Table?
    ensures SameMaps(m, SetPage(m, f, p))
  {
    forall d: nat, v: nat | d < NFRAMES && IsDir(m, d)
      ensures Pte(SetPage(m, f, p), d, v) == Pte(m, d, v)
    {
      if v < NENTRIES * NENTRIES { assert DirAt(m, d, v / NENTRIES); }
    }
  }

  lemma PushFree(m: Mem, f: nat)
    requires Inv(m) && f < NFRAMES && m.owner[f] == Held
    ensures FreeOk(Push(m, f))
  {
    var m' := Push(m, f);
    assert f !in m.free by { forall k | 0 <= k < |m.free| ensures m.free[k] != f { assert FreeAt(m, k); } }
    assert m.free != [] ==> FreeAt(m, 0);
    assert FreeAt(m', 0);
    forall k | 0 <= k < |m'.free| ensures FreeAt(m', k) { if k > 0 { assert FreeAt(m, k - 1); } }
    forall g | 0 <= g < NFRAMES && m'.owner[g] == Free
      ensures g in m'.free
    {
      if g != f { assert g in m.free; }
    }
  }

  lemma PushInv(m: Mem, f: nat)
    requires Inv(m) && f < NFRAMES && m.owner[f] == Held
    ensures Inv(Push(m, f)) && SameMaps(m, Push(m, f))
  {
    PushFree(m, f);
    var m' := Push(m, f);
    PageMaps(m, f, Junk(m.freelist));
    assert forall d: nat, v: nat :: Pte(m', d, v) == Pte(SetPage(m, f, Junk(m.freelist)), d, v);
    forall d: nat, i: nat | d < NFRAMES && i < NENTRIES && IsDir(m', d)
      ensures DirAt(m', d, i)
    {
      assert IsDir(m, d) && DirAt(m, d, i);
    }
    forall d: nat, v: nat | d < NFRAMES && v < USER_PAGES && IsDir(m', d)
      ensures UserAt(m', d, v)
    {
      assert IsDir(m, d) && UserAt(m, d, v);
    }
    forall g: nat | g < NFRAMES ensures Hangs(m', g) { assert Hangs(m, g); }
  }

  lemma SetPageInv(m: Mem, f: nat, p: Page)
    requires Inv(m) && f < NFRAMES && (m.owner[f] == Held || m.owner[f].User?)
    ensures Inv(SetPage(m, f, p)) && SameMaps(m, SetPage(m, f, p))
  {
    var m' := SetPage(m, f, p);
    PageMaps(m, f, p);
    forall k | 0 <= k < |m.free| ensures FreeAt(m', k) { assert FreeAt(m, k); }
    forall d: nat, i: nat | d < NFRAMES && i < NENTRIES && IsDir(m', d)
      ensures DirAt(m', d, i)
    {
      assert IsDir(m, d) && DirAt(m, d, i);
    }
    forall d: nat, v: nat | d < NFRAMES && v < USER_PAGES && IsDir(m', d)
      ensures UserAt(m', d, v)
    {
      assert IsDir(m, d) && UserAt(m, d, v);
    }
    forall g: nat | g < NFRAMES ensures Hangs(m', g) { assert Hangs(m, g); }
  }

  // ----- directories, tables and entries ------------------------------------------------------

  predicate IsZero(p: Page) { forall k :: 0 <= k < NENTRIES ==> p[k] == 0 }

  lemma NewDirInv(m: Mem, d: nat)
    requires Inv(m) && d < NFRAMES && m.owner[d] == Held && IsZero(m.pages[d])
    ensures Inv(m.(owner := m.owner[d := Dir])) && SameMaps(m, m.(owner := m.owner[d := Dir]))
    ensures forall v: nat :: Pte(m, d, v) == 0
  {
    var m' := m.(owner := m.owner[d := Dir]);
    forall c: nat, v: nat ensures Pte(m', c, v) == Pte(m, c, v) {}
    forall k | 0 <= k < |m.free| ensures FreeAt(m', k) { assert FreeAt(m, k); }
    forall c: nat, i: nat | c < NFRAMES && i < NENTRIES && IsDir(m', c)
      ensures DirAt(m', c, i)
    {
      if c != d { assert IsDir(m, c) && DirAt(m, c, i); }
    }
    forall c: nat, v: nat | c < NFRAMES && v < USER_PAGES && IsDir(m', c)
      ensures UserAt(m', c, v)
    {
      if c != d { assert IsDir(m, c) && UserAt(m, c, v); }
    }
    forall g: nat | g < NFRAMES ensures Hangs(m', g) { assert Hangs(m, g); }
  }

  /** Zeroed frame t becomes the table of entry i of directory d, present, writeable and user. */
  function NewTable(m: Mem, d: nat, i: nat, t: nat): (r: Mem)
    requires Shaped(m) && d < NFRAMES && i < NENTRIES && t < NFRAMES
  {
    m.(pages := m.pages[d := m.pages[d][i := MakeEntry(t, 7)]], owner := m.owner[t := Table(d, i)])
  }

  lemma NewTableMaps(m: Mem, d: nat, i: nat, t: nat)
    requires Inv(m) && IsDir(m, d) && i < NENTRIES && !Present(m.pages[d][i]) && t < NFRAMES && m.owner[t] == Held
    requires IsZero(m.pages[t])
    ensures SameMaps(m, NewTable(m, d, i, t))
  {
    var m' := NewTable(m, d, i, t);
    EntryParts(t, 7);
    forall c: nat, v: nat | c < NFRAMES && IsDir(m, c)
      ensures Pte(m', c, v) == Pte(m, c, v)
    {
      if v < NENTRIES * NENTRIES { assert DirAt(m, c, v / NENTRIES); }
    }
  }

  lemma NewTableInv(m: Mem, d: nat, i: nat, t: nat)
    requires Inv(m) && IsDir(m, d) && i < NENTRIES && !Present(m.pages[d][i]) && t < NFRAMES && m.owner[t] == Held
    requires IsZero(m.pages[t])
    ensures Inv(NewTable(m, d, i, t))
  {
    var m' := NewTable(m, d, i, t);
    EntryParts(t, 7);
    NewTableMaps(m, d, i, t);
    forall k | 0 <= k < |m.free| ensures FreeAt(m', k) { assert FreeAt(m, k); }
    forall c: nat, n: nat | c < NFRAMES && n < NENTRIES && IsDir(m', c)
      ensures DirAt(m', c, n)
    {
      assert IsDir(m, c) && DirAt(m, c, n);
    }
    forall c: nat, v: nat | c < NFRAMES && v < USER_PAGES && IsDir(m', c)
      ensures UserAt(m', c, v)
    {
      assert IsDir(m, c) && UserAt(m, c, v);
    }
    forall g: nat | g < NFRAMES ensures Hangs(m', g) { assert Hangs(m, g); }
  }

  /** The frame of the table for page v of directory d. */
  function TableOf(m: Mem, d: nat, v: nat): (t: nat)
    requires Shaped(m) && d < NFRAMES && v < NENTRIES * NENTRIES
  {
    FrameOf(m.pages[d][v / NENTRIES])
  }

  predicate HasTable(m: Mem, d: nat, v: nat)
    requires Shaped(m) && d < NFRAMES && v < NENTRIES * NENTRIES
  {
    Present(m.pages[d][v / NENTRIES])
  }

  function SetPte(m: Mem, d: nat, v: nat, w: Uint): (r: Mem)
    requires Shaped(m) && d < NFRAMES && v < NENTRIES * NENTRIES && TableOf(m, d, v) < NFRAMES
  {
    SetPage(m, TableOf(m, d, v), m.pages[TableOf(m, d, v)][v % NENTRIES := w])
  }

  lemma TableRole(m: Mem, d: nat, v: nat)
    requires Inv(m) && IsDir(m, d) && v < NENTRIES * NENTRIES && HasTable(m, d, v)
    ensures TableOf(m, d, v) < NFRAMES && m.owner[TableOf(m, d, v)] == Table(d, v / NENTRIES)
    ensures Pte(m, d, v) == m.pages[TableOf(m, d, v)][v % NENTRIES]
  {
    assert DirAt(m, d, v / NENTRIES);
  }

  /** An entry is read back by its own page of its own directory only. */
  lemma SetPteMaps(m: Mem, d: nat, v: nat, w: Uint)
    requires Inv(m) && IsDir(m, d) && v < NENTRIES * NENTRIES && HasTable(m, d, v)
    ensures TableOf(m, d, v) < NFRAMES
    ensures forall c: nat, u: nat :: c < NFRAMES && IsDir(m, c) ==>
              Pte(SetPte(m, d, v, w), c, u) == if (c, u) == (d, v) then w else Pte(m, c, u)
    ensures forall c: nat, i: nat :: c < NFRAMES && IsDir(m, c) && i < NENTRIES ==>
            SetPte(m, d, v, w).pages[c][i] == m.pages[c][i]
  {
    TableRole(m, d, v);
    var m' := SetPte(m, d, v, w);
    forall c: nat, u: nat | c < NFRAMES && IsDir(m, c)
      ensures Pte(m', c, u) == if (c, u) == (d, v) then w else Pte(m, c, u)
    {
      if u < NENTRIES * NENTRIES && HasTable(m, c, u) {
        TableRole(m, c, u);
        assert u / NENTRIES == v / NENTRIES && u % NENTRIES == v % NENTRIES ==> u == v;
      }
    }
  }

  /** Entry v of directory d becomes w, and the frames concerned get new roles. */
  function Remap(m: Mem, d: nat, v: nat, w: Uint, f: nat, role: Role): (r: Mem)
    requires Shaped(m) && d < NFRAMES && v < NENTRIES * NENTRIES && TableOf(m, d, v) < NFRAMES && f < NFRAMES
  {
    SetPte(m, d, v, w).(owner := m.owner[f := role])
  }

  /** Held frame f becomes user page v of d. */
  lemma HangInv(m: Mem, d: nat, v: nat, w: Uint, f: nat)
    requires Inv(m) && IsDir(m, d) && v < USER_PAGES && HasTable(m, d, v) && !Present(Pte(m, d, v))
    requires f < NFRAMES && m.owner[f] == Held && Present(w) && FrameOf(w) == f
    ensures TableOf(m, d, v) < NFRAMES && Inv(Remap(m, d, v, w, f, User(d, v)))
  {
    SetPteMaps(m, d, v, w);
    TableRole(m, d, v);
    RemapInv(m, d, v, w, f, User(d, v));
  }

  /** User page v of d loses its frame, which becomes Held. */
  lemma UnhangInv(m: Mem, d: nat, v: nat)
    requires Inv(m) && IsDir(m, d) && v < USER_PAGES && Present(Pte(m, d, v))
    ensures TableOf(m, d, v) < NFRAMES && HasTable(m, d, v)
    ensures var f := FrameOf(Pte(m, d, v)); f < NFRAMES && m.owner[f] == User(d, v) && Inv(Remap(m, d, v, 0, f, Held))
  {
    assert UserAt(m, d, v);
    SetPteMaps(m, d, v, 0);
    TableRole(m, d, v);
    RemapInv(m, d, v, 0, FrameOf(Pte(m, d, v)), Held);
  }

  lemma RemapInv(m: Mem, d: nat, v: nat, w: Uint, f: nat, role: Role)
    requires Inv(m) && IsDir(m, d) && v < USER_PAGES && HasTable(m, d, v) && f < NFRAMES
    requires || (m.owner[f] == Held && role == User(d, v) && !Present(Pte(m, d, v)) && Present(w) && FrameOf(w) == f)
             || (m.owner[f] == User(d, v) && role == Held && FrameOf(Pte(m, d, v)) == f && w == 0)
    ensures TableOf(m, d, v) < NFRAMES && Inv(Remap(m, d, v, w, f, role))
  {
    SetPteMaps(m, d, v, w);
    TableRole(m, d, v);
    var m' := Remap(m, d, v, w, f, role);
    assert forall c: nat, u: nat :: Pte(m', c, u) == Pte(SetPte(m, d, v, w), c, u);
    forall k | 0 <= k < |m.free| ensures FreeAt(m', k) { assert FreeAt(m, k); }
    forall c: nat, i: nat | c < NFRAMES && i < NENTRIES && IsDir(m', c)
      ensures DirAt(m', c, i)
    {
      assert IsDir(m, c) && DirAt(m, c, i);
    }
    forall c: nat, u: nat | c < NFRAMES && u < USER_PAGES && IsDir(m', c)
      ensures UserAt(m', c, u)
    {
      assert IsDir(m, c) && UserAt(m, c, u);
      if (c, u) != (d, v) && Present(Pte(m, c, u)) { assert FrameOf(Pte(m, c, u)) != f; }
    }
    forall g: nat | g < NFRAMES ensures Hangs(m', g) { assert Hangs(m, g); }
  }

  /** Entries of the kernel half own nothing. */
  lemma KernelPteInv(m: Mem, d: nat, v: nat, w: Uint)
    requires Inv(m) && IsDir(m, d) && USER_PAGES <= v < NENTRIES * NENTRIES && HasTable(m, d, v)
    ensures TableOf(m, d, v) < NFRAMES && Inv(SetPte(m, d, v, w))
  {
    SetPteMaps(m, d, v, w);
    TableRole(m, d, v);
    var m' := SetPte(m, d, v, w);
    forall k | 0 <= k < |m.free| ensures FreeAt(m', k) { assert FreeAt(m, k); }
    forall c: nat, i: nat | c < NFRAMES && i < NENTRIES && IsDir(m', c)
      ensures DirAt(m', c, i)
    {
      assert IsDir(m, c) && DirAt(m, c, i);
    }
    forall c: nat, u: nat | c < NFRAMES && u < USER_PAGES && IsDir(m', c)
      ensures UserAt(m', c, u)
    {
      assert IsDir(m, c) && UserAt(m, c, u);
    }
    forall g: nat | g < NFRAMES ensures Hangs(m', g) { assert Hangs(m, g); }
  }

  // ----- what the invariant means -------------------------------------------------------------

  /** A mapped user frame is mapped once, is not free, and is no directory or table. */
  lemma UserFrameAlone(m: Mem, d: nat, v: nat, c: nat, u: nat, i: nat)
    requires Inv(m) && IsDir(m, d) && v < USER_PAGES && Present(Pte(m, d, v)) && IsDir(m, c) && i < NENTRIES
    ensures var f := FrameOf(Pte(m, d, v));
            && f !in m.free && f != c
            && (Present(m.pages[c][i]) ==> FrameOf(m.pages[c][i]) != f)
            && (u < USER_PAGES && Present(Pte(m, c, u)) && FrameOf(Pte(m, c, u)) == f ==> (c, u) == (d, v))
  {
    assert UserAt(m, d, v) && DirAt(m, c, i);
    var f := FrameOf(Pte(m, d, v));
    assert f !in m.free by { forall k | 0 <= k < |m.free| ensures m.free[k] != f { assert FreeAt(m, k); } }
    if u < USER_PAGES { assert UserAt(m, c, u); }
  }

  /** A table is behind one directory entry, is not free, and is no directory. */
  lemma TableFrameAlone(m: Mem, d: nat, i: nat, c: nat, j: nat)
    requires Inv(m) && IsDir(m, d) && i < NENTRIES && Present(m.pages[d][i]) && IsDir(m, c) && j < NENTRIES
    ensures var t := FrameOf(m.pages[d][i]);
            && t !in m.free && t != c
            && (Present(m.pages[c][j]) && FrameOf(m.pages[c][j]) == t ==> (c, j) == (d, i))
  {
    assert DirAt(m, d, i) && DirAt(m, c, j);
    var t := FrameOf(m.pages[d][i]);
    assert t !in m.free by { forall k | 0 <= k < |m.free| ensures m.free[k] != t { assert FreeAt(m, k); } }
  }

  /** Every frame is the kernel's, in some code's hands, on the free list, a directory, or hangs in
      exactly the place its role names. */
  lemma EveryFramePlaced(m: Mem, f: nat)
    requires Inv(m) && f < NFRAMES
    ensures match m.owner[f]
            case Free => f in m.free
            case Table(d, i) => IsDir(m, d) && i < NENTRIES && Present(m.pages[d][i]) && FrameOf(m.pages[d][i]) == f
            case User(d, v) => IsDir(m, d) && v < USER_PAGES && Present(Pte(m, d, v)) && FrameOf(Pte(m, d, v)) == f
            case _ => f !in m.free
  {
    assert Hangs(m, f);
    if m.owner[f] != Free {
      forall k | 0 <= k < |m.free| ensures m.free[k] != f { assert FreeAt(m, k); }
    }
  }
}

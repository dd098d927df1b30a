/** The list of virtual memory areas: what it says about the page table, over every run. */
module VmaLaws {
  import opened Common
  import opened PhysicalMemory
  import opened VirtualMemory
  import opened FrameLaws

  /** The area contains the first byte of page p. */
  predicate Covers(v: Vma, p: nat) { v.Contains(p * PAGE) }

  /** Page-aligned; a stack ends at the fixed top and is not empty. */
  predicate Shaped(v: Vma) {
    && v.start % PAGE == 0 && v.end % PAGE == 0 && v.start <= v.end
    && (v.kind.Stack? ==> v.end == STACK_END && v.start < v.end)
  }

  /** Every page of the area is mapped with the area's flags. */
  ghost predicate Backed(pages: map<nat, Entry>, v: Vma) {
    forall p: nat :: Covers(v, p) ==> p in pages && pages[p].flags == ToX86(v.flags)
  }

  /** What an earlier and a later area of the list may have to do with each other. */
  ghost predicate Apart(v: Vma, w: Vma) {
    && (forall p: nat :: !(Covers(v, p) && Covers(w, p)))
    && (v.kind.Heap? && w.kind.Heap? ==> v.end <= w.start)
  }

  ghost predicate VmaInv(pages: map<nat, Entry>, vmas: seq<Vma>) {
    && (forall i :: 0 <= i < |vmas| ==> Shaped(vmas[i]) && Backed(pages, vmas[i]))
    && (forall i, j :: 0 <= i < j < |vmas| ==> Apart(vmas[i], vmas[j]))
  }

  /** For aligned bounds, containing an address is containing its page. */
  lemma ContainsPage(v: Vma, addr: nat)
    requires v.start % PAGE == 0 && v.end % PAGE == 0
    ensures v.Contains(addr) <==> Covers(v, addr / PAGE)
  {}

  lemma AlignsToPage(addr: nat, p: nat)
    ensures AlignDown(addr) % PAGE == 0 && AlignUp(addr) % PAGE == 0 && AlignDown(addr) <= AlignUp(addr)
    ensures AlignDown(addr) <= p * PAGE < AlignUp(addr) <==> p == addr / PAGE && addr % PAGE != 0
  {}

  lemma PushVma(pages: map<nat, Entry>, vmas: seq<Vma>, v: Vma)
    requires VmaInv(pages, vmas) && Shaped(v) && Backed(pages, v)
    requires forall i :: 0 <= i < |vmas| ==> Apart(vmas[i], v)
    ensures VmaInv(pages, vmas + [v])
  {}

  lemma {:induction false} MorePages(pages: map<nat, Entry>, page: nat, e: Entry, vmas: seq<Vma>)
    requires VmaInv(pages, vmas) && page !in pages
    ensures VmaInv(pages[page := e], vmas)
    ensures forall i :: 0 <= i < |vmas| ==> !Covers(vmas[i], page)
  {
    forall i | 0 <= i < |vmas|
      ensures Backed(pages[page := e], vmas[i]) && !Covers(vmas[i], page)
    {
      assert Backed(pages, vmas[i]);
    }
  }

  lemma {:induction false} MapKeepsVmas(m: Mem, virt: nat, phys: nat, flags: Flags)
    requires VmaInv(m.pages, m.vmas)
    ensures var t := MapSpec(m, virt, phys, flags);
      && VmaInv(t.mem.pages, t.mem.vmas)
      && (t.ok ==>
            && virt / PAGE !in m.pages
            && t.mem.pages == m.pages[virt / PAGE := Entry(phys / PAGE, ToX86(flags))]
            && t.mem.vmas == m.vmas + [Vma(AlignDown(virt), AlignUp(virt), flags, KernelData)])
      && (!t.ok ==> t.mem.pages == m.pages && t.mem.vmas == m.vmas)
  {
    var t := MapSpec(m, virt, phys, flags);
    var page := virt / PAGE;
    WithTablesKeep(m, page, 3);
    if t.ok {
      var e := Entry(phys / PAGE, ToX86(flags));
      var v := Vma(AlignDown(virt), AlignUp(virt), flags, KernelData);
      MorePages(m.pages, page, e, m.vmas);
      forall p: nat
        ensures Covers(v, p) ==> p == page
      {
        AlignsToPage(virt, p);
      }
      AlignsToPage(virt, page);
      PushVma(m.pages[page := e], m.vmas, v);
    }
  }

  /** Page p is one of the k pages from the aligned address base. */
  predicate Within(p: nat, base: nat, k: nat) { base / PAGE <= p < base / PAGE + k }

  /** The first k pages from base are mapped with these flags and belong to no area; heap areas end by limit. */
  ghost predicate Fresh(pages: map<nat, Entry>, vmas: seq<Vma>, base: nat, k: nat, flags: Flags, limit: nat) {
    && (forall p :: Within(p, base, k) ==> p in pages && pages[p].flags == ToX86(flags))
    && (forall p, j :: Within(p, base, k) && 0 <= j < |vmas| ==> !Covers(vmas[j], p))
    && (forall j :: 0 <= j < |vmas| && vmas[j].kind.Heap? ==> vmas[j].end <= limit)
  }

  lemma {:induction false} FreshFurther(m: Mem, m': Mem, base: nat, k: nat, frame: nat, flags: Flags, limit: nat)
    requires base % PAGE == 0 && VmaInv(m.pages, m.vmas) && Fresh(m.pages, m.vmas, base, k, flags, limit)
    requires base / PAGE + k !in m.pages
    requires m'.pages == m.pages[base / PAGE + k := Entry(frame, ToX86(flags))]
    requires m'.vmas == m.vmas + [Vma(PageAt(base, k), PageAt(base, k), flags, KernelData)]
    ensures Fresh(m'.pages, m'.vmas, base, k + 1, flags, limit)
  {
    var page := base / PAGE + k;
    MorePages(m.pages, page, Entry(frame, ToX86(flags)), m.vmas);
    forall p | Within(p, base, k + 1)
      ensures p in m'.pages && m'.pages[p].flags == ToX86(flags)
      ensures forall j :: 0 <= j < |m'.vmas| ==> !Covers(m'.vmas[j], p)
    {
      assert p == page || Within(p, base, k);
      assert forall j :: 0 <= j < |m.vmas| ==> !Covers(m.vmas[j], p) && m'.vmas[j] == m.vmas[j];
    }
  }

  lemma {:induction false} MapRunKeepsVmas(m: Mem, base: nat, first: nat, k: nat, flags: Flags, limit: nat)
    requires VmaInv(m.pages, m.vmas) && base % PAGE == 0
    requires forall j :: 0 <= j < |m.vmas| && m.vmas[j].kind.Heap? ==> m.vmas[j].end <= limit
    ensures var t := MapRun(m, base, first, k, flags);
      VmaInv(t.mem.pages, t.mem.vmas) && (t.ok ==> Fresh(t.mem.pages, t.mem.vmas, base, k, flags, limit))
  {
    hide VmaInv, MapSpec, Fresh;
    if k == 0 {
      assert Fresh(m.pages, m.vmas, base, 0, flags, limit) by {
        FreshNone(m.pages, m.vmas, base, flags, limit);
      }
    } else {
      MapRunKeepsVmas(m, base, first, k - 1, flags, limit);
      var t := MapRun(m, base, first, k - 1, flags);
      if t.ok {
        var virt, frame := PageAt(base, k - 1), first + k - 1;
        MapKeepsVmas(t.mem, virt, frame * PAGE, flags);
        var s := MapSpec(t.mem, virt, frame * PAGE, flags);
        PageAtAligned(base, k - 1);
        if s.ok {
          FreshFurther(t.mem, s.mem, base, k - 1, frame * PAGE / PAGE, flags, limit);
        }
      }
    }
  }

  lemma FreshNone(pages: map<nat, Entry>, vmas: seq<Vma>, base: nat, flags: Flags, limit: nat)
    requires forall j :: 0 <= j < |vmas| && vmas[j].kind.Heap? ==> vmas[j].end <= limit
    ensures Fresh(pages, vmas, base, 0, flags, limit)
  {}

  lemma PageAtAligned(base: nat, i: nat)
    requires base % PAGE == 0
    ensures PageAt(base, i) / PAGE == base / PAGE + i && PageAt(base, i) % PAGE == 0
    ensures AlignDown(PageAt(base, i)) == AlignUp(PageAt(base, i)) == PageAt(base, i)
  {}

  /** An area over freshly mapped pages is apart from all areas there are. */
  lemma {:induction false} AreaApart(
      pages: map<nat, Entry>, vmas: seq<Vma>, base: nat, n: nat, flags: Flags, kind: Kind, limit: nat)
    requires base % PAGE == 0 && Fresh(pages, vmas, base, n, flags, limit)
    requires kind.Heap? ==> limit <= base
    requires kind.Stack? ==> base + n * PAGE == STACK_END && n > 0
    ensures var v := Vma(base, base + n * PAGE, flags, kind);
      Shaped(v) && Backed(pages, v) && forall j :: 0 <= j < |vmas| ==> Apart(vmas[j], v)
  {
    var v := Vma(base, base + n * PAGE, flags, kind);
    forall p: nat | Covers(v, p)
      ensures Within(p, base, n)
    {
      assert base == base / PAGE * PAGE;
    }
    forall j | 0 <= j < |vmas|
      ensures Apart(vmas[j], v)
    {
      forall p: nat
        ensures !(Covers(vmas[j], p) && Covers(v, p))
      {
        assert Covers(v, p) ==> Within(p, base, n);
      }
    }
  }

  ghost predicate KeepsVmas(o: Outcome) {
    !o.Stop? ==> VmaInv(o.mem.pages, o.mem.vmas)
  }

  lemma {:induction false} AllocateAtKeepsVmas(
      m: Mem, base: nat, n: nat, flags: Flags, kind: Kind, answer: nat, limit: nat)
    requires VmaInv(m.pages, m.vmas) && base % PAGE == 0
    requires forall j :: 0 <= j < |m.vmas| && m.vmas[j].kind.Heap? ==> m.vmas[j].end <= limit
    requires kind.Heap? ==> limit <= base
    requires kind.Stack? ==> base + n * PAGE == STACK_END
    ensures KeepsVmas(AllocateAt(m, base, n, flags, kind, answer))
  {
    hide MapRun, Fresh, Shaped, Backed, Apart;
    var grant := AllocateSpec(m.bits, n);
    if grant.Granted? {
      var first := grant.addr / PAGE;
      var taken := m.(bits := Marked(m.bits, first, n, false), reserved := m.reserved + Frames(first, n));
      MapRunKeepsVmas(taken, base, first, n, flags, limit);
      var t := MapRun(taken, base, first, n, flags);
      assert m.(bits := taken.bits).(reserved := m.reserved + Frames(first, n)) == taken;
      if t.ok {
        AreaApart(t.mem.pages, t.mem.vmas, base, n, flags, kind, limit);
        PushVma(t.mem.pages, t.mem.vmas, Vma(base, base + n * PAGE, flags, kind));
      }
    }
  }

  lemma {:induction false} LastHeapIsHighest(pages: map<nat, Entry>, vmas: seq<Vma>)
    requires VmaInv(pages, vmas)
    ensures LastHeapEnd(vmas) % PAGE == 0
    ensures forall j :: 0 <= j < |vmas| && vmas[j].kind.Heap? ==> vmas[j].end <= LastHeapEnd(vmas)
  {
    if vmas != [] && !vmas[|vmas| - 1].kind.Heap? {
      assert VmaInv(pages, vmas[..|vmas| - 1]);
      LastHeapIsHighest(pages, vmas[..|vmas| - 1]);
    } else {
      forall j | 0 <= j < |vmas| - 1 && vmas[j].kind.Heap?
        ensures vmas[j].end <= LastHeapEnd(vmas)
      {
        assert Apart(vmas[j], vmas[|vmas| - 1]);
      }
    }
  }

  lemma {:induction false} WithoutFrom(vmas: seq<Vma>, addr: nat)
    ensures forall v :: v in Without(vmas, addr) <==> v in vmas && !v.Contains(addr)
  {
    if vmas == [] {
    } else {
      WithoutFrom(vmas[..|vmas| - 1], addr);
      assert vmas == vmas[..|vmas| - 1] + [vmas[|vmas| - 1]];
    }
  }

  lemma {:induction false} WithoutKeeps(pages: map<nat, Entry>, vmas: seq<Vma>, addr: nat)
    requires VmaInv(pages, vmas)
    ensures VmaInv(pages, Without(vmas, addr))
  {
    if vmas == [] {
    } else {
      var init, last := vmas[..|vmas| - 1], vmas[|vmas| - 1];
      WithoutKeeps(pages, init, addr);
      WithoutFrom(init, addr);
      var kept := Without(init, addr);
      forall i | 0 <= i < |kept|
        ensures Apart(kept[i], last)
      {
        assert kept[i] in init;
      }
    }
  }

  lemma {:induction false} UnmapKeepsVmas(m: Mem, virt: nat)
    requires VmaInv(m.pages, m.vmas)
    ensures KeepsVmas(UnmapSpec(m, virt))
  {
    var page := virt / PAGE;
    if page in m.pages {
      var kept, pages := Without(m.vmas, virt), m.pages - {page};
      WithoutKeeps(m.pages, m.vmas, virt);
      WithoutFrom(m.vmas, virt);
      forall i | 0 <= i < |kept|
        ensures Backed(pages, kept[i])
      {
        assert kept[i] in m.vmas && Shaped(kept[i]) && Backed(m.pages, kept[i]);
        ContainsPage(kept[i], virt);
      }
    }
  }

  lemma {:induction false} VmaInvRun(pages: nat, root: nat, ops: seq<Op>)
    requires root < pages
    ensures KeepsVmas(RunOps(Start(pages, root), ops))
  {
    hide AllocateAt, UnmapSpec, MapSpec, VmaInv, PageCount;
    var s := Start(pages, root);
    if ops == [] {
      NoVmas(s.pages);
    } else {
      VmaInvRun(pages, root, ops[..|ops| - 1]);
      var o := RunOps(s, ops[..|ops| - 1]);
      if !o.Stop? {
        var m := o.mem;
        LastHeapIsHighest(m.pages, m.vmas);
        var top := LastHeapEnd(m.vmas);
        match ops[|ops| - 1]
        case MapOp(virt, phys, flags) =>
          MapKeepsVmas(m, virt, phys, flags);
        case HeapOp(size) =>
          AllocateAtKeepsVmas(m, top, PageCount(size), HEAP_FLAGS, Heap, top, top);
        case StackOp(size) =>
          var n := PageCount(if size > STACK_MIN then size else STACK_MIN);
          if n * PAGE <= STACK_END {
            StackBaseAligned(n);
            AllocateAtKeepsVmas(m, STACK_END - n * PAGE, n, STACK_FLAGS, Stack, STACK_END, top);
          }
        case UnmapOp(virt) =>
          UnmapKeepsVmas(m, virt);
      }
    }
  }

  lemma NoVmas(pages: map<nat, Entry>)
    ensures VmaInv(pages, [])
  {}

  lemma StackBaseAligned(n: nat)
    requires n * PAGE <= STACK_END
    ensures (STACK_END - n * PAGE) % PAGE == 0
  {}

  // ---------------------------------------------------------------------------------------------
  // What a caller can rely on
  // ---------------------------------------------------------------------------------------------

  /** An address lies in at most one area; heap areas stand in address order; there is at most one stack. */
  lemma {:induction false} AreasDisjoint(pages: nat, root: nat, ops: seq<Op>, i: nat, j: nat)
    requires root < pages && !RunOps(Start(pages, root), ops).Stop?
    requires i < j < |RunOps(Start(pages, root), ops).mem.vmas|
    ensures var vmas := RunOps(Start(pages, root), ops).mem.vmas;
      && (forall addr :: !(vmas[i].Contains(addr) && vmas[j].Contains(addr)))
      && (vmas[i].kind.Heap? && vmas[j].kind.Heap? ==> vmas[i].end <= vmas[j].start)
      && !(vmas[i].kind.Stack? && vmas[j].kind.Stack?)
  {
    VmaInvRun(pages, root, ops);
    PairDisjoint(RunOps(Start(pages, root), ops).mem, i, j);
  }

  lemma {:induction false} PairDisjoint(m: Mem, i: nat, j: nat)
    requires VmaInv(m.pages, m.vmas) && i < j < |m.vmas|
    ensures forall addr :: !(m.vmas[i].Contains(addr) && m.vmas[j].Contains(addr))
    ensures m.vmas[i].kind.Heap? && m.vmas[j].kind.Heap? ==> m.vmas[i].end <= m.vmas[j].start
    ensures !(m.vmas[i].kind.Stack? && m.vmas[j].kind.Stack?)
  {
    var v, w := m.vmas[i], m.vmas[j];
    assert Shaped(v) && Shaped(w) && Apart(v, w);
    forall addr: nat
      ensures !(v.Contains(addr) && w.Contains(addr))
    {
      ContainsPage(v, addr);
      ContainsPage(w, addr);
    }
    if v.kind.Stack? && w.kind.Stack? {
      assert v.Contains(STACK_END - 1) && w.Contains(STACK_END - 1);
    }
  }

  lemma {:induction false} FoundVma(vmas: seq<Vma>, addr: nat)
    ensures FindVma(vmas, addr).Some? ==> FindVma(vmas, addr).value in vmas && FindVma(vmas, addr).value.Contains(addr)
    ensures FindVma(vmas, addr).None? ==> forall v :: v in vmas ==> !v.Contains(addr)
  {
    if vmas == [] || vmas[0].Contains(addr) {
    } else {
      FoundVma(vmas[1..], addr);
    }
  }

  /** When `check_access` says yes, the page is mapped and its entry carries the permission asked for. */
  lemma {:induction false} AccessIsBacked(pages: nat, root: nat, ops: seq<Op>, addr: nat, write: bool)
    requires root < pages && !RunOps(Start(pages, root), ops).Stop?
    requires CheckAccess(RunOps(Start(pages, root), ops).mem.vmas, addr, write)
    ensures var m := RunOps(Start(pages, root), ops).mem;
      addr / PAGE in m.pages && (if write then Writable else Present) in m.pages[addr / PAGE].flags
  {
    VmaInvRun(pages, root, ops);
    var m := RunOps(Start(pages, root), ops).mem;
    FoundVma(m.vmas, addr);
    var v := FindVma(m.vmas, addr).value;
    assert Shaped(v) && Backed(m.pages, v);
    ContainsPage(v, addr);
  }

  /** A page just mapped is accessible exactly if the address given to `map` was not aligned. */
  lemma {:induction false} MapRecordsExactly(m: Mem, virt: nat, phys: nat, flags: Flags, write: bool)
    requires VmaInv(m.pages, m.vmas) && MapSpec(m, virt, phys, flags).ok
    ensures CheckAccess(MapSpec(m, virt, phys, flags).mem.vmas, virt, write)
       <==> virt % PAGE != 0 && (if write then Writable else Present) in flags
  {
    MapKeepsVmas(m, virt, phys, flags);
    var page, vmas := virt / PAGE, MapSpec(m, virt, phys, flags).mem.vmas;
    MorePages(m.pages, page, Entry(phys / PAGE, ToX86(flags)), m.vmas);
    FoundVma(vmas, virt);
    AlignsToPage(virt, page);
    var v := vmas[|vmas| - 1];
    assert v in vmas;
    ContainsPage(v, virt);
    forall w | w in m.vmas
      ensures !w.Contains(virt)
    {
      ContainsPage(w, virt);
    }
  }

  /** The search finds the one area that contains the address. */
  lemma {:induction false} FoundExactly(m: Mem, vmas: seq<Vma>, v: Vma, addr: nat)
    requires VmaInv(m.pages, m.vmas) && v in vmas && v.Contains(addr) && forall w :: w in vmas ==> w in m.vmas
    ensures FindVma(vmas, addr) == Some(v)
  {
    FoundVma(vmas, addr);
    var w := FindVma(vmas, addr).value;
    var i :| 0 <= i < |m.vmas| && m.vmas[i] == v;
    var j :| 0 <= j < |m.vmas| && m.vmas[j] == w;
    if i != j {
      PairDisjoint(m, if i < j then i else j, if i < j then j else i);
    }
  }

  /** An area contains both addresses. */
  ghost predicate SameArea(vmas: seq<Vma>, a: nat, b: nat) {
    exists v :: v in vmas && v.Contains(a) && v.Contains(b)
  }

  /** Unmapping one page takes away access to exactly the area it lies in, all of it, and to nothing else. */
  lemma {:induction false} UnmapDropsAreaExactly(m: Mem, virt: nat, addr: nat, write: bool)
    requires VmaInv(m.pages, m.vmas) && UnmapSpec(m, virt).Ok?
    ensures CheckAccess(UnmapSpec(m, virt).mem.vmas, addr, write)
       <==> CheckAccess(m.vmas, addr, write) && !SameArea(m.vmas, virt, addr)
  {
    hide VmaInv, FindVma;
    var kept := Without(m.vmas, virt);
    WithoutFrom(m.vmas, virt);
    FoundVma(m.vmas, addr);
    FoundVma(kept, addr);
    match FindVma(m.vmas, addr)
    case None =>
    case Some(v) =>
      FoundExactly(m, m.vmas, v, addr);
      if v.Contains(virt) {
        assert SameArea(m.vmas, virt, addr);
        if FindVma(kept, addr).Some? {
          FoundExactly(m, m.vmas, FindVma(kept, addr).value, addr);
        }
      } else {
        FoundExactly(m, kept, v, addr);
        if SameArea(m.vmas, virt, addr) {
          var w :| w in m.vmas && w.Contains(virt) && w.Contains(addr);
          FoundExactly(m, m.vmas, w, addr);
        }
      }
  }

  /** A page table created over areas keeps the list sound exactly if all of them are empty. */
  lemma {:induction false} CreateKeepsVmasExactly(m: Mem)
    requires VmaInv(m.pages, m.vmas) && CreateSpec(m).ok
    ensures VmaInv(CreateSpec(m).mem.pages, CreateSpec(m).mem.vmas) <==> forall v :: v in m.vmas ==> v.start == v.end
  {
    forall i | 0 <= i < |m.vmas|
      ensures Backed(map[], m.vmas[i]) <==> m.vmas[i].start == m.vmas[i].end
    {
      assert Shaped(m.vmas[i]);
      assert m.vmas[i].start < m.vmas[i].end ==> Covers(m.vmas[i], m.vmas[i].start / PAGE);
    }
    assert forall v :: v in m.vmas ==> exists i :: 0 <= i < |m.vmas| && m.vmas[i] == v;
  }

  /** Every byte of an area that was allocated passes the access check. */
  lemma {:induction false} AreaUsable(
      m: Mem, base: nat, n: nat, flags: Flags, kind: Kind, answer: nat, limit: nat, addr: nat, write: bool)
    requires VmaInv(m.pages, m.vmas) && base % PAGE == 0
    requires forall j :: 0 <= j < |m.vmas| && m.vmas[j].kind.Heap? ==> m.vmas[j].end <= limit
    requires kind.Heap? ==> limit <= base
    requires kind.Stack? ==> base + n * PAGE == STACK_END
    requires AllocateAt(m, base, n, flags, kind, answer).Ok?
    requires base <= addr < base + n * PAGE && (if write then Writable else Present) in flags
    ensures CheckAccess(AllocateAt(m, base, n, flags, kind, answer).mem.vmas, addr, write)
  {
    hide MapRun, VmaInv;
    AllocateAtKeepsVmas(m, base, n, flags, kind, answer, limit);
    var m' := AllocateAt(m, base, n, flags, kind, answer).mem;
    var last := |m'.vmas| - 1;
    assert m'.vmas[last] == Vma(base, base + n * PAGE, flags, kind) && m'.vmas[last] in m'.vmas;
    hide AllocateAt, FindVma;
    FoundVma(m'.vmas, addr);
    var i :| 0 <= i < |m'.vmas| && m'.vmas[i] == FindVma(m'.vmas, addr).value;
    if i != last {
      PairDisjoint(m', i, last);
    }
  }

  /** The pages granted for a request hold its bytes; a size at which the addition wraps around is refused. */
  lemma PagesHoldSize(bits: seq<bool>, size: nat)
    requires size < USIZE && AllocateSpec(bits, PageCount(size)).Granted?
    ensures PageCount(size) * PAGE >= size
  {}

  /** In every run, all the bytes a heap request asked for can be read and written when it succeeds. */
  lemma {:induction false} HeapUsable(pages: nat, root: nat, ops: seq<Op>, size: nat, addr: nat, write: bool)
    requires root < pages && size < USIZE && !RunOps(Start(pages, root), ops).Stop?
    requires var o := HeapSpec(RunOps(Start(pages, root), ops).mem, size); o.Ok? && o.addr <= addr < o.addr + size
    ensures CheckAccess(HeapSpec(RunOps(Start(pages, root), ops).mem, size).mem.vmas, addr, write)
  {
    hide RunOps, VmaInv, HeapSpec, CheckAccess;
    VmaInvRun(pages, root, ops);
    HeapAreaUsable(RunOps(Start(pages, root), ops).mem, size, addr, write);
  }

  lemma {:induction false} HeapAreaUsable(m: Mem, size: nat, addr: nat, write: bool)
    requires VmaInv(m.pages, m.vmas) && size < USIZE
    requires HeapSpec(m, size).Ok? && HeapSpec(m, size).addr <= addr < HeapSpec(m, size).addr + size
    ensures CheckAccess(HeapSpec(m, size).mem.vmas, addr, write)
  {
    HeapIs(m, size);
    hide VmaInv, HeapSpec, AllocateAt, AllocateSpec, CheckAccess, PageCount, LastHeapEnd;
    var top, n := LastHeapEnd(m.vmas), PageCount(size);
    LastHeapIsHighest(m.pages, m.vmas);
    PagesHoldSize(m.bits, size);
    AreaUsable(m, top, n, HEAP_FLAGS, Heap, top, top, addr, write);
  }

  lemma HeapIs(m: Mem, size: nat)
    ensures var base, n := LastHeapEnd(m.vmas), PageCount(size);
      && HeapSpec(m, size) == AllocateAt(m, base, n, HEAP_FLAGS, Heap, base)
      && (AllocateSpec(m.bits, n).Granted? ==> !HeapSpec(m, size).Stop?)
      && (HeapSpec(m, size).Ok? ==> AllocateSpec(m.bits, n).Granted? && HeapSpec(m, size).addr == base)
  {
    hide MapArea, PageCount, LastHeapEnd;
  }

  /** The same for a stack: the bytes below its top, at least the default size of them. */
  lemma {:induction false} StackUsable(pages: nat, root: nat, ops: seq<Op>, size: nat, addr: nat, write: bool)
    requires root < pages && size < USIZE && !RunOps(Start(pages, root), ops).Stop?
    requires var o := StackSpec(RunOps(Start(pages, root), ops).mem, size);
      o.Ok? && o.addr - (if size > STACK_MIN then size else STACK_MIN) <= addr < o.addr
    ensures CheckAccess(StackSpec(RunOps(Start(pages, root), ops).mem, size).mem.vmas, addr, write)
  {
    hide RunOps, VmaInv, StackSpec, CheckAccess;
    VmaInvRun(pages, root, ops);
    StackAreaUsable(RunOps(Start(pages, root), ops).mem, size, addr, write);
  }

  lemma {:induction false} StackAreaUsable(m: Mem, size: nat, addr: nat, write: bool)
    requires VmaInv(m.pages, m.vmas) && size < USIZE
    requires StackSpec(m, size).Ok?
    requires StackSpec(m, size).addr - (if size > STACK_MIN then size else STACK_MIN) <= addr < StackSpec(m, size).addr
    ensures CheckAccess(StackSpec(m, size).mem.vmas, addr, write)
  {
    StackIs(m, size);
    hide VmaInv, StackSpec, AllocateAt, AllocateSpec, CheckAccess, PageCount, LastHeapEnd;
    var actual := if size > STACK_MIN then size else STACK_MIN;
    var n := PageCount(actual);
    LastHeapIsHighest(m.pages, m.vmas);
    PagesHoldSize(m.bits, actual);
    StackBaseAligned(n);
    AreaUsable(m, STACK_END - n * PAGE, n, STACK_FLAGS, Stack, STACK_END, LastHeapEnd(m.vmas), addr, write);
  }

  lemma StackIs(m: Mem, size: nat)
    requires StackSpec(m, size).Ok?
    ensures var n := PageCount(if size > STACK_MIN then size else STACK_MIN);
      && n * PAGE <= STACK_END && AllocateSpec(m.bits, n).Granted? && StackSpec(m, size).addr == STACK_END
      && StackSpec(m, size) == AllocateAt(m, STACK_END - n * PAGE, n, STACK_FLAGS, Stack, STACK_END)
  {
    hide MapArea, PageCount;
  }
}

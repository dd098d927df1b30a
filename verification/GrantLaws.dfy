/** When a heap or stack request succeeds that the frame allocator can serve, and what a failed one leaves behind. */
module GrantLaws {
  import opened Common
  import opened PhysicalMemory
  import opened VirtualMemory
  import opened FrameLaws
  import opened VmaLaws

  // ---------------------------------------------------------------------------------------------
  // What mapping costs
  // ---------------------------------------------------------------------------------------------

  /** The intermediate tables of a page from a level down. */
  ghost function TablesOf(page: nat, level: nat): (r: set<(nat, nat)>)
    ensures forall key :: key in r ==> key.0 <= level
  {
    if level == 0 then {} else TablesOf(page, level - 1) + {(level, TableIndex(page, level))}
  }

  /** The intermediate tables of k pages from an address. */
  ghost function AreaTables(base: nat, k: nat): set<(nat, nat)> {
    if k == 0 then {} else AreaTables(base, k - 1) + TablesOf(PageAt(base, k - 1) / PAGE, 3)
  }

  /** How many of the tables are not there yet. */
  ghost function Missing(m: Mem, tables: set<(nat, nat)>): nat {
    |tables - m.tables.Keys|
  }

  /** The state after the tables have been made: each missing one has cost a frame. */
  ghost predicate Made(m: Mem, m': Mem, tables: set<(nat, nat)>) {
    m'.tables.Keys == m.tables.Keys + tables && CountFree(m'.bits) == CountFree(m.bits) - Missing(m, tables)
  }

  lemma {:induction false} WithTableCosts(m: Mem, key: (nat, nat))
    ensures WithTable(m, key).ok <==> Missing(m, {key}) <= CountFree(m.bits)
    ensures WithTable(m, key).ok ==> Made(m, WithTable(m, key).mem, {key})
  {
    MissingOne(m, key);
    hide Missing;
    if key in m.tables {
      assert m.tables.Keys == m.tables.Keys + {key};
    } else {
      FirstFreeExactly(m.bits, 0);
      hide FirstFree, CountFree;
      match FirstFree(m.bits, 0)
      case None => CountNoneFree(m.bits);
      case Some(f) => OneFrameLess(m, key, f);
    }
  }

  lemma MissingOne(m: Mem, key: (nat, nat))
    ensures Missing(m, {key}) == if key in m.tables then 0 else 1
  {
    assert {key} - m.tables.Keys == if key in m.tables then {} else {key};
  }

  lemma {:induction false} OneFrameLess(m: Mem, key: (nat, nat), f: nat)
    requires f < |m.bits| && m.bits[f]
    ensures CountFree(m.bits) > 0 && CountFree(m.bits[f := false]) == CountFree(m.bits) - 1
    ensures m.tables[key := f].Keys == m.tables.Keys + {key}
  {
    CountSomeFree(m.bits, f);
    CountUpdate(m.bits, f, false);
  }

  lemma {:induction false} MissingSplit(m: Mem, m': Mem, a: set<(nat, nat)>, b: set<(nat, nat)>)
    requires m'.tables.Keys == m.tables.Keys + a
    ensures Missing(m, a + b) == Missing(m, a) + Missing(m', b)
  {
    assert a + b - m.tables.Keys == (a - m.tables.Keys) + (b - m'.tables.Keys);
  }

  lemma {:induction false} MissingMore(m: Mem, a: set<(nat, nat)>, b: set<(nat, nat)>)
    requires a <= b
    ensures Missing(m, a) <= Missing(m, b)
  {
    SubsetSize(a - m.tables.Keys, b - m.tables.Keys);
  }

  lemma {:induction false} WithTablesCost(m: Mem, page: nat, level: nat)
    ensures WithTables(m, page, level).ok <==> Missing(m, TablesOf(page, level)) <= CountFree(m.bits)
    ensures WithTables(m, page, level).ok ==> Made(m, WithTables(m, page, level).mem, TablesOf(page, level))
    decreases level
  {
    hide WithTable, Missing, TableIndex;
    if level == 0 {
      NothingMissing(m);
    } else {
      var key := (level, TableIndex(page, level));
      var t := WithTable(m, key);
      WithTableCosts(m, key);
      assert TablesOf(page, level) == {key} + TablesOf(page, level - 1);
      if t.ok {
        WithTablesCost(t.mem, page, level - 1);
        MissingSplit(m, t.mem, {key}, TablesOf(page, level - 1));
      } else {
        MissingMore(m, {key}, TablesOf(page, level));
      }
    }
  }

  lemma NothingMissing(m: Mem)
    ensures Missing(m, {}) == 0
  {
    assert {} - m.tables.Keys == {};
  }

  /** One page is mapped exactly if it was not and the frames last for its tables. */
  lemma {:induction false} MapCosts(m: Mem, virt: nat, phys: nat, flags: Flags)
    ensures var t := MapSpec(m, virt, phys, flags); var tables := TablesOf(virt / PAGE, 3);
      && (t.ok <==> virt / PAGE !in m.pages && Missing(m, tables) <= CountFree(m.bits))
      && (t.ok ==> Made(m, t.mem, tables) && t.mem.pages.Keys == m.pages.Keys + {virt / PAGE})
  {
    hide WithTables, Missing, TablesOf;
    WithTablesCost(m, virt / PAGE, 3);
    WithTablesKeep(m, virt / PAGE, 3);
  }

  lemma {:induction false} MapReservedCosts(m: Mem, virt: nat, frame: nat, flags: Flags)
    ensures var t := MapReserved(m, virt, frame, flags); var tables := TablesOf(virt / PAGE, 3);
      && (t.ok <==> virt / PAGE !in m.pages && Missing(m, tables) <= CountFree(m.bits))
      && (t.ok ==> Made(m, t.mem, tables) && t.mem.pages.Keys == m.pages.Keys + {virt / PAGE})
  {
    hide MapSpec, Missing, TablesOf;
    MapCosts(m, virt, frame * PAGE, flags);
  }

  /** The pages of the area are free for mapping, and the frames last for its tables. */
  ghost predicate Mappable(m: Mem, base: nat, k: nat, free: int) {
    Frames(base / PAGE, k) !! m.pages.Keys && Missing(m, AreaTables(base, k)) <= free
  }

  lemma {:induction false} MapRunExactly(m: Mem, base: nat, first: nat, k: nat, flags: Flags)
    requires base % PAGE == 0
    ensures var t := MapRun(m, base, first, k, flags);
      && (t.ok <==> Mappable(m, base, k, CountFree(m.bits)))
      && (t.ok ==> Made(m, t.mem, AreaTables(base, k)) && t.mem.pages.Keys == m.pages.Keys + Frames(base / PAGE, k))
  {
    hide MapReserved, Missing, TablesOf;
    if k == 0 {
      NothingMissing(m);
    } else {
      var page, tables := base / PAGE + k - 1, AreaTables(base, k - 1);
      PageAtAligned(base, k - 1);
      MapRunExactly(m, base, first, k - 1, flags);
      var t := MapRun(m, base, first, k - 1, flags);
      assert Frames(base / PAGE, k) == Frames(base / PAGE, k - 1) + {page} && page !in Frames(base / PAGE, k - 1);
      assert AreaTables(base, k) == tables + TablesOf(page, 3);
      hide AreaTables, Frames;
      if t.ok {
        MapReservedCosts(t.mem, PageAt(base, k - 1), first + k - 1, flags);
        MissingSplit(m, t.mem, tables, TablesOf(page, 3));
        hide MapRun;
      } else {
        MissingMore(m, tables, AreaTables(base, k));
      }
    }
  }

  // ---------------------------------------------------------------------------------------------
  // Requests
  // ---------------------------------------------------------------------------------------------

  lemma {:induction false} CountMarked(b: seq<bool>, start: nat, n: nat)
    requires FreeRun(b, start, n)
    ensures CountFree(Marked(b, start, n, false)) == CountFree(b) - n
  {
    if n == 0 {
      assert Marked(b, start, 0, false) == b;
    } else {
      CountMarked(b, start, n - 1);
      var before := Marked(b, start, n - 1, false);
      assert Marked(b, start, n, false) == before[start + n - 1 := false];
      CountUpdate(before, start + n - 1, false);
    }
  }

  /** A request that is granted its frames succeeds exactly if the rest of the free ones last for the tables. */
  lemma {:induction false} GrantSucceedsExactly(m: Mem, base: nat, n: nat, flags: Flags, kind: Kind, answer: nat)
    requires base % PAGE == 0 && AllocateSpec(m.bits, n).Granted?
    ensures AllocateAt(m, base, n, flags, kind, answer).Ok? <==> Mappable(m, base, n, CountFree(m.bits) - n)
  {
    hide MapRun, Missing;
    var first := AllocateSpec(m.bits, n).addr / PAGE;
    CountMarked(m.bits, first, n);
    MapRunExactly(Taken(m, first, n), base, first, n, flags);
    SameMissing(m, Taken(m, first, n), AreaTables(base, n));
  }

  /** A request that succeeds maps exactly its pages, costs a frame for each and for each missing table. */
  lemma {:induction false} GrantCosts(m: Mem, base: nat, n: nat, flags: Flags, kind: Kind, answer: nat)
    requires base % PAGE == 0 && AllocateAt(m, base, n, flags, kind, answer).Ok?
    ensures var m' := AllocateAt(m, base, n, flags, kind, answer).mem;
      && m'.pages.Keys == m.pages.Keys + Frames(base / PAGE, n)
      && CountFree(m'.bits) == CountFree(m.bits) - n - Missing(m, AreaTables(base, n))
      && Vma(base, base + n * PAGE, flags, kind) in m'.vmas
  {
    hide MapRun, Missing;
    var first := AllocateSpec(m.bits, n).addr / PAGE;
    CountMarked(m.bits, first, n);
    MapRunExactly(Taken(m, first, n), base, first, n, flags);
    SameMissing(m, Taken(m, first, n), AreaTables(base, n));
  }

  lemma SameMissing(m: Mem, m': Mem, tables: set<(nat, nat)>)
    requires m'.tables == m.tables
    ensures Missing(m', tables) == Missing(m, tables)
  {}

  /** In every run a heap request that is granted its frames succeeds exactly if its pages can be mapped. */
  lemma {:induction false} HeapSucceedsExactly(pages: nat, root: nat, ops: seq<Op>, size: nat)
    requires root < pages && !RunOps(Start(pages, root), ops).Stop?
    requires AllocateSpec(RunOps(Start(pages, root), ops).mem.bits, PageCount(size)).Granted?
    ensures var m := RunOps(Start(pages, root), ops).mem;
      HeapSpec(m, size).Ok? <==> Mappable(m, LastHeapEnd(m.vmas), PageCount(size), CountFree(m.bits) - PageCount(size))
  {
    hide RunOps, HeapSpec, AllocateSpec, PageCount, LastHeapEnd, Mappable;
    HeapAligned(pages, root, ops);
    HeapSucceeds(RunOps(Start(pages, root), ops).mem, size);
  }

  lemma {:induction false} HeapAligned(pages: nat, root: nat, ops: seq<Op>)
    requires root < pages && !RunOps(Start(pages, root), ops).Stop?
    ensures LastHeapEnd(RunOps(Start(pages, root), ops).mem.vmas) % PAGE == 0
  {
    hide RunOps, VmaInv, LastHeapEnd;
    VmaInvRun(pages, root, ops);
    var m := RunOps(Start(pages, root), ops).mem;
    LastHeapIsHighest(m.pages, m.vmas);
  }

  lemma {:induction false} HeapSucceeds(m: Mem, size: nat)
    requires LastHeapEnd(m.vmas) % PAGE == 0 && AllocateSpec(m.bits, PageCount(size)).Granted?
    ensures HeapSpec(m, size).Ok? <==>
            Mappable(m, LastHeapEnd(m.vmas), PageCount(size), CountFree(m.bits) - PageCount(size))
  {
    hide HeapSpec, AllocateAt, AllocateSpec, PageCount, LastHeapEnd, Mappable;
    HeapIs(m, size);
    GrantSucceedsExactly(m, LastHeapEnd(m.vmas), PageCount(size), HEAP_FLAGS, Heap, LastHeapEnd(m.vmas));
  }

  /** The same for a stack that fits below its top. */
  lemma {:induction false} StackSucceedsExactly(m: Mem, size: nat)
    requires var n := PageCount(if size > STACK_MIN then size else STACK_MIN);
      AllocateSpec(m.bits, n).Granted? && n * PAGE <= STACK_END
    ensures var n := PageCount(if size > STACK_MIN then size else STACK_MIN);
      StackSpec(m, size).Ok? <==> Mappable(m, STACK_END - n * PAGE, n, CountFree(m.bits) - n)
  {
    hide MapArea, PageCount, Mappable;
    var n := PageCount(if size > STACK_MIN then size else STACK_MIN);
    StackBaseAligned(n);
    GrantSucceedsExactly(m, STACK_END - n * PAGE, n, STACK_FLAGS, Stack, STACK_END);
  }

  // ---------------------------------------------------------------------------------------------
  // What a failed request leaves behind
  // ---------------------------------------------------------------------------------------------

  /** The page where the next heap area would start is mapped already. */
  ghost predicate HeapBlocked(m: Mem) {
    LastHeapEnd(m.vmas) % PAGE == 0 && LastHeapEnd(m.vmas) / PAGE in m.pages
  }

  lemma {:induction false} BlockedFails(m: Mem, size: nat)
    requires HeapBlocked(m)
    ensures !HeapSpec(m, size).Ok?
  {
    hide PageCount, MapArea, LastHeapEnd;
    var base, n := LastHeapEnd(m.vmas), PageCount(size);
    if AllocateSpec(m.bits, n).Granted? {
      GrantSucceedsExactly(m, base, n, HEAP_FLAGS, Heap, base);
      assert base / PAGE in Frames(base / PAGE, n);
    }
  }

  /** What was mapped stays mapped, and the next heap area would start where it would have. */
  ghost predicate KeepsHeapEnd(m: Mem, m': Mem) {
    LastHeapEnd(m'.vmas) == LastHeapEnd(m.vmas) && m.pages.Keys <= m'.pages.Keys
  }

  lemma PushHeapEnd(vmas: seq<Vma>, v: Vma)
    ensures LastHeapEnd(vmas + [v]) == if v.kind.Heap? then v.end else LastHeapEnd(vmas)
  {}

  lemma {:induction false} MapKeepsHeapEnd(m: Mem, virt: nat, phys: nat, flags: Flags)
    ensures KeepsHeapEnd(m, MapSpec(m, virt, phys, flags).mem)
  {
    WithTablesKeep(m, virt / PAGE, 3);
    PushHeapEnd(m.vmas, Vma(AlignDown(virt), AlignUp(virt), flags, KernelData));
  }

  lemma {:induction false} MapRunKeepsHeapEnd(m: Mem, base: nat, first: nat, k: nat, flags: Flags)
    ensures KeepsHeapEnd(m, MapRun(m, base, first, k, flags).mem)
  {
    hide MapSpec, LastHeapEnd;
    if k == 0 {
    } else {
      MapRunKeepsHeapEnd(m, base, first, k - 1, flags);
      var t := MapRun(m, base, first, k - 1, flags).mem;
      MapKeepsHeapEnd(t, PageAt(base, k - 1), (first + k - 1) * PAGE, flags);
    }
  }

  lemma {:induction false} RequestKeepsHeapEnd(m: Mem, base: nat, n: nat, flags: Flags, kind: Kind, answer: nat)
    requires !AllocateSpec(m.bits, n).Abort?
    ensures var o := AllocateAt(m, base, n, flags, kind, answer); (o.Ok? && kind.Heap?) || KeepsHeapEnd(m, o.mem)
  {
    hide MapRun, LastHeapEnd;
    if AllocateSpec(m.bits, n).Granted? {
      var first := AllocateSpec(m.bits, n).addr / PAGE;
      MapRunKeepsHeapEnd(Taken(m, first, n), base, first, n, flags);
      PushHeapEnd(MapRun(Taken(m, first, n), base, first, n, flags).mem.vmas, Vma(base, base + n * PAGE, flags, kind));
    }
  }

  lemma {:induction false} BlockedStep(m: Mem, op: Op)
    requires HeapBlocked(m) && !op.UnmapOp? && !Apply(m, op).Stop?
    ensures HeapBlocked(Apply(m, op).mem)
  {
    hide LastHeapEnd, PageCount, MapArea;
    match op
    case MapOp(virt, phys, flags) => MapKeepsHeapEnd(m, virt, phys, flags);
    case HeapOp(size) =>
      BlockedFails(m, size);
      RequestKeepsHeapEnd(m, LastHeapEnd(m.vmas), PageCount(size), HEAP_FLAGS, Heap, LastHeapEnd(m.vmas));
    case StackOp(size) =>
      var n := PageCount(if size > STACK_MIN then size else STACK_MIN);
      if n * PAGE <= STACK_END {
        RequestKeepsHeapEnd(m, STACK_END - n * PAGE, n, STACK_FLAGS, Stack, STACK_END);
      }
  }

  /** Once the page where the heap would grow is mapped, no heap request succeeds until something is unmapped. */
  lemma {:induction false} BlockedUntilUnmap(m: Mem, ops: seq<Op>, size: nat)
    requires HeapBlocked(m) && (forall op :: op in ops ==> !op.UnmapOp?) && !RunOps(m, ops).Stop?
    ensures HeapBlocked(RunOps(m, ops).mem) && !HeapSpec(RunOps(m, ops).mem, size).Ok?
  {
    hide HeapBlocked, Apply;
    if ops == [] {
    } else {
      var before, op := ops[..|ops| - 1], ops[|ops| - 1];
      assert op in ops;
      BlockedUntilUnmap(m, before, size);
      BlockedStep(RunOps(m, before).mem, op);
    }
    BlockedFails(RunOps(m, ops).mem, size);
  }

  /**
   * In every run, a heap request that was granted its frames and fails blocks the heap exactly if its first
   * page was mapped before or the frames last for the tables of that page.
   */
  lemma {:induction false} FailedHeapBlocksExactly(pages: nat, root: nat, ops: seq<Op>, size: nat)
    requires root < pages && !RunOps(Start(pages, root), ops).Stop?
    requires var m := RunOps(Start(pages, root), ops).mem;
      AllocateSpec(m.bits, PageCount(size)).Granted? && HeapSpec(m, size).Err?
    ensures var m, n := RunOps(Start(pages, root), ops).mem, PageCount(size); var page := LastHeapEnd(m.vmas) / PAGE;
      HeapBlocked(HeapSpec(m, size).mem) <==> page in m.pages || Missing(m, TablesOf(page, 3)) <= CountFree(m.bits) - n
  {
    hide RunOps, HeapSpec, AllocateSpec, PageCount, LastHeapEnd, HeapBlocked, Missing, TablesOf;
    HeapAligned(pages, root, ops);
    FailedHeapBlocks(RunOps(Start(pages, root), ops).mem, size);
  }

  lemma {:induction false} FailedHeapBlocks(m: Mem, size: nat)
    requires LastHeapEnd(m.vmas) % PAGE == 0 && AllocateSpec(m.bits, PageCount(size)).Granted? && HeapSpec(m, size).Err?
    ensures var n, page := PageCount(size), LastHeapEnd(m.vmas) / PAGE;
      HeapBlocked(HeapSpec(m, size).mem) <==> page in m.pages || Missing(m, TablesOf(page, 3)) <= CountFree(m.bits) - n
  {
    hide PageCount, LastHeapEnd, MapRun, Missing, TablesOf;
    var base, n := LastHeapEnd(m.vmas), PageCount(size);
    var first := AllocateSpec(m.bits, n).addr / PAGE;
    var taken := Taken(m, first, n);
    RequestKeepsHeapEnd(m, base, n, HEAP_FLAGS, Heap, base);
    assert HeapSpec(m, size).mem.pages == MapRun(taken, base, first, n, HEAP_FLAGS).mem.pages;
    CountMarked(m.bits, first, n);
    SameMissing(m, taken, TablesOf(base / PAGE, 3));
    FirstPage(taken, base, first, n, HEAP_FLAGS);
  }

  /** After a run of mappings the first page is mapped exactly if it was or could be. */
  lemma {:induction false} FirstPage(m: Mem, base: nat, first: nat, n: nat, flags: Flags)
    requires base % PAGE == 0 && n > 0
    ensures base / PAGE in MapRun(m, base, first, n, flags).mem.pages
       <==> base / PAGE in m.pages || Missing(m, TablesOf(base / PAGE, 3)) <= CountFree(m.bits)
    decreases n
  {
    hide MapReserved, Missing, TablesOf;
    PageAtAligned(base, n - 1);
    var t := MapRun(m, base, first, n - 1, flags);
    if n == 1 {
      MapReservedCosts(m, base, first, flags);
      WithTablesKeep(m, base / PAGE, 3);
      FailedMapKeepsPages(m, base, first, flags);
    } else {
      FirstPage(m, base, first, n - 1, flags);
      if t.ok {
        MapReservedCosts(t.mem, PageAt(base, n - 1), first + n - 1, flags);
        FailedMapKeepsPages(t.mem, PageAt(base, n - 1), first + n - 1, flags);
      }
    }
  }

  lemma {:induction false} FailedMapKeepsPages(m: Mem, virt: nat, frame: nat, flags: Flags)
    ensures !MapReserved(m, virt, frame, flags).ok ==> MapReserved(m, virt, frame, flags).mem.pages == m.pages
  {
    WithTablesKeep(m, virt / PAGE, 3);
  }

  /** While a stack area is live every further stack request fails. */
  lemma {:induction false} OneStackAtATime(pages: nat, root: nat, ops: seq<Op>, v: Vma, size: nat)
    requires root < pages && !RunOps(Start(pages, root), ops).Stop?
    requires v in RunOps(Start(pages, root), ops).mem.vmas && v.kind.Stack?
    ensures !StackSpec(RunOps(Start(pages, root), ops).mem, size).Ok?
  {
    hide RunOps, StackSpec, VmaInv;
    VmaInvRun(pages, root, ops);
    var m := RunOps(Start(pages, root), ops).mem;
    LiveStackTakesPage(m, v);
    StackPageTaken(m, size);
  }

  lemma {:induction false} LiveStackTakesPage(m: Mem, v: Vma)
    requires VmaInv(m.pages, m.vmas) && v in m.vmas && v.kind.Stack?
    ensures STACK_END / PAGE - 1 in m.pages
  {
    assert Shaped(v) && Backed(m.pages, v);
    assert Covers(v, STACK_END / PAGE - 1);
  }

  lemma {:induction false} StackPageTaken(m: Mem, size: nat)
    requires STACK_END / PAGE - 1 in m.pages
    ensures !StackSpec(m, size).Ok?
  {
    hide StackSpec, PageCount;
    var n := PageCount(if size > STACK_MIN then size else STACK_MIN);
    if StackSpec(m, size).Ok? {
      StackIs(m, size);
      hide AllocateAt;
      StackSucceedsExactly(m, size);
      TopPage(n);
    }
  }

  lemma TopPage(n: nat)
    requires 0 < n && n * PAGE <= STACK_END
    ensures STACK_END / PAGE - 1 in Frames((STACK_END - n * PAGE) / PAGE, n)
  {}

  lemma {:induction false} AreaHas(base: nat, k: nat, i: nat)
    requires i < k
    ensures TablesOf(PageAt(base, i) / PAGE, 3) <= AreaTables(base, k)
  {
    if i == k - 1 {
    } else {
      AreaHas(base, k - 1, i);
    }
  }

  lemma TablesAre(page: nat)
    ensures TablesOf(page, 3) == {(1, page / 0x200), (2, page / 0x200 / 0x200), (3, page / 0x200 / 0x200 / 0x200)}
  {
    assert TableIndex(page, 1) == page / 0x200 && TableIndex(page, 2) == page / 0x200 / 0x200;
    assert TablesOf(page, 1) == {(1, page / 0x200)};
    assert TablesOf(page, 2) == {(1, page / 0x200), (2, page / 0x200 / 0x200)};
  }

  /**
   * It happens: with 261 frames, a first heap request of 257 pages gets its frames, finds none left for the
   * fourth table it needs, and fails; the heap is blocked from then on.
   */
  lemma {:induction false} HeapBlocksItself()
    ensures var o := HeapSpec(Start(261, 0), 257 * PAGE); o.Err? && HeapBlocked(o.mem)
  {
    var m := Start(261, 0);
    StartCounts(261);
    StartGrants(261, 257);
    TooManyTables(m);
    assert PageCount(257 * PAGE) == 257 && LastHeapEnd(m.vmas) == HEAP_BASE;
    hide HeapSpec, AllocateSpec, AllocateAt, Missing, AreaTables, TablesOf, Frames, Start, PageCount, LastHeapEnd;
    HeapSucceeds(m, 257 * PAGE);
    HeapIs(m, 257 * PAGE);
    FailedHeapBlocks(m, 257 * PAGE);
  }

  lemma {:induction false} StartGrants(pages: nat, n: nat)
    requires 0 < n < pages
    ensures AllocateSpec(Start(pages, 0).bits, n).Granted?
  {
    var b := Start(pages, 0).bits;
    StartCounts(pages);
    assert FreeRun(b, 1, n);
    FirstFitExactly(b, n);
  }

  lemma {:induction false} StartCounts(pages: nat)
    requires pages > 0
    ensures CountFree(Start(pages, 0).bits) == pages - 1
  {
    var all := seq(pages, _ => true);
    CountAllFree(all);
    CountUpdate(all, 0, false);
    assert Start(pages, 0).bits == all[0 := false];
  }

  lemma {:induction false} TooManyTables(m: Mem)
    requires m.tables.Keys == {(4, 0)}
    ensures Missing(m, AreaTables(HEAP_BASE, 257)) >= 4
    ensures Missing(m, TablesOf(256, 3)) == 3
  {
    FourTables();
    hide AreaTables, TablesOf;
    MissingMore(m, {(1, 0), (2, 0), (3, 0), (1, 1)}, AreaTables(HEAP_BASE, 257));
    NoRoot(m, {(1, 0), (2, 0), (3, 0), (1, 1)});
    NoRoot(m, {(1, 0), (2, 0), (3, 0)});
  }

  lemma NoRoot(m: Mem, tables: set<(nat, nat)>)
    requires m.tables.Keys == {(4, 0)} && (4, 0) !in tables
    ensures Missing(m, tables) == |tables|
  {
    assert tables - m.tables.Keys == tables;
  }

  lemma {:induction false} FourTables()
    ensures {(1, 0), (2, 0), (3, 0), (1, 1)} <= AreaTables(HEAP_BASE, 257)
    ensures TablesOf(256, 3) == {(1, 0), (2, 0), (3, 0)}
  {
    FirstAndLastPage();
    hide PageAt, AreaTables, TablesOf, TableIndex;
    TablesAre(256);
    TablesAre(512);
    var all, first, last := AreaTables(HEAP_BASE, 257), TablesOf(256, 3), TablesOf(512, 3);
    assert first <= all && last <= all;
    assert (1, 0) in first && (2, 0) in first && (3, 0) in first && (1, 1) in last;
  }

  lemma {:induction false} FirstAndLastPage()
    ensures TablesOf(256, 3) <= AreaTables(HEAP_BASE, 257) && TablesOf(512, 3) <= AreaTables(HEAP_BASE, 257)
  {
    assert PageAt(HEAP_BASE, 0) / PAGE == 256 && PageAt(HEAP_BASE, 256) / PAGE == 512;
    hide PageAt, AreaTables, TablesOf, TableIndex;
    AreaHas(HEAP_BASE, 257, 0);
    AreaHas(HEAP_BASE, 257, 256);
  }

  /** A page that is not mapped fails to be only for want of a table's frame, and then no frame is left at all. */
  lemma {:induction false} MapFailsExactly(m: Mem, virt: nat, phys: nat, flags: Flags)
    requires virt / PAGE !in m.pages
    ensures var t := MapSpec(m, virt, phys, flags);
      && (t.ok <==> Missing(m, TablesOf(virt / PAGE, 3)) <= CountFree(m.bits))
      && (!t.ok ==> CountFree(t.mem.bits) == 0)
  {
    hide WithTables, TablesOf, Missing;
    MapCosts(m, virt, phys, flags);
    WithTablesKeep(m, virt / PAGE, 3);
    TablesUseUp(m, virt / PAGE, 3);
  }

  lemma {:induction false} TablesUseUp(m: Mem, page: nat, level: nat)
    ensures !WithTables(m, page, level).ok ==> CountFree(WithTables(m, page, level).mem.bits) == 0
    decreases level
  {
    if level == 0 {
    } else {
      var t := WithTable(m, (level, TableIndex(page, level)));
      hide TableIndex;
      if t.ok {
        TablesUseUp(t.mem, page, level - 1);
      } else {
        FirstFreeExactly(m.bits, 0);
        CountNoneFree(m.bits);
      }
    }
  }

  /** The first heap area starts at one megabyte, and each one where the one before ends. */
  lemma {:induction false} HeapIsContiguous(m: Mem, size: nat, next: nat)
    requires HeapSpec(m, size).Ok? && HeapSpec(HeapSpec(m, size).mem, next).Ok?
    ensures HeapSpec(HeapSpec(m, size).mem, next).addr == HeapSpec(m, size).addr + PageCount(size) * 4096
    ensures (forall v :: v in m.vmas ==> !v.kind.Heap?) ==> HeapSpec(m, size).addr == 0x10_0000
  {
    var m' := HeapSpec(m, size).mem;
    HeapIs(m, size);
    HeapIs(m', next);
    HeapEndsHere(m, size);
    if forall v :: v in m.vmas ==> !v.kind.Heap? {
      NoHeapYet(m.vmas);
    }
  }

  lemma {:induction false} HeapEndsHere(m: Mem, size: nat)
    requires HeapSpec(m, size).Ok?
    ensures LastHeapEnd(HeapSpec(m, size).mem.vmas) == LastHeapEnd(m.vmas) + PageCount(size) * PAGE
  {
    HeapIs(m, size);
    hide HeapSpec, MapRun, LastHeapEnd, PageCount;
    var base, n := LastHeapEnd(m.vmas), PageCount(size);
    var first := AllocateSpec(m.bits, n).addr / PAGE;
    var mapped := MapRun(Taken(m, first, n), base, first, n, HEAP_FLAGS).mem;
    PushHeapEnd(mapped.vmas, Vma(base, base + n * PAGE, HEAP_FLAGS, Heap));
  }

  lemma {:induction false} NoHeapYet(vmas: seq<Vma>)
    requires forall v :: v in vmas ==> !v.kind.Heap?
    ensures LastHeapEnd(vmas) == 0x10_0000
  {
    if vmas == [] {
    } else {
      assert vmas[|vmas| - 1] in vmas;
      NoHeapYet(vmas[..|vmas| - 1]);
    }
  }

  // ---------------------------------------------------------------------------------------------
  // A heap of two pages
  // ---------------------------------------------------------------------------------------------

  /** With 7 frames a first heap request of two pages succeeds and leaves one frame. */
  lemma {:induction false} SmallHeap()
    ensures var o := HeapSpec(Start(7, 0), 2 * PAGE);
      && o.Ok? && o.addr == HEAP_BASE && VmaInv(o.mem.pages, o.mem.vmas)
      && o.mem.pages.Keys == {256, 257} && CountFree(o.mem.bits) == 1
      && Vma(HEAP_BASE, HEAP_BASE + 2 * PAGE, HEAP_FLAGS, Heap) in o.mem.vmas
  {
    hide Start, VmaInv, AllocateSpec, AllocateAt, HeapSpec, Missing, AreaTables, Frames, PageCount, LastHeapEnd;
    hide Mappable;
    SmallStart();
    SmallStartGrants();
    var m := Start(7, 0);
    HeapSucceeds(m, 2 * PAGE);
    HeapIs(m, 2 * PAGE);
    GrantCosts(m, HEAP_BASE, 2, HEAP_FLAGS, Heap, HEAP_BASE);
    AllocateAtKeepsVmas(m, HEAP_BASE, 2, HEAP_FLAGS, Heap, HEAP_BASE, HEAP_BASE);
  }

  lemma {:induction false} SmallStart()
    ensures var m := Start(7, 0);
      && m.pages == map[] && m.vmas == [] && m.tables.Keys == {(4, 0)} && VmaInv(m.pages, m.vmas)
      && LastHeapEnd(m.vmas) == HEAP_BASE
    ensures PageCount(2 * PAGE) == 2 && Frames(256, 2) == {256, 257}
  {
    NoVmas(map[]);
    FramesOfTwo(256);
  }

  lemma {:induction false} SmallStartGrants()
    ensures var m := Start(7, 0);
      && CountFree(m.bits) == 6 && Missing(m, AreaTables(HEAP_BASE, 2)) == 3
      && AllocateSpec(m.bits, 2).Granted? && Mappable(m, HEAP_BASE, 2, 4)
  {
    SmallStart();
    hide AllocateSpec, AreaTables, Missing, CountFree, Frames, VmaInv, Start;
    StartCounts(7);
    StartGrants(7, 2);
    ThreeTables(Start(7, 0));
  }

  lemma FramesOfTwo(first: nat)
    ensures Frames(first, 2) == {first, first + 1}
  {}

  lemma {:induction false} ThreeTables(m: Mem)
    requires m.tables.Keys == {(4, 0)}
    ensures Missing(m, AreaTables(HEAP_BASE, 2)) == Missing(m, TablesOf(256, 3)) == 3
  {
    TablesAre(256);
    TablesAre(257);
    var three: set<(nat, nat)> := {(1, 0), (2, 0), (3, 0)};
    assert PageAt(HEAP_BASE, 0) / PAGE == 256 && PageAt(HEAP_BASE, 1) / PAGE == 257;
    assert AreaTables(HEAP_BASE, 1) == AreaTables(HEAP_BASE, 0) + TablesOf(256, 3);
    assert AreaTables(HEAP_BASE, 2) == AreaTables(HEAP_BASE, 1) + TablesOf(257, 3);
    assert AreaTables(HEAP_BASE, 2) == three;
    NoRoot(m, three);
  }

  /** It happens: unmapping the first page takes access to the second one, which stays mapped. */
  lemma {:induction false} UnmapTakesNeighbour(write: bool)
    ensures var m := HeapSpec(Start(7, 0), 2 * PAGE).mem; var u := UnmapSpec(m, HEAP_BASE);
      && u.Ok? && HEAP_BASE / PAGE + 1 in u.mem.pages
      && CheckAccess(m.vmas, HEAP_BASE + PAGE, write) && !CheckAccess(u.mem.vmas, HEAP_BASE + PAGE, write)
  {
    SmallHeap();
    NoVmas(Start(7, 0).pages);
    HeapAreaUsable(Start(7, 0), 2 * PAGE, HEAP_BASE + PAGE, write);
    var m := HeapSpec(Start(7, 0), 2 * PAGE).mem;
    hide HeapSpec, CheckAccess, Start, VmaInv;
    assert SameArea(m.vmas, HEAP_BASE, HEAP_BASE + PAGE) by {
      assert Vma(HEAP_BASE, HEAP_BASE + 2 * PAGE, HEAP_FLAGS, Heap) in m.vmas;
    }
    UnmapDropsAreaExactly(m, HEAP_BASE, HEAP_BASE + PAGE, write);
  }

  /** It happens: a page mapped at an aligned address is in no area, so no access to it passes. */
  lemma {:induction false} AlignedMapUnseen(phys: nat, flags: Flags, write: bool)
    ensures var t := MapSpec(Start(7, 0), HEAP_BASE, phys, flags);
      t.ok && HEAP_BASE / PAGE in t.mem.pages && !CheckAccess(t.mem.vmas, HEAP_BASE, write)
  {
    var m := Start(7, 0);
    StartCounts(7);
    ThreeTables(m);
    NoVmas(m.pages);
    hide Missing, TablesOf, VmaInv, MapSpec, CheckAccess;
    MapCosts(m, HEAP_BASE, phys, flags);
    MapRecordsExactly(m, HEAP_BASE, phys, flags, write);
  }

  /** It happens: a page table created over a heap leaves access to pages that are no longer mapped. */
  lemma {:induction false} CreateStrandsHeap(write: bool)
    ensures var m := HeapSpec(Start(7, 0), 2 * PAGE).mem; var t := CreateSpec(m);
      t.ok && CheckAccess(t.mem.vmas, HEAP_BASE, write) && HEAP_BASE / PAGE !in t.mem.pages
  {
    SmallHeap();
    NoVmas(Start(7, 0).pages);
    HeapAreaUsable(Start(7, 0), 2 * PAGE, HEAP_BASE, write);
    var m := HeapSpec(Start(7, 0), 2 * PAGE).mem;
    hide HeapSpec, CheckAccess, Start, VmaInv;
    FirstFreeExactly(m.bits, 0);
    if FirstFree(m.bits, 0).None? {
      CountNoneFree(m.bits);
    }
  }
}

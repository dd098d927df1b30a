/** What stands in the page table entries, with flags and numbers written out. */
module EntryLaws {
  import opened PhysicalMemory
  import opened VirtualMemory
  import opened FrameLaws
  import opened VmaLaws
  import opened GrantLaws

  // ---------------------------------------------------------------------------------------------
  // One entry
  // ---------------------------------------------------------------------------------------------

  /** After `map` the entry of the page has the frame and exactly the hardware flags given; no other entry changes. */
  lemma {:induction false} MapEntryExactly(m: Mem, virt: nat, phys: nat, flags: Flags)
    requires MapSpec(m, virt, phys, flags).ok
    ensures virt / 4096 in MapSpec(m, virt, phys, flags).mem.pages
    ensures var e := MapSpec(m, virt, phys, flags).mem.pages[virt / 4096];
      && e.frame == phys / 4096
      && (forall f :: f in {Present, Writable, User, NoCache, WriteThrough, Global} ==> (f in e.flags <==> f in flags))
      && Accessed !in e.flags && Dirty !in e.flags && HugePage !in e.flags
    ensures forall p :: p in m.pages ==>
              p in MapSpec(m, virt, phys, flags).mem.pages && MapSpec(m, virt, phys, flags).mem.pages[p] == m.pages[p]
  {
    WithTablesKeep(m, virt / PAGE, 3);
  }

  /** The pages of an area that was mapped lead to consecutive frames, in order. */
  lemma {:induction false} MapRunEntries(m: Mem, base: nat, first: nat, k: nat, flags: Flags, i: nat)
    requires base % PAGE == 0 && MapRun(m, base, first, k, flags).ok && i < k
    ensures var pages := MapRun(m, base, first, k, flags).mem.pages;
      base / PAGE + i in pages && pages[base / PAGE + i].frame == first + i
  {
    hide MapSpec, Frames;
    var t := MapRun(m, base, first, k - 1, flags);
    var virt, frame := PageAt(base, k - 1), first + k - 1;
    MapEntryExactly(t.mem, virt, frame * PAGE, flags);
    PageAtAligned(base, k - 1);
    if i == k - 1 {
      assert frame * PAGE / 4096 == frame;
    } else {
      MapRunEntries(m, base, first, k - 1, flags, i);
    }
  }

  /** Byte for byte: what a successful request maps at base + offset lies at offset from the frames it was granted. */
  lemma {:induction false} AreaTranslates(
      m: Mem, base: nat, n: nat, flags: Flags, kind: Kind, answer: nat, offset: nat)
    requires base % PAGE == 0 && offset < n * PAGE && AllocateAt(m, base, n, flags, kind, answer).Ok?
    ensures var pages, virt := AllocateAt(m, base, n, flags, kind, answer).mem.pages, base + offset;
      && virt / PAGE in pages && AllocateSpec(m.bits, n).Granted?
      && pages[virt / PAGE].frame * PAGE + virt % PAGE == AllocateSpec(m.bits, n).addr + offset
  {
    hide MapRun;
    var first := AllocateSpec(m.bits, n).addr / PAGE;
    OffsetParts(base, offset, n);
    MapRunEntries(Taken(m, first, n), base, first, n, flags, offset / PAGE);
  }

  lemma OffsetParts(base: nat, offset: nat, n: nat)
    requires base % PAGE == 0 && offset < n * PAGE
    ensures (base + offset) / PAGE == base / PAGE + offset / PAGE && (base + offset) % PAGE == offset % PAGE
    ensures offset / PAGE < n && offset == offset / PAGE * PAGE + offset % PAGE
  {}

  // ---------------------------------------------------------------------------------------------
  // The areas of a run
  // ---------------------------------------------------------------------------------------------

  /** Stacks are for user code, heaps are not. */
  ghost predicate Flagged(vmas: seq<Vma>) {
    forall v :: v in vmas ==>
      && (v.kind.Stack? ==> v.flags == {Present, Writable, User})
      && (v.kind.Heap? ==> v.flags == {Present, Writable})
  }

  ghost predicate KeepsFlags(o: Outcome) { !o.Stop? ==> Flagged(o.mem.vmas) }

  lemma {:induction false} MapKeepsFlags(m: Mem, virt: nat, phys: nat, flags: Flags)
    requires Flagged(m.vmas)
    ensures Flagged(MapSpec(m, virt, phys, flags).mem.vmas)
  {
    WithTablesKeep(m, virt / PAGE, 3);
  }

  lemma {:induction false} MapRunKeepsFlags(m: Mem, base: nat, first: nat, k: nat, flags: Flags)
    requires Flagged(m.vmas)
    ensures Flagged(MapRun(m, base, first, k, flags).mem.vmas)
  {
    hide MapSpec, Flagged;
    if k == 0 {
    } else {
      MapRunKeepsFlags(m, base, first, k - 1, flags);
      var t := MapRun(m, base, first, k - 1, flags);
      MapKeepsFlags(t.mem, PageAt(base, k - 1), (first + k - 1) * PAGE, flags);
    }
  }

  lemma {:induction false} RequestKeepsFlags(m: Mem, base: nat, n: nat, flags: Flags, kind: Kind, answer: nat)
    requires Flagged(m.vmas) && Flagged([Vma(base, base + n * PAGE, flags, kind)])
    ensures KeepsFlags(AllocateAt(m, base, n, flags, kind, answer))
  {
    hide MapRun;
    if AllocateSpec(m.bits, n).Granted? {
      var first := AllocateSpec(m.bits, n).addr / PAGE;
      MapRunKeepsFlags(Taken(m, first, n), base, first, n, flags);
      assert Vma(base, base + n * PAGE, flags, kind) in [Vma(base, base + n * PAGE, flags, kind)];
    }
  }

  lemma {:induction false} ApplyKeepsFlags(m: Mem, op: Op)
    requires Flagged(m.vmas)
    ensures KeepsFlags(Apply(m, op))
  {
    hide PageCount, LastHeapEnd, AllocateAt, MapSpec;
    match op
    case MapOp(virt, phys, flags) => MapKeepsFlags(m, virt, phys, flags);
    case HeapOp(size) =>
      RequestKeepsFlags(m, LastHeapEnd(m.vmas), PageCount(size), HEAP_FLAGS, Heap, LastHeapEnd(m.vmas));
    case StackOp(size) =>
      var n := PageCount(if size > STACK_MIN then size else STACK_MIN);
      if n * PAGE <= STACK_END {
        RequestKeepsFlags(m, STACK_END - n * PAGE, n, STACK_FLAGS, Stack, STACK_END);
      }
    case UnmapOp(virt) => WithoutFrom(m.vmas, virt);
  }

  lemma {:induction false} FlagsRun(pages: nat, root: nat, ops: seq<Op>)
    requires root < pages
    ensures KeepsFlags(RunOps(Start(pages, root), ops))
  {
    hide Apply, Flagged;
    if ops == [] {
      NoFlags();
    } else {
      FlagsRun(pages, root, ops[..|ops| - 1]);
      var o := RunOps(Start(pages, root), ops[..|ops| - 1]);
      if !o.Stop? {
        ApplyKeepsFlags(o.mem, ops[|ops| - 1]);
      }
    }
  }

  lemma NoFlags()
    ensures Flagged([])
  {}

  /**
   * In every run each page of a live stack area is mapped for the user, to be written, and each page of a heap
   * area to be written by the kernel alone.
   */
  lemma {:induction false} AreaPagesFlagged(pages: nat, root: nat, ops: seq<Op>, v: Vma, p: nat)
    requires root < pages && !RunOps(Start(pages, root), ops).Stop?
    requires v in RunOps(Start(pages, root), ops).mem.vmas && v.start <= p * 4096 < v.end
    ensures var m := RunOps(Start(pages, root), ops).mem;
      && p in m.pages
      && (v.kind.Stack? ==> m.pages[p].flags == {Present, Writable, User})
      && (v.kind.Heap? ==> m.pages[p].flags == {Present, Writable})
  {
    VmaInvRun(pages, root, ops);
    FlagsRun(pages, root, ops);
    var m := RunOps(Start(pages, root), ops).mem;
    hide RunOps;
    assert Backed(m.pages, v) && Covers(v, p);
  }

  // ---------------------------------------------------------------------------------------------
  // By number
  // ---------------------------------------------------------------------------------------------

  /** The pages of a request: the size rounded up, and none if the rounding passes the end of a 64-bit word. */
  lemma {:induction false} PageCountExactly(size: nat)
    requires size <= 0xFFFF_FFFF_FFFF_FFFF
    ensures size <= 0xFFFF_FFFF_FFFF_F000 ==> size <= PageCount(size) * 4096 <= size + 4095
    ensures size > 0xFFFF_FFFF_FFFF_F000 ==> PageCount(size) == 0
  {}

  /** With 7 frames, a heap of 4097 bytes is two pages from one megabyte on. */
  lemma {:induction false} HeapByNumber()
    ensures var o := HeapSpec(Start(7, 0), 4097);
      o.Ok? && o.addr == 0x10_0000 && o.mem.pages.Keys == {0x100, 0x101}
  {
    SmallHeap();
    assert PageCount(4097) == PageCount(2 * PAGE);
  }

  /** With 7 frames, a stack of one byte is two pages that end below the last page of the first four gigabytes. */
  lemma {:induction false} StackByNumber()
    ensures var o := StackSpec(Start(7, 0), 1);
      && o.Ok? && o.addr == 0xFFFF_F000 && o.mem.pages.Keys == {0xF_FFFD, 0xF_FFFE}
      && forall p :: p in o.mem.pages ==> o.mem.pages[p].flags == {Present, Writable, User}
  {
    hide Start, AllocateSpec, AllocateAt, StackSpec, Missing, AreaTables, Frames, PageCount, Mappable;
    var m := Start(7, 0);
    SmallStart();
    SmallStack();
    StackSucceedsExactly(m, 1);
    StackIs(m, 1);
    GrantCosts(m, 0xFFFF_D000, 2, STACK_FLAGS, Stack, STACK_END);
    var o := StackSpec(m, 1);
    assert RunOps(m, [StackOp(1)]) == Ok(o.mem, o.addr) by {
      OneOp(m, StackOp(1));
    }
    forall p | p in o.mem.pages
      ensures o.mem.pages[p].flags == {Present, Writable, User}
    {
      AreaPagesFlagged(7, 0, [StackOp(1)], Vma(0xFFFF_D000, 0xFFFF_F000, STACK_FLAGS, Stack), p);
    }
  }

  lemma OneOp(m: Mem, op: Op)
    ensures RunOps(m, [op]) == Apply(m, op)
  {
    assert [op][..0] == [] && RunOps(m, []) == Ok(m, 0);
  }

  lemma {:induction false} SmallStack()
    ensures PageCount(8192) == 2 && Frames(0xF_FFFD, 2) == {0xF_FFFD, 0xF_FFFE}
    ensures Mappable(Start(7, 0), 0xFFFF_D000, 2, CountFree(Start(7, 0).bits) - 2)
    ensures AllocateSpec(Start(7, 0).bits, 2).Granted?
  {
    assert PageCount(8192) == 2;
    hide AreaTables, Frames, Start, Missing, AllocateSpec, CountFree, PageCount, VmaInv;
    FramesOfTwo(0xF_FFFD);
    SmallStart();
    SmallStartGrants();
    StackTablesMissing(Start(7, 0));
  }

  lemma {:induction false} StackTablesMissing(m: Mem)
    requires m.tables.Keys == {(4, 0)}
    ensures Missing(m, AreaTables(0xFFFF_D000, 2)) == 3
  {
    StackTables();
    hide AreaTables;
    var three: set<(nat, nat)> := {(1, 2047), (2, 3), (3, 0)};
    NoRoot(m, three);
  }

  lemma {:induction false} StackTables()
    ensures AreaTables(0xFFFF_D000, 2) == {(1, 2047), (2, 3), (3, 0)}
  {
    TablesAre(0xF_FFFD);
    TablesAre(0xF_FFFE);
    assert PageAt(0xFFFF_D000, 0) / PAGE == 0xF_FFFD && PageAt(0xFFFF_D000, 1) / PAGE == 0xF_FFFE;
    assert AreaTables(0xFFFF_D000, 1) == AreaTables(0xFFFF_D000, 0) + TablesOf(0xF_FFFD, 3);
    assert AreaTables(0xFFFF_D000, 2) == AreaTables(0xFFFF_D000, 1) + TablesOf(0xF_FFFE, 3);
  }
}

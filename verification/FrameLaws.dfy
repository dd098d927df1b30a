/** Frame isolation: who owns which physical frame, over every run of the memory manager. */
module FrameLaws {
  import opened PhysicalMemory
  import opened VirtualMemory

  ghost function MappedFrames(m: Mem): set<nat> {
    set p | p in m.pages :: m.pages[p].frame
  }

  /** Mapped, table and reserved frames are told apart, each owner has its own, and together they are the used ones. */
  ghost predicate FrameInv(m: Mem) {
    && (forall p, q :: p in m.pages && q in m.pages && m.pages[p].frame == m.pages[q].frame ==> p == q)
    && (forall k, l :: k in m.tables && l in m.tables && m.tables[k] == m.tables[l] ==> k == l)
    && MappedFrames(m) !! m.tables.Values
    && MappedFrames(m) !! m.reserved
    && m.tables.Values !! m.reserved
    && UsedFrames(m.bits) == MappedFrames(m) + m.tables.Values + m.reserved
  }

  /** Every table stays in its frame, and the bitmap keeps its length. */
  ghost predicate Grows(m: Mem, m': Mem) {
    |m'.bits| == |m.bits| && forall k :: k in m.tables ==> k in m'.tables && m'.tables[k] == m.tables[k]
  }

  /** What making tables leaves alone. */
  ghost predicate OnlyTables(m: Mem, m': Mem) {
    m'.pages == m.pages && m'.vmas == m.vmas && m'.reserved == m.reserved && Grows(m, m')
  }

  lemma {:induction false} WithTableKeeps(m: Mem, key: (nat, nat))
    ensures OnlyTables(m, WithTable(m, key).mem)
    ensures FrameInv(m) ==> FrameInv(WithTable(m, key).mem)
  {
    if FrameInv(m) && key !in m.tables && FirstFree(m.bits, 0).Some? {
      var f := FirstFree(m.bits, 0).value;
      var m' := WithTable(m, key).mem;
      assert f !in UsedFrames(m.bits);
      assert UsedFrames(m'.bits) == UsedFrames(m.bits) + {f};
      assert forall k :: k in m.tables ==> m.tables[k] in m.tables.Values;
      assert m'.tables.Values == m.tables.Values + {f} by {
        assert m'.tables[key] == f;
        assert forall k :: k in m.tables ==> m'.tables[k] == m.tables[k];
      }
      assert MappedFrames(m') == MappedFrames(m);
    }
  }

  lemma {:induction false} WithTablesKeep(m: Mem, page: nat, level: nat)
    ensures OnlyTables(m, WithTables(m, page, level).mem)
    ensures FrameInv(m) ==> FrameInv(WithTables(m, page, level).mem)
    decreases level
  {
    if level == 0 {
    } else {
      var key := (level, TableIndex(page, level));
      WithTableKeeps(m, key);
      WithTablesKeep(WithTable(m, key).mem, page, level - 1);
    }
  }

  lemma {:induction false} MapReservedKeeps(m: Mem, virt: nat, frame: nat, flags: Flags)
    requires FrameInv(m) && frame in m.reserved
    ensures var t := MapReserved(m, virt, frame, flags);
      FrameInv(t.mem) && t.mem.reserved == if t.ok then m.reserved - {frame} else m.reserved
  {
    var t := MapReserved(m, virt, frame, flags);
    var page := virt / PAGE;
    WithTablesKeep(m, page, 3);
    if t.ok {
      var w := WithTables(m, page, 3).mem;
      assert frame * PAGE / PAGE == frame;
      assert t.mem.pages == w.pages[page := Entry(frame, ToX86(flags))];
      assert t.mem.tables == w.tables && t.mem.bits == w.bits;
      EntryMovesFrame(w, page, Entry(frame, ToX86(flags)), t.mem);
    }
  }

  /** A frame leaves the ledger for a fresh page table entry. */
  lemma {:induction false} EntryMovesFrame(w: Mem, page: nat, e: Entry, m: Mem)
    requires FrameInv(w) && page !in w.pages && e.frame in w.reserved
    requires m.pages == w.pages[page := e] && m.tables == w.tables && m.bits == w.bits
    requires m.reserved == w.reserved - {e.frame}
    ensures FrameInv(m)
  {
    assert forall p :: p in w.pages ==> w.pages[p].frame in MappedFrames(w);
    assert MappedFrames(m) == MappedFrames(w) + {e.frame} by {
      assert m.pages[page] == e;
      assert forall p :: p in w.pages ==> m.pages[p] == w.pages[p];
    }
  }

  lemma {:induction false} MapRunKeeps(m: Mem, base: nat, first: nat, k: nat, flags: Flags)
    requires FrameInv(m) && forall f :: first <= f < first + k ==> f in m.reserved
    ensures var t := MapRun(m, base, first, k, flags);
      FrameInv(t.mem) && (t.ok ==> t.mem.reserved == m.reserved - Frames(first, k))
  {
    hide MapReserved;
    if k == 0 {
    } else {
      MapRunKeeps(m, base, first, k - 1, flags);
      var t := MapRun(m, base, first, k - 1, flags);
      if t.ok {
        MapReservedKeeps(t.mem, PageAt(base, k - 1), first + k - 1, flags);
      }
    }
  }

  /** The state in an outcome, when there is one. */
  ghost predicate KeepsFrames(o: Outcome) {
    !o.Stop? ==> FrameInv(o.mem)
  }

  /** The granted frames are marked, and in the ledger until they are mapped. */
  function Taken(m: Mem, first: nat, n: nat): Mem
    requires first + n <= |m.bits|
  {
    m.(bits := Marked(m.bits, first, n, false), reserved := m.reserved + Frames(first, n))
  }

  lemma {:induction false} GrantKeeps(m: Mem, n: nat)
    requires FrameInv(m) && AllocateSpec(m.bits, n).Granted?
    ensures var first := AllocateSpec(m.bits, n).addr / PAGE;
      first + n <= |m.bits| && FrameInv(Taken(m, first, n)) && Frames(first, n) !! m.reserved
  {
    var first := AllocateSpec(m.bits, n).addr / PAGE;
    var taken := Taken(m, first, n);
    assert MappedFrames(taken) == MappedFrames(m);
    assert Frames(first, n) !! UsedFrames(m.bits);
    assert UsedFrames(taken.bits) == UsedFrames(m.bits) + Frames(first, n);
  }

  lemma {:induction false} AllocateAtKeeps(m: Mem, base: nat, n: nat, flags: Flags, kind: Kind, answer: nat)
    requires FrameInv(m)
    ensures KeepsFrames(AllocateAt(m, base, n, flags, kind, answer))
  {
    var grant := AllocateSpec(m.bits, n);
    if grant.Granted? {
      var first := grant.addr / PAGE;
      var taken := Taken(m, first, n);
      GrantKeeps(m, n);
      MapRunKeeps(taken, base, first, n, flags);
      var t := MapRun(taken, base, first, n, flags);
      var area := MapArea(m.(bits := taken.bits), base, first, n, flags, kind);
      assert m.(bits := taken.bits).(reserved := m.reserved + Frames(first, n)) == taken;
      assert MappedFrames(area.mem) == MappedFrames(t.mem);
    }
  }

  lemma HeapKeeps(m: Mem, size: nat)
    requires FrameInv(m)
    ensures KeepsFrames(HeapSpec(m, size))
  {
    hide FrameInv, AllocateAt, LastHeapEnd, PageCount;
    AllocateAtKeeps(m, LastHeapEnd(m.vmas), PageCount(size), HEAP_FLAGS, Heap, LastHeapEnd(m.vmas));
  }

  lemma StackKeeps(m: Mem, size: nat)
    requires FrameInv(m)
    ensures KeepsFrames(StackSpec(m, size))
  {
    hide FrameInv, AllocateAt, PageCount;
    var n := PageCount(if size > STACK_MIN then size else STACK_MIN);
    if n * PAGE <= STACK_END {
      AllocateAtKeeps(m, STACK_END - n * PAGE, n, STACK_FLAGS, Stack, STACK_END);
    }
  }

  lemma {:induction false} UnmapKeeps(m: Mem, virt: nat)
    requires FrameInv(m)
    ensures KeepsFrames(UnmapSpec(m, virt))
  {
    var page := virt / PAGE;
    if page in m.pages {
      var m', f := UnmapSpec(m, virt).mem, m.pages[page].frame;
      assert forall p :: p in m.pages ==> m.pages[p].frame in MappedFrames(m);
      assert f in UsedFrames(m.bits);
      assert f * PAGE / PAGE == f;
      assert UsedFrames(m'.bits) == UsedFrames(m.bits) - {f};
      assert MappedFrames(m') == MappedFrames(m) - {f} by {
        assert forall p :: p in m'.pages ==> m'.pages[p] == m.pages[p];
      }
    }
  }

  // ---------------------------------------------------------------------------------------------
  // Runs
  // ---------------------------------------------------------------------------------------------

  datatype Op = MapOp(virt: nat, phys: nat, flags: Flags) | HeapOp(size: nat) | StackOp(size: nat) | UnmapOp(virt: nat)

  ghost function Apply(m: Mem, op: Op): Outcome {
    match op
    case MapOp(virt, phys, flags) =>
      var t := MapSpec(m, virt, phys, flags);
      if t.ok then Ok(t.mem, virt) else Err(t.mem)
    case HeapOp(size) => HeapSpec(m, size)
    case StackOp(size) => StackSpec(m, size)
    case UnmapOp(virt) => UnmapSpec(m, virt)
  }

  /** The last outcome of a run; a call that returns an error is no reason to stop. */
  ghost function RunOps(m: Mem, ops: seq<Op>): Outcome {
    if ops == [] then Ok(m, 0)
    else
      var o := RunOps(m, ops[..|ops| - 1]);
      if o.Stop? then o else Apply(o.mem, ops[|ops| - 1])
  }

  /** Only the zeroed root table is there, in its frame. */
  function Start(pages: nat, root: nat): Mem
    requires root < pages
  {
    Mem(seq(pages, i => i != root), [], map[], map[(4, 0) := root], {})
  }

  /** A page table created over a fresh allocator is such a start. */
  lemma {:induction false} CreateStarts(m: Mem)
    requires m.bits != [] && m.vmas == [] && m.reserved == {} && forall i :: 0 <= i < |m.bits| ==> m.bits[i]
    ensures CreateSpec(m) == Try(Start(|m.bits|, 0), true)
  {
    assert m.bits[0 := false] == seq(|m.bits|, i => i != 0);
  }

  lemma {:induction false} StartOwnsRoot(pages: nat, root: nat)
    requires root < pages
    ensures FrameInv(Start(pages, root))
  {
    var s := Start(pages, root);
    assert MappedFrames(s) == {};
    assert s.tables.Values == {root} by {
      assert s.tables[(4, 0)] == root;
    }
    assert UsedFrames(s.bits) == {root};
  }

  lemma {:induction false} FrameInvRun(pages: nat, root: nat, ops: seq<Op>)
    requires root < pages && forall op :: op in ops ==> !op.MapOp?
    ensures KeepsFrames(RunOps(Start(pages, root), ops))
  {
    hide HeapSpec, StackSpec, UnmapSpec, FrameInv;
    if ops == [] {
      StartOwnsRoot(pages, root);
    } else {
      FrameInvRun(pages, root, ops[..|ops| - 1]);
      var o := RunOps(Start(pages, root), ops[..|ops| - 1]);
      if !o.Stop? {
        var op := ops[|ops| - 1];
        assert op in ops;
        match op
        case HeapOp(size) => HeapKeeps(o.mem, size);
        case StackOp(size) => StackKeeps(o.mem, size);
        case UnmapOp(virt) => UnmapKeeps(o.mem, virt);
        case MapOp(_, _, _) =>
      }
    }
  }

  lemma {:induction false} MapRunGrows(m: Mem, base: nat, first: nat, k: nat, flags: Flags)
    ensures Grows(m, MapRun(m, base, first, k, flags).mem)
  {
    if k == 0 {
    } else {
      MapRunGrows(m, base, first, k - 1, flags);
      var t := MapRun(m, base, first, k - 1, flags);
      WithTablesKeep(t.mem, PageAt(base, k - 1) / PAGE, 3);
    }
  }

  lemma {:induction false} ApplyGrows(m: Mem, op: Op)
    requires !Apply(m, op).Stop?
    ensures Grows(m, Apply(m, op).mem)
  {
    hide Grows, HeapSpec, StackSpec;
    match op
    case MapOp(virt, phys, flags) => MapGrows(m, virt, phys, flags);
    case UnmapOp(virt) => UnmapGrows(m, virt);
    case HeapOp(size) => HeapGrows(m, size);
    case StackOp(size) => StackGrows(m, size);
  }

  lemma MapGrows(m: Mem, virt: nat, phys: nat, flags: Flags)
    ensures Grows(m, MapSpec(m, virt, phys, flags).mem)
  {
    WithTablesKeep(m, virt / PAGE, 3);
  }

  lemma UnmapGrows(m: Mem, virt: nat)
    ensures !UnmapSpec(m, virt).Stop? && Grows(m, UnmapSpec(m, virt).mem)
  {}

  lemma HeapGrows(m: Mem, size: nat)
    ensures !HeapSpec(m, size).Stop? ==> Grows(m, HeapSpec(m, size).mem)
  {
    hide Grows, AllocateAt, LastHeapEnd, PageCount;
    AllocateAtGrows(m, LastHeapEnd(m.vmas), PageCount(size), HEAP_FLAGS, Heap, LastHeapEnd(m.vmas));
  }

  lemma StackGrows(m: Mem, size: nat)
    ensures !StackSpec(m, size).Stop? ==> Grows(m, StackSpec(m, size).mem)
  {
    var n := PageCount(if size > STACK_MIN then size else STACK_MIN);
    if n * PAGE <= STACK_END {
      hide AllocateAt, PageCount;
      AllocateAtGrows(m, STACK_END - n * PAGE, n, STACK_FLAGS, Stack, STACK_END);
    }
  }

  lemma {:induction false} AllocateAtGrows(m: Mem, base: nat, n: nat, flags: Flags, kind: Kind, answer: nat)
    ensures var o := AllocateAt(m, base, n, flags, kind, answer); !o.Stop? ==> Grows(m, o.mem)
  {
    hide MapRun;
    var grant := AllocateSpec(m.bits, n);
    if grant.Granted? {
      MapRunGrows(Taken(m, grant.addr / PAGE, n), base, grant.addr / PAGE, n, flags);
    }
  }

  lemma {:induction false} RunGrows(m: Mem, ops: seq<Op>)
    requires !RunOps(m, ops).Stop?
    ensures Grows(m, RunOps(m, ops).mem)
  {
    hide Apply;
    if ops == [] {
    } else {
      RunGrows(m, ops[..|ops| - 1]);
      ApplyGrows(RunOps(m, ops[..|ops| - 1]).mem, ops[|ops| - 1]);
    }
  }

  lemma {:induction false} MapValuesCount<K(!new), V>(m: map<K, V>, values: set<V>)
    requires forall k, l :: k in m && l in m && m[k] == m[l] ==> k == l
    requires forall v :: v in values <==> exists k :: k in m && m[k] == v
    ensures |values| == |m|
    decreases |m|
  {
    if m.Keys == {} {
      assert m == map[];
      assert values == {};
    } else {
      var k :| k in m;
      var rest := map l | l in m && l != k :: m[l];
      assert rest.Keys == m.Keys - {k};
      assert m[k] in values;
      forall v
        ensures v in values - {m[k]} <==> exists l :: l in rest && rest[l] == v
      {
        if v in values - {m[k]} {
          var l :| l in m && m[l] == v;
          assert l in rest && rest[l] == v;
        }
      }
      MapValuesCount(rest, values - {m[k]});
    }
  }

  /**
   * In every run of heap and stack allocations and unmaps, failed ones included, no two pages share a frame,
   * no page lies in a table, every page and table frame is marked used, and the used frames are the mapped
   * ones, the tables and the ones failed calls have leaked, counted once each.
   */
  lemma {:induction false} FramesIsolated(pages: nat, root: nat, ops: seq<Op>)
    requires root < pages && forall op :: op in ops ==> !op.MapOp?
    requires !RunOps(Start(pages, root), ops).Stop?
    ensures var m := RunOps(Start(pages, root), ops).mem;
      && (forall p, q :: p in m.pages && q in m.pages && p != q ==> m.pages[p].frame != m.pages[q].frame)
      && (forall p :: p in m.pages ==> m.pages[p].frame < |m.bits| && !m.bits[m.pages[p].frame])
      && (forall k :: k in m.tables ==> m.tables[k] < |m.bits| && !m.bits[m.tables[k]])
      && (forall p, k :: p in m.pages && k in m.tables ==> m.pages[p].frame != m.tables[k])
      && |m.bits| - CountFree(m.bits) == |m.pages| + |m.tables| + |m.reserved|
  {
    FrameInvRun(pages, root, ops);
    var m := RunOps(Start(pages, root), ops).mem;
    OwnersUsed(m);
    OwnersCounted(m);
  }

  // ---------------------------------------------------------------------------------------------
  // Leaks
  // ---------------------------------------------------------------------------------------------

  /** A run of mappings takes a first part of its frames out of the ledger, all of them exactly if it succeeds. */
  lemma {:induction false} MapRunProgress(m: Mem, base: nat, first: nat, k: nat, flags: Flags) returns (j: nat)
    requires FrameInv(m) && forall f :: first <= f < first + k ==> f in m.reserved
    ensures var t := MapRun(m, base, first, k, flags);
      j <= k && (t.ok <==> j == k) && t.mem.reserved == m.reserved - Frames(first, j)
  {
    hide MapReserved, FrameInv;
    j := 0;
    if k == 0 {
    } else {
      MapRunKeeps(m, base, first, k - 1, flags);
      var t := MapRun(m, base, first, k - 1, flags);
      j := MapRunProgress(m, base, first, k - 1, flags);
      if t.ok {
        MapReservedKeeps(t.mem, PageAt(base, k - 1), first + k - 1, flags);
        if MapReserved(t.mem, PageAt(base, k - 1), first + k - 1, flags).ok {
          j := k;
        }
      }
    }
  }

  /** An allocation that was granted its frames leaks some of them exactly if it fails. */
  lemma {:induction false} AllocateAtLeaks(m: Mem, base: nat, n: nat, flags: Flags, kind: Kind, answer: nat)
    requires FrameInv(m) && !AllocateSpec(m.bits, n).Abort?
    ensures var o := AllocateAt(m, base, n, flags, kind, answer);
      && m.reserved <= o.mem.reserved
      && (o.mem.reserved == m.reserved <==> o.Ok? || AllocateSpec(m.bits, n).Refused?)
  {
    var grant := AllocateSpec(m.bits, n);
    if grant.Granted? {
      var first := grant.addr / PAGE;
      var taken := Taken(m, first, n);
      GrantKeeps(m, n);
      var j := MapRunProgress(taken, base, first, n, flags);
      assert m.(bits := taken.bits).(reserved := m.reserved + Frames(first, n)) == taken;
      hide MapRun, UsedFrames, FrameInv, MappedFrames;
      var left := m.reserved + Frames(first, n) - Frames(first, j);
      assert j < n ==> first + n - 1 in left && first + n - 1 !in m.reserved;
      assert m.reserved <= left && (j == n ==> left == m.reserved);
    }
  }

  /** The call asks for frames and gets them. */
  ghost predicate GetsFrames(m: Mem, op: Op) {
    || (op.HeapOp? && AllocateSpec(m.bits, PageCount(op.size)).Granted?)
    || (op.StackOp? && AllocateSpec(m.bits, PageCount(if op.size > STACK_MIN then op.size else STACK_MIN)).Granted?)
  }

  /** In every run a call leaks frames exactly if it was given frames and fails; nothing leaked comes back. */
  lemma {:induction false} FailedCallsLeakExactly(pages: nat, root: nat, ops: seq<Op>, op: Op)
    requires root < pages && (forall o :: o in ops ==> !o.MapOp?) && !op.MapOp?
    requires !RunOps(Start(pages, root), ops).Stop?
    ensures var m := RunOps(Start(pages, root), ops).mem; var o := Apply(m, op);
      !o.Stop? ==> m.reserved <= o.mem.reserved && (o.mem.reserved != m.reserved <==> o.Err? && GetsFrames(m, op))
  {
    FrameInvRun(pages, root, ops);
    var m := RunOps(Start(pages, root), ops).mem;
    hide RunOps, FrameInv, HeapSpec, StackSpec;
    match op
    case HeapOp(size) => HeapLeaks(m, size);
    case StackOp(size) => StackLeaks(m, size);
    case UnmapOp(_) =>
    case MapOp(_, _, _) =>
  }

  lemma {:induction false} HeapLeaks(m: Mem, size: nat)
    requires FrameInv(m)
    ensures var o := HeapSpec(m, size);
      !o.Stop? ==>
        m.reserved <= o.mem.reserved && (o.mem.reserved != m.reserved <==> o.Err? && GetsFrames(m, HeapOp(size)))
  {
    hide FrameInv, LastHeapEnd, PageCount, MapArea;
    if !HeapSpec(m, size).Stop? {
      AllocateAtLeaks(m, LastHeapEnd(m.vmas), PageCount(size), HEAP_FLAGS, Heap, LastHeapEnd(m.vmas));
    }
  }

  lemma {:induction false} StackLeaks(m: Mem, size: nat)
    requires FrameInv(m)
    ensures var o := StackSpec(m, size);
      !o.Stop? ==>
        m.reserved <= o.mem.reserved && (o.mem.reserved != m.reserved <==> o.Err? && GetsFrames(m, StackOp(size)))
  {
    hide FrameInv, PageCount, MapArea;
    var n := PageCount(if size > STACK_MIN then size else STACK_MIN);
    if !StackSpec(m, size).Stop? && n * PAGE <= STACK_END {
      AllocateAtLeaks(m, STACK_END - n * PAGE, n, STACK_FLAGS, Stack, STACK_END);
    }
  }

  lemma {:induction false} MappedCount(m: Mem)
    requires forall p, q :: p in m.pages && q in m.pages && m.pages[p].frame == m.pages[q].frame ==> p == q
    ensures |MappedFrames(m)| == |m.pages|
  {
    var frames := map p | p in m.pages :: m.pages[p].frame;
    assert frames.Keys == m.pages.Keys;
    MapValuesCount(frames, MappedFrames(m));
  }

  lemma {:induction false} OwnersUsed(m: Mem)
    requires FrameInv(m)
    ensures forall p :: p in m.pages ==> m.pages[p].frame < |m.bits| && !m.bits[m.pages[p].frame]
    ensures forall k :: k in m.tables ==> m.tables[k] < |m.bits| && !m.bits[m.tables[k]]
    ensures forall p, k :: p in m.pages && k in m.tables ==> m.pages[p].frame != m.tables[k]
  {
    assert forall p :: p in m.pages ==> m.pages[p].frame in MappedFrames(m);
    assert forall k :: k in m.tables ==> m.tables[k] in m.tables.Values;
    assert forall f :: f in UsedFrames(m.bits) ==> f < |m.bits| && !m.bits[f];
  }

  lemma {:induction false} OwnersCounted(m: Mem)
    requires FrameInv(m)
    ensures |m.bits| - CountFree(m.bits) == |m.pages| + |m.tables| + |m.reserved|
  {
    hide UsedFrames, MappedFrames;
    CountUsed(m.bits);
    MappedCount(m);
    TableCount(m);
    assert |MappedFrames(m) + m.tables.Values| == |MappedFrames(m)| + |m.tables.Values|;
  }

  lemma {:induction false} TableCount(m: Mem)
    requires forall k, l :: k in m.tables && l in m.tables && m.tables[k] == m.tables[l] ==> k == l
    ensures |m.tables.Values| == |m.tables|
  {
    MapValuesCount(m.tables, m.tables.Values);
  }

  /**
   * A stack that the frame allocator can serve always fits below its fixed top: in every such run a stack
   * request stops the kernel exactly if the allocator does.
   */
  lemma {:induction false} StackFits(pages: nat, root: nat, ops: seq<Op>, size: nat)
    requires root < pages <= MAX_PAGES && forall op :: op in ops ==> !op.MapOp?
    requires !RunOps(Start(pages, root), ops).Stop?
    ensures var m := RunOps(Start(pages, root), ops).mem;
      StackSpec(m, size).Stop? <==> AllocateSpec(m.bits, PageCount(if size > STACK_MIN then size else STACK_MIN)).Abort?
  {
    hide RunOps, MapArea;
    var m := RunOps(Start(pages, root), ops).mem;
    FramesIsolated(pages, root, ops);
    RunGrows(Start(pages, root), ops);
    assert (4, 0) in Start(pages, root).tables && (4, 0) in m.tables;
    assert |m.tables| > 0;
    assert CountFree(m.bits) < MAX_PAGES;
  }
}

/** The virtual memory manager over the frame allocator and a four-level page table. */
module VirtualMemory {
  import opened Common
  import opened PhysicalMemory

  datatype Flag = Present | Writable | User | WriteThrough | NoCache | Accessed | Dirty | HugePage | Global

  type Flags = set<Flag>

  /** The flags that reach the page table. */
  function ToX86(flags: Flags): Flags {
    flags * {Present, Writable, User, NoCache, WriteThrough, Global}
  }

  datatype Kind = KernelCode | KernelData | Heap | Stack | UserCode | UserData | SharedMemory | MappedFile

  datatype Vma = Vma(start: nat, end: nat, flags: Flags, kind: Kind) {
    predicate Contains(addr: nat) { start <= addr < end }
  }

  datatype Entry = Entry(frame: nat, flags: Flags)

  /**
   * The memory state. `tables` gives the frame of each intermediate table by level and index; level 4 is the
   * root. `reserved` is a ledger: the frames taken from the allocator for pages that are not mapped, which
   * is where a call that fails midway leaves them.
   */
  datatype Mem = Mem(
    bits: seq<bool>,
    vmas: seq<Vma>,
    pages: map<nat, Entry>,
    tables: map<(nat, nat), nat>,
    reserved: set<nat>)

  const HEAP_BASE: nat := 0x10_0000
  const STACK_END: nat := 0xffff_f000
  const STACK_MIN: nat := 8 * 1024
  const HEAP_FLAGS: Flags := {Present, Writable}
  const STACK_FLAGS: Flags := {Present, Writable, User}

  function AlignDown(a: nat): nat { a / PAGE * PAGE }
  function AlignUp(a: nat): nat { if a % PAGE == 0 then a else a / PAGE * PAGE + PAGE }

  /** The page count of a request of a usize number of bytes, with the wrap-around of the addition. */
  function PageCount(size: nat): nat {
    var padded := size + PAGE - 1;
    (if padded >= USIZE then padded - USIZE else padded) / PAGE
  }

  /** The state after an operation that may fail, and whether it succeeded. */
  datatype Try = Try(mem: Mem, ok: bool)

  /** The state after a call from outside: it may return an error, or stop the kernel. */
  datatype Outcome = Ok(mem: Mem, addr: nat) | Err(mem: Mem) | Stop

  // ---------------------------------------------------------------------------------------------
  // The operations on values
  // ---------------------------------------------------------------------------------------------

  /** Makes the intermediate table exist, taking a frame for it if need be. */
  function WithTable(m: Mem, key: (nat, nat)): Try {
    if key in m.tables then Try(m, true)
    else
      match FirstFree(m.bits, 0)
      case None => Try(m, false)
      case Some(f) => Try(m.(bits := m.bits[f := false], tables := m.tables[key := f]), true)
  }

  /** `create_process_page_table`: an empty root in a frame of its own; the tables there were are forgotten. */
  function CreateSpec(m: Mem): Try {
    match FirstFree(m.bits, 0)
    case None => Try(m, false)
    case Some(f) => Try(m.(bits := m.bits[f := false], pages := map[], tables := map[(4, 0) := f]), true)
  }

  /** Which table of a level serves a page. */
  function TableIndex(page: nat, level: nat): nat {
    if level == 0 then page else TableIndex(page, level - 1) / 0x200
  }

  /** The tables a page needs from a level down. */
  function WithTables(m: Mem, page: nat, level: nat): Try
    decreases level
  {
    if level == 0 then Try(m, true)
    else
      var t := WithTable(m, (level, TableIndex(page, level)));
      if !t.ok then t else WithTables(t.mem, page, level - 1)
  }

  /** `map_to`: the tables first, then the entry, which must not be there yet. */
  function MapTo(m: Mem, page: nat, frame: nat, flags: Flags): Try {
    var t := WithTables(m, page, 3);
    if !t.ok || page in t.mem.pages then Try(t.mem, false)
    else Try(t.mem.(pages := t.mem.pages[page := Entry(frame, flags)]), true)
  }

  function MapSpec(m: Mem, virt: nat, phys: nat, flags: Flags): Try {
    var t := MapTo(m, virt / PAGE, phys / PAGE, ToX86(flags));
    if !t.ok then t
    else Try(t.mem.(vmas := t.mem.vmas + [Vma(AlignDown(virt), AlignUp(virt), flags, KernelData)]), true)
  }

  function PageAt(base: nat, i: nat): nat { base + i * PAGE }

  /** Maps k pages from base to the frames from first, stopping at the first failure. */
  function MapRun(m: Mem, base: nat, first: nat, k: nat, flags: Flags): Try {
    if k == 0 then Try(m, true)
    else
      var t := MapRun(m, base, first, k - 1, flags);
      if !t.ok then t else MapReserved(t.mem, PageAt(base, k - 1), first + k - 1, flags)
  }

  /** Maps one page to a frame the ledger holds, which then leaves the ledger. */
  function MapReserved(m: Mem, virt: nat, frame: nat, flags: Flags): Try {
    var t := MapSpec(m, virt, frame * PAGE, flags);
    if !t.ok then t else Try(t.mem.(reserved := t.mem.reserved - {frame}), true)
  }

  lemma OnePageFurther(m: Mem, base: nat, first: nat, i: nat, flags: Flags, here: Mem)
    requires MapRun(m, base, first, i, flags) == Try(here, true)
    ensures MapRun(m, base, first, i + 1, flags) == MapReserved(here, PageAt(base, i), first + i, flags)
  {}

  lemma {:induction false} FailureSticks(m: Mem, base: nat, first: nat, k: nat, n: nat, flags: Flags)
    requires k <= n && !MapRun(m, base, first, k, flags).ok
    ensures MapRun(m, base, first, n, flags) == MapRun(m, base, first, k, flags)
  {
    if k == n {
    } else {
      FailureSticks(m, base, first, k, n - 1, flags);
    }
  }

  function Frames(first: nat, n: nat): (r: set<nat>)
    ensures forall f :: f in r <==> first <= f < first + n
  {
    if n == 0 then {} else Frames(first, n - 1) + {first + n - 1}
  }

  /** Maps n frames just taken from the allocator at base and records the area; shared by heap and stack. */
  function MapArea(m: Mem, base: nat, first: nat, n: nat, flags: Flags, kind: Kind): Try {
    var t := MapRun(m.(reserved := m.reserved + Frames(first, n)), base, first, n, flags);
    if !t.ok then t
    else Try(t.mem.(vmas := t.mem.vmas + [Vma(base, base + n * PAGE, flags, kind)]), true)
  }

  ghost function AllocateAt(m: Mem, base: nat, n: nat, flags: Flags, kind: Kind, answer: nat): Outcome {
    match AllocateSpec(m.bits, n)
    case Refused => Err(m)
    case Abort => Stop
    case Granted(addr) =>
      var t := MapArea(m.(bits := Marked(m.bits, addr / PAGE, n, false)), base, addr / PAGE, n, flags, kind);
      if t.ok then Ok(t.mem, answer) else Err(t.mem)
  }

  function LastHeapEnd(vmas: seq<Vma>): nat {
    if vmas == [] then HEAP_BASE
    else if vmas[|vmas| - 1].kind.Heap? then vmas[|vmas| - 1].end
    else LastHeapEnd(vmas[..|vmas| - 1])
  }

  ghost function HeapSpec(m: Mem, size: nat): Outcome {
    var base := LastHeapEnd(m.vmas);
    AllocateAt(m, base, PageCount(size), HEAP_FLAGS, Heap, base)
  }

  ghost function StackSpec(m: Mem, size: nat): Outcome {
    var n := PageCount(if size > STACK_MIN then size else STACK_MIN);
    match AllocateSpec(m.bits, n)
    case Refused => Err(m)
    case Abort => Stop
    case Granted(_) =>
      if n * PAGE > STACK_END then Stop
      else AllocateAt(m, STACK_END - n * PAGE, n, STACK_FLAGS, Stack, STACK_END)
  }

  function Without(vmas: seq<Vma>, addr: nat): seq<Vma> {
    if vmas == [] then []
    else
      var last := vmas[|vmas| - 1];
      Without(vmas[..|vmas| - 1], addr) + if last.Contains(addr) then [] else [last]
  }

  function UnmapSpec(m: Mem, virt: nat): Outcome {
    var page := virt / PAGE;
    if page !in m.pages then Err(m)
    else
      var bits := Freed(m.bits, m.pages[page].frame * PAGE);
      Ok(m.(bits := bits, pages := m.pages - {page}, vmas := Without(m.vmas, virt)), virt)
  }

  function FindVma(vmas: seq<Vma>, addr: nat): Option<Vma> {
    if vmas == [] then None
    else if vmas[0].Contains(addr) then Some(vmas[0])
    else FindVma(vmas[1..], addr)
  }

  function CheckAccess(vmas: seq<Vma>, addr: nat, write: bool): bool {
    match FindVma(vmas, addr)
    case None => false
    case Some(v) => if write then Writable in v.flags else Present in v.flags
  }

  // ---------------------------------------------------------------------------------------------
  // The manager
  // ---------------------------------------------------------------------------------------------

  class VirtualMemoryManager {
    const allocator: PhysicalAllocator
    var vmas: seq<Vma>
    var pages: map<nat, Entry>
    var tables: map<(nat, nat), nat>
    ghost var reserved: set<nat>

    ghost function State(): Mem
      reads this, allocator
    {
      Mem(allocator.freePages, vmas, pages, tables, reserved)
    }

    /** A manager over the page table it finds, with whatever that maps; no areas are known. */
    constructor (allocator: PhysicalAllocator, pages: map<nat, Entry>, tables: map<(nat, nat), nat>)
      ensures this.allocator == allocator && fresh(this)
      ensures State() == Mem(allocator.freePages, [], pages, tables, {})
    {
      this.allocator, vmas, this.pages, this.tables, reserved := allocator, [], pages, tables, {};
    }

    method CreateProcessPageTable() returns (ok: bool)
      requires allocator.Valid()
      modifies this`pages, this`tables, allocator
      ensures allocator.Valid() && Try(State(), ok) == CreateSpec(old(State()))
    {
      var frame := allocator.AllocateFrame();
      match frame
      case None => ok := false;
      case Some(addr) =>
        pages, tables := map[], map[(4, 0) := addr / PAGE];
        ok := true;
    }

    method EnsureTable(key: (nat, nat)) returns (ok: bool)
      requires allocator.Valid()
      modifies this`tables, allocator
      ensures allocator.Valid() && Try(State(), ok) == WithTable(old(State()), key)
    {
      ok := true;
      if key !in tables {
        var frame := allocator.AllocateFrame();
        match frame
        case None => ok := false;
        case Some(addr) => tables := tables[key := addr / PAGE];
      }
    }

    /** The tables of a page, from a level down. */
    method EnsureTables(page: nat, level: nat) returns (ok: bool)
      requires allocator.Valid()
      modifies this`tables, allocator
      ensures allocator.Valid() && Try(State(), ok) == WithTables(old(State()), page, level)
      decreases level
    {
      ok := true;
      if level > 0 {
        ok := EnsureTable((level, TableIndex(page, level)));
        if ok {
          ok := EnsureTables(page, level - 1);
        }
      }
    }

    method Map(virt: nat, phys: nat, flags: Flags) returns (ok: bool)
      requires allocator.Valid()
      modifies this`tables, this`pages, this`vmas, allocator
      ensures allocator.Valid() && Try(State(), ok) == MapSpec(old(State()), virt, phys, flags)
    {
      var page := virt / PAGE;
      ok := EnsureTables(page, 3);
      if !ok || page in pages {
        return false;
      }
      pages := pages[page := Entry(phys / PAGE, ToX86(flags))];
      vmas := vmas + [Vma(AlignDown(virt), AlignUp(virt), flags, KernelData)];
    }

    /** Maps one page of a run of frames just taken. */
    method MapTaken(virt: nat, frame: nat, flags: Flags) returns (ok: bool)
      requires allocator.Valid()
      modifies this, allocator
      ensures allocator.Valid() && Try(State(), ok) == MapReserved(old(State()), virt, frame, flags)
    {
      ok := Map(virt, frame * PAGE, flags);
      if ok {
        reserved := reserved - {frame};
      }
    }

    /** The mapping loop of `allocate_heap` and `allocate_stack`. */
    method MapPages(base: nat, first: nat, n: nat, flags: Flags) returns (ok: bool)
      requires allocator.Valid()
      modifies this, allocator
      ensures allocator.Valid() && Try(State(), ok) == MapRun(old(State()), base, first, n, flags)
    {
      hide MapReserved;
      ok := true;
      ghost var run := MapRun(State(), base, first, 0, flags);
      var i := 0;
      while i < n && ok
        invariant i <= n && allocator.Valid()
        invariant run == MapRun(old(State()), base, first, i, flags)
        invariant State() == run.mem && ok == run.ok
      {
        OnePageFurther(old(State()), base, first, i, flags, run.mem);
        run := MapReserved(run.mem, PageAt(base, i), first + i, flags);
        ok := MapTaken(PageAt(base, i), first + i, flags);
        i := i + 1;
      }
      if !ok {
        FailureSticks(old(State()), base, first, i, n, flags);
      }
    }

    method TakeArea(base: nat, first: nat, n: nat, flags: Flags, kind: Kind) returns (ok: bool)
      requires allocator.Valid()
      modifies this, allocator
      ensures allocator.Valid() && Try(State(), ok) == MapArea(old(State()), base, first, n, flags, kind)
    {
      reserved := reserved + Frames(first, n);
      ok := MapPages(base, first, n, flags);
      if ok {
        vmas := vmas + [Vma(base, base + n * PAGE, flags, kind)];
      }
    }

    method AllocateHeap(size: nat) returns (r: Option<nat>, stopped: bool)
      requires allocator.Valid()
      modifies this, allocator
      ensures stopped <==> HeapSpec(old(State()), size).Stop?
      ensures !stopped ==> allocator.Valid()
      ensures !stopped ==> HeapSpec(old(State()), size) == if r.Some? then Ok(State(), r.value) else Err(State())
    {
      var base := LastHeapEnd(vmas);
      var n := PageCount(size);
      var grant := allocator.AllocateFrames(n);
      match grant
      case Refused => return None, false;
      case Abort => return None, true;
      case Granted(addr) =>
        var ok := TakeArea(base, addr / PAGE, n, HEAP_FLAGS, Heap);
        return if ok then Some(base) else None, false;
    }

    method AllocateStack(size: nat) returns (r: Option<nat>, stopped: bool)
      requires allocator.Valid()
      modifies this, allocator
      ensures stopped <==> StackSpec(old(State()), size).Stop?
      ensures !stopped ==> allocator.Valid()
      ensures !stopped ==> StackSpec(old(State()), size) == if r.Some? then Ok(State(), r.value) else Err(State())
    {
      var n := PageCount(if size > STACK_MIN then size else STACK_MIN);
      var grant := allocator.AllocateFrames(n);
      match grant
      case Refused => return None, false;
      case Abort => return None, true;
      case Granted(addr) =>
        if n * PAGE > STACK_END {
          return None, true;
        }
        var ok := TakeArea(STACK_END - n * PAGE, addr / PAGE, n, STACK_FLAGS, Stack);
        return if ok then Some(STACK_END) else None, false;
    }

    method Unmap(virt: nat) returns (ok: bool)
      requires allocator.Valid()
      modifies this, allocator
      ensures allocator.Valid()
      ensures UnmapSpec(old(State()), virt) == if ok then Ok(State(), virt) else Err(State())
    {
      var page := virt / PAGE;
      if page !in pages {
        return false;
      }
      allocator.DeallocateFrame(pages[page].frame * PAGE);
      pages := pages - {page};
      vmas := Without(vmas, virt);
      return true;
    }
  }
}

/** The bitmap allocator of physical page frames. */
module PhysicalMemory {
  import opened Common

  /** Bytes in a page, and the cap on the number of pages managed. */
  const PAGE: nat := 4096
  const MAX_PAGES: nat := 0x10_0000

  /** What `allocate_frames` comes to: an address, None, or an index out of bounds that stops the kernel. */
  datatype Alloc = Granted(addr: nat) | Refused | Abort

  ghost function CountFree(b: seq<bool>): (n: nat)
    ensures n <= |b|
  {
    if b == [] then 0 else CountFree(b[..|b| - 1]) + if b[|b| - 1] then 1 else 0
  }

  predicate FreeRun(b: seq<bool>, start: nat, n: nat) {
    start + n <= |b| && forall i :: start <= i < start + n ==> b[i]
  }

  /** The first run of n free pages starts here. */
  ghost predicate FirstRun(b: seq<bool>, start: nat, n: nat) {
    FreeRun(b, start, n) && forall s :: 0 <= s < start ==> !FreeRun(b, s, n)
  }

  ghost predicate NoRun(b: seq<bool>, n: nat) {
    forall s :: 0 <= s ==> !FreeRun(b, s, n)
  }

  /** The bitmap ends in a maximal stretch of free pages that starts here. */
  ghost predicate FreeTail(b: seq<bool>, start: nat) {
    start < |b| && FreeRun(b, start, |b| - start) && (start > 0 ==> !b[start - 1])
  }

  /** The lowest start, from `from` on, of n free pages in a row. */
  function LowestRun(b: seq<bool>, n: nat, from: nat): (r: Option<nat>)
    ensures r.Some? ==> from <= r.value && FreeRun(b, r.value, n)
                        && forall s :: from <= s < r.value ==> !FreeRun(b, s, n)
    ensures r.None? ==> forall s :: from <= s ==> !FreeRun(b, s, n)
    decreases |b| - from
  {
    if from + n > |b| then None
    else if FreeRun(b, from, n) then Some(from)
    else LowestRun(b, n, from + 1)
  }

  /** The lowest free page from `from` on: what `allocate_frame` takes. */
  function FirstFree(b: seq<bool>, from: nat): (r: Option<nat>)
    ensures r.Some? ==> from <= r.value < |b| && b[r.value]
    decreases |b| - from
  {
    if from >= |b| then None
    else if b[from] then Some(from)
    else FirstFree(b, from + 1)
  }

  /** Nothing before the lowest free page is free. */
  lemma {:induction false} FirstFreeExactly(b: seq<bool>, from: nat)
    ensures match FirstFree(b, from)
            case Some(i) => forall s :: from <= s < i ==> !b[s]
            case None => forall s :: from <= s < |b| ==> !b[s]
    decreases |b| - from
  {
    if from >= |b| || b[from] {
    } else {
      FirstFreeExactly(b, from + 1);
    }
  }

  lemma FirstRunIsLowest(b: seq<bool>, start: nat, n: nat)
    requires FirstRun(b, start, n)
    ensures LowestRun(b, n, 0) == Some(start)
  {}

  /** The bitmap with n pages from start set to v. */
  function Marked(b: seq<bool>, start: nat, n: nat, v: bool): (r: seq<bool>)
    requires start + n <= |b|
    ensures |r| == |b|
  {
    seq(|b|, i requires 0 <= i < |b| => if start <= i < start + n then v else b[i])
  }

  ghost function AllocateSpec(b: seq<bool>, count: nat): (r: Alloc)
    ensures r.Granted? ==> r.addr % PAGE == 0 && FreeRun(b, r.addr / PAGE, count)
  {
    if count == 0 || count > CountFree(b) then Refused
    else
      match LowestRun(b, count, 0)
      case Some(start) => Granted(start * PAGE)
      case None => if b[|b| - 1] then Abort else Refused
  }

  /** Freeing the frame at an address: out of range or already free, nothing happens. */
  function Freed(b: seq<bool>, addr: nat): (r: seq<bool>)
    ensures |r| == |b|
  {
    if addr / PAGE < |b| && !b[addr / PAGE] then b[addr / PAGE := true] else b
  }

  class PhysicalAllocator {
    var freePages: seq<bool>
    var totalPages: nat
    var freeCount: nat

    ghost predicate Valid()
      reads this
    {
      totalPages == |freePages| <= MAX_PAGES && freeCount == CountFree(freePages)
    }

    /** All frames of the usable memory, up to the cap, are free. */
    constructor (totalFrames: nat)
      ensures Valid() && totalPages == if totalFrames < 0x10_0000 then totalFrames else 0x10_0000
      ensures forall i :: 0 <= i < totalPages ==> freePages[i]
    {
      var pages := if totalFrames < MAX_PAGES then totalFrames else MAX_PAGES;
      totalPages, freeCount, freePages := pages, pages, seq(pages, _ => true);
      new;
      CountAllFree(freePages);
    }

    /** Takes the lowest free frame. */
    method AllocateFrame() returns (r: Option<nat>)
      requires Valid()
      modifies this
      ensures Valid() && totalPages == old(totalPages)
      ensures match FirstFree(old(freePages), 0)
              case Some(i) =>
                r == Some(i * PAGE) && freePages == old(freePages)[i := false] && freeCount == old(freeCount) - 1
              case None => r == None && freePages == old(freePages) && freeCount == old(freeCount)
    {
      FirstFreeExactly(freePages, 0);
      for i := 0 to |freePages|
        invariant freePages == old(freePages) && freeCount == old(freeCount)
        invariant forall s :: 0 <= s < i ==> !freePages[s]
      {
        if freePages[i] {
          CountUpdate(freePages, i, false);
          freePages := freePages[i := false];
          freeCount := freeCount - 1;
          return Some(i * PAGE);
        }
      }
      return None;
    }

    /**
     * Takes the first run of `count` free frames. Without one, the answer depends on the last page alone:
     * if that is used the call refuses, if it is free the marking loop runs off the end of the bitmap
     * after it has marked the free pages there.
     */
    method AllocateFrames(count: nat) returns (r: Alloc)
      requires Valid()
      modifies this
      ensures r == AllocateSpec(old(freePages), count)
      ensures !r.Abort? ==> Valid()
      ensures totalPages == old(totalPages)
      ensures r.Refused? ==> freePages == old(freePages) && freeCount == old(freeCount)
      ensures r.Granted? ==>
                var start := r.addr / PAGE;
                && start * PAGE == r.addr && FreeRun(old(freePages), start, count)
                && freePages == Marked(old(freePages), start, count, false) && freeCount == old(freeCount) - count
      ensures r.Abort? ==>
                exists start: nat :: FreeTail(old(freePages), start)
                  && freePages == Marked(old(freePages), start, |old(freePages)| - start, false)
    {
      if count == 0 || count > freeCount {
        return Refused;
      }
      var startIdx := ScanForRun(count);
      if startIdx.Some? {
        var start := startIdx.value;
        if start + count <= |freePages| {
          FirstRunIsLowest(freePages, start, count);
        }
        var fits := MarkUsed(start, count);
        if !fits {
          return Abort;
        }
        freeCount := freeCount - count;
        return Granted(start * PAGE);
      }
      return Refused;
    }

    /** The marking loop: false if it runs off the end of the bitmap. */
    method MarkUsed(start: nat, count: nat) returns (fits: bool)
      requires start <= |freePages|
      requires forall j :: start <= j < start + count && j < |freePages| ==> freePages[j]
      modifies this`freePages
      ensures fits <==> start + count <= |old(freePages)|
      ensures var n := if fits then count else |old(freePages)| - start;
        freePages == Marked(old(freePages), start, n, false) && CountFree(freePages) == CountFree(old(freePages)) - n
    {
      ghost var b := freePages;
      for j := start to start + count
        invariant j <= |b| && freePages == Marked(b, start, j - start, false)
        invariant CountFree(freePages) == CountFree(b) - (j - start)
      {
        if j >= |freePages| {
          return false;
        }
        CountUpdate(freePages, j, false);
        freePages := freePages[j := false];
      }
      fits := true;
    }

    /** The scan of `allocate_frames`; its answer may be a run at the end that is too short. */
    method ScanForRun(count: nat) returns (startIdx: Option<nat>)
      requires count > 0
      ensures match startIdx
              case None => NoRun(freePages, count) && (freePages != [] ==> !freePages[|freePages| - 1])
              case Some(start) =>
                FirstRun(freePages, start, count) || (NoRun(freePages, count) && FreeTail(freePages, start))
    {
      var consecutive := 0;
      startIdx := None;
      for i := 0 to |freePages|
        invariant consecutive < count && consecutive <= i
        invariant startIdx == if consecutive == 0 then None else Some(i - consecutive)
        invariant FreeRun(freePages, i - consecutive, consecutive)
        invariant i - consecutive > 0 ==> !freePages[i - consecutive - 1]
        invariant forall s :: 0 <= s && s + count <= i ==> !FreeRun(freePages, s, count)
      {
        if freePages[i] {
          if consecutive == 0 {
            startIdx := Some(i);
          }
          consecutive := consecutive + 1;
          if consecutive == count {
            break;
          }
          forall s | 0 <= s && s + count <= i + 1
            ensures !FreeRun(freePages, s, count)
          {
            assert s <= i - consecutive < s + count || s + count <= i;
          }
        } else {
          consecutive := 0;
          startIdx := None;
        }
      }
    }

    method DeallocateFrame(addr: nat)
      requires Valid()
      modifies this
      ensures Valid() && totalPages == old(totalPages)
      ensures freePages == Freed(old(freePages), addr)
      ensures freeCount == old(freeCount) + if freePages == old(freePages) then 0 else 1
    {
      var index := addr / PAGE;
      if index < totalPages && !freePages[index] {
        CountUpdate(freePages, index, true);
        freePages := freePages[index := true];
        freeCount := freeCount + 1;
      }
    }
  }

  // ---------------------------------------------------------------------------------------------
  // Counting
  // ---------------------------------------------------------------------------------------------

  lemma {:induction false} CountUpdate(b: seq<bool>, i: nat, v: bool)
    requires i < |b|
    ensures CountFree(b[i := v]) == CountFree(b) - (if b[i] then 1 else 0) + if v then 1 else 0
  {
    var last := |b| - 1;
    if i == last {
      assert b[i := v][..last] == b[..last];
    } else {
      assert b[i := v][..last] == b[..last][i := v];
      CountUpdate(b[..last], i, v);
    }
  }

  lemma {:induction false} CountAllFree(b: seq<bool>)
    requires forall i :: 0 <= i < |b| ==> b[i]
    ensures CountFree(b) == |b|
  {
    if b == [] {
    } else {
      CountAllFree(b[..|b| - 1]);
    }
  }

  ghost function UsedFrames(b: seq<bool>): set<nat> {
    set f: nat | f < |b| && !b[f]
  }

  lemma {:induction false} CountUsed(b: seq<bool>)
    ensures |UsedFrames(b)| == |b| - CountFree(b)
  {
    if b == [] {
      assert UsedFrames(b) == {};
    } else {
      var last := |b| - 1;
      CountUsed(b[..last]);
      assert UsedFrames(b) == UsedFrames(b[..last]) + if b[last] then {} else {last};
    }
  }

  /** For a request within the free count: first fit if a run exists, else the last page decides. */
  lemma {:induction false} FirstFitExactly(b: seq<bool>, count: nat)
    requires 0 < count <= CountFree(b)
    ensures var r := AllocateSpec(b, count);
      && (r.Granted? <==> !NoRun(b, count))
      && (r.Granted? ==> r.addr % PAGE == 0 && FirstRun(b, r.addr / PAGE, count))
      && (r.Abort? <==> NoRun(b, count) && b[|b| - 1])
      && (r.Refused? <==> NoRun(b, count) && !b[|b| - 1])
  {
    var lowest := LowestRun(b, count, 0);
    if lowest.Some? {
      assert FreeRun(b, lowest.value, count);
    }
  }

  /** Free, used, free: there is room for two frames and no run of two, and the call runs off the end. */
  lemma {:induction false} TwoOfThreeAborts()
    ensures AllocateSpec([true, false, true], 2) == Abort
  {
    var b := [true, false, true];
    assert b[..2] == [true, false] && b[..2][..1] == [true];
    assert CountFree([true]) == 1 && CountFree([true, false]) == 1;
    forall s
      ensures !FreeRun(b, s, 2)
    {
      assert s == 0 ==> !b[1];
    }
    assert NoRun(b, 2);
    FirstFitExactly(b, 2);
  }

  // ---------------------------------------------------------------------------------------------
  // Round trips
  // ---------------------------------------------------------------------------------------------

  /** Freeing, one after the other, n frames from the address on. */
  ghost function FreedEach(b: seq<bool>, addr: nat, n: nat): (r: seq<bool>)
    ensures |r| == |b|
  {
    if n == 0 then b else Freed(FreedEach(b, addr, n - 1), addr + (n - 1) * PAGE)
  }

  lemma {:induction false} FreedEachIs(b: seq<bool>, start: nat, n: nat, k: nat)
    requires FreeRun(b, start, n) && k <= n
    ensures FreedEach(Marked(b, start, n, false), start * PAGE, k) == Marked(b, start + k, n - k, false)
  {
    if k == 0 {
    } else {
      FreedEachIs(b, start, n, k - 1);
      assert (start * PAGE + (k - 1) * PAGE) / PAGE == start + k - 1;
      assert FreedEach(Marked(b, start, n, false), start * PAGE, k) ==
             Marked(b, start + k - 1, n - k + 1, false)[start + k - 1 := true];
    }
  }

  /** Whatever `allocate_frames` granted, freeing each of its frames gives back the bitmap it started from. */
  lemma {:induction false} FreeingUndoesAllocation(b: seq<bool>, count: nat)
    requires AllocateSpec(b, count).Granted?
    ensures var addr := AllocateSpec(b, count).addr;
      FreedEach(Marked(b, addr / PAGE, count, false), addr, count) == b
  {
    var start := LowestRun(b, count, 0).value;
    FreedEachIs(b, start, count, count);
  }

  /** A second free of the same frame changes nothing, however the bitmap looked before the first. */
  lemma FreeTwice(b: seq<bool>, addr: nat)
    ensures Freed(Freed(b, addr), addr) == Freed(b, addr)
  {}

  /** A single allocation is the contiguous one of length one, and never runs off the end. */
  lemma {:induction false} SingleIsRunOfOne(b: seq<bool>)
    ensures AllocateSpec(b, 1) == match FirstFree(b, 0) case Some(i) => Granted(i * PAGE) case None => Refused
  {
    FirstFreeExactly(b, 0);
    match FirstFree(b, 0)
    case None =>
      CountNoneFree(b);
    case Some(i) =>
      forall s | 0 <= s < i
        ensures !FreeRun(b, s, 1)
      {
        assert !b[s];
      }
      FirstRunIsLowest(b, i, 1);
      CountSomeFree(b, i);
  }

  lemma {:induction false} CountNoneFree(b: seq<bool>)
    requires forall i :: 0 <= i < |b| ==> !b[i]
    ensures CountFree(b) == 0
  {
    if b == [] {
    } else {
      CountNoneFree(b[..|b| - 1]);
    }
  }

  lemma {:induction false} CountSomeFree(b: seq<bool>, i: nat)
    requires i < |b| && b[i]
    ensures CountFree(b) > 0
  {
    CountUpdate(b, i, false);
  }
}

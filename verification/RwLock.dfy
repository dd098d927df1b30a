/** The reader-writer lock at the grain of its atomic operations. */
module RwLockSync {

  datatype Call = Read | TryRead | Write | TryWrite

  /** Where a caller is; `once` marks the try_ variants, which give up instead of looping. */
  datatype Pc =
    | Idle                          // no call under way
    | CheckWriter(once: bool)       // load writer
    | Increment                     // saw writer == false; readers.fetch_add(1) is next
    | Reading                       // holds a read guard; its drop is next
    | Swap(once: bool)              // writer.swap(true)
    | CheckReaders(once: bool)      // the swap returned false; load readers is next
    | Writing                       // holds a write guard; its drop is next
  {
    /** The caller's swap is the one that set the flag, and it has not let go of it. */
    predicate Owns() { CheckReaders? || Writing? }

    /** The caller has seen writer == false in this call. */
    predicate PastCheck() { Increment? || Reading? }
  }

  datatype Shared = Shared(readers: int, writer: bool)

  datatype Effect = Effect(shared: Shared, pc: Pc)

  /**
   * One atomic operation. With `fused`, the check of `writer` and the increment of `readers` are one
   * operation; the code has them apart.
   */
  function LockStep(sh: Shared, pc: Pc, call: Call, fused: bool): Effect {
    match pc
    case Idle =>
      Effect(sh, if call.Read? || call.TryRead? then CheckWriter(call.TryRead?) else Swap(call.TryWrite?))
    case CheckWriter(once) =>
      if sh.writer then Effect(sh, if once then Idle else pc)
      else if fused then Effect(sh.(readers := sh.readers + 1), Reading)
      else Effect(sh, Increment)
    case Increment => Effect(sh.(readers := sh.readers + 1), Reading)
    case Reading => Effect(sh.(readers := sh.readers - 1), Idle)
    case Swap(once) =>
      Effect(sh.(writer := true), if !sh.writer then CheckReaders(once) else if once then Idle else pc)
    case CheckReaders(once) =>
      Effect(sh, if sh.readers == 0 then Writing else if once then Idle else Swap(once))
    case Writing => Effect(sh.(writer := false), Idle)
  }

  class RwLock {
    var readers: int
    var writer: bool

    constructor ()
      ensures readers == 0 && !writer
    {
      readers, writer := 0, false;
    }

    /** Runs the next atomic operation of a caller that is at `pc`. */
    method Execute(pc: Pc, call: Call) returns (next: Pc)
      modifies this
      ensures Effect(Shared(readers, writer), next) == LockStep(old(Shared(readers, writer)), pc, call, false)
    {
      next := pc;
      match pc
      case Idle =>
        match call {
          case Read => next := CheckWriter(false);
          case TryRead => next := CheckWriter(true);
          case Write => next := Swap(false);
          case TryWrite => next := Swap(true);
        }
      case CheckWriter(once) =>
        if !writer {
          next := Increment;
        } else if once {
          next := Idle;
        }
      case Increment =>
        readers, next := readers + 1, Reading;
      case Reading =>
        readers, next := readers - 1, Idle;
      case Swap(once) =>
        var was := writer;
        writer := true;
        if !was {
          next := CheckReaders(once);
        } else if once {
          next := Idle;
        }
      case CheckReaders(once) =>
        if readers == 0 {
          next := Writing;
        } else {
          next := if once then Idle else Swap(once);
        }
      case Writing =>
        writer, next := false, Idle;
    }
  }

  /** A user, and the time of its latest successful check or swap (a history variable). */
  datatype Thread = Thread(pc: Pc, stamp: nat)

  datatype State = State(sh: Shared, threads: seq<Thread>, clock: nat, fused: bool)

  /** Thread t makes its next operation; `call` is what it starts if it is idle. */
  datatype Move = Move(t: nat, call: Call)

  function Init(users: nat, fused: bool): State {
    State(Shared(0, false), seq(users, i => Thread(Idle, 0)), 0, fused)
  }

  function Step(s: State, m: Move): (r: State)
    ensures |r.threads| == |s.threads| && r.fused == s.fused
  {
    if m.t >= |s.threads| then s
    else
      var th := s.threads[m.t];
      var e := LockStep(s.sh, th.pc, m.call, s.fused);
      var passed := (th.pc.CheckWriter? && e.pc.PastCheck()) || (th.pc.Swap? && e.pc.Owns());
      State(e.shared, s.threads[m.t := Thread(e.pc, if passed then s.clock else th.stamp)], s.clock + 1, s.fused)
  }

  function Run(s: State, moves: seq<Move>): (r: State)
    ensures |r.threads| == |s.threads| && r.fused == s.fused
  {
    if moves == [] then s else Step(Run(s, moves[..|moves| - 1]), moves[|moves| - 1])
  }

  // ---------------------------------------------------------------------------------------------
  // The invariant
  // ---------------------------------------------------------------------------------------------

  ghost function Readers(threads: seq<Thread>): set<nat> {
    set i: nat | i < |threads| && threads[i].pc.Reading?
  }

  ghost predicate OneOwner(s: State) {
    && (forall i :: 0 <= i < |s.threads| && s.threads[i].pc.Owns() ==> s.sh.writer)
    && (forall i, j | 0 <= i < |s.threads| && 0 <= j < |s.threads| ::
          s.threads[i].pc.Owns() && s.threads[j].pc.Owns() ==> i == j)
  }

  /** Whoever is past the writer check got past it before the owner's swap. */
  ghost predicate Stamped(s: State) {
    && (forall i :: 0 <= i < |s.threads| && s.threads[i].pc.PastCheck() ==> s.threads[i].stamp < s.clock)
    && (forall i, j | 0 <= i < |s.threads| && 0 <= j < |s.threads| ::
          s.threads[i].pc.PastCheck() && s.threads[j].pc.Owns() ==> s.threads[i].stamp < s.threads[j].stamp)
  }

  /** A read guard and a write guard are live together. */
  ghost predicate Overlap(s: State) {
    exists i, j :: 0 <= i < |s.threads| && 0 <= j < |s.threads| && s.threads[i].pc.Reading? && s.threads[j].pc.Writing?
  }

  ghost predicate FusedExcludes(s: State) {
    && (forall i :: 0 <= i < |s.threads| ==> !s.threads[i].pc.Increment?)
    && !Overlap(s)
  }

  ghost predicate Inv(s: State) {
    && OneOwner(s) && Stamped(s)
    && s.sh.readers == |Readers(s.threads)|
    && (s.fused ==> FusedExcludes(s))
  }

  lemma OneOwnerStep(s: State, m: Move)
    requires OneOwner(s)
    ensures OneOwner(Step(s, m))
  {}

  lemma StampedStep(s: State, m: Move)
    requires OneOwner(s) && Stamped(s)
    ensures Stamped(Step(s, m))
  {}

  lemma {:induction false} ReadersUpdate(threads: seq<Thread>, t: nat, th: Thread)
    requires t < |threads|
    ensures |Readers(threads[t := th])| ==
            |Readers(threads)| - (if threads[t].pc.Reading? then 1 else 0) + (if th.pc.Reading? then 1 else 0)
  {
    var others := Readers(threads) - {t};
    assert Readers(threads) == if threads[t].pc.Reading? then others + {t} else others;
    assert Readers(threads[t := th]) == if th.pc.Reading? then others + {t} else others;
  }

  lemma {:induction false} ReadersStep(s: State, m: Move)
    requires s.sh.readers == |Readers(s.threads)|
    ensures Step(s, m).sh.readers == |Readers(Step(s, m).threads)|
  {
    if m.t < |s.threads| {
      ReadersUpdate(s.threads, m.t, Step(s, m).threads[m.t]);
    }
  }

  lemma {:induction false} FusedStep(s: State, m: Move)
    requires OneOwner(s) && s.fused && FusedExcludes(s) && s.sh.readers == |Readers(s.threads)|
    ensures FusedExcludes(Step(s, m))
  {
    var s' := Step(s, m);
    if m.t < |s.threads| && s'.threads[m.t].pc.Writing? {
      assert Readers(s.threads) == {};
      forall i | 0 <= i < |s.threads|
        ensures !s'.threads[i].pc.Reading?
      {
        assert i !in Readers(s.threads);
      }
    }
  }

  lemma {:induction false} InvStep(s: State, m: Move)
    requires Inv(s)
    ensures Inv(Step(s, m))
  {
    OneOwnerStep(s, m);
    StampedStep(s, m);
    ReadersStep(s, m);
    if s.fused {
      FusedStep(s, m);
    }
  }

  lemma {:induction false} InvRun(s: State, moves: seq<Move>)
    requires Inv(s)
    ensures Inv(Run(s, moves))
  {
    if moves == [] {
    } else {
      InvRun(s, moves[..|moves| - 1]);
      InvStep(Run(s, moves[..|moves| - 1]), moves[|moves| - 1]);
    }
  }

  lemma {:induction false} Reachable(users: nat, fused: bool, moves: seq<Move>)
    ensures Inv(Run(Init(users, fused), moves))
  {
    assert Readers(Init(users, fused).threads) == {};
    InvRun(Init(users, fused), moves);
  }

  // ---------------------------------------------------------------------------------------------
  // What holds at this grain
  // ---------------------------------------------------------------------------------------------

  /** Two threads never both hold a write guard or sit between a won swap and the check of `readers`. */
  lemma {:induction false} WritersExclude(users: nat, moves: seq<Move>, i: nat, j: nat)
    requires i < users && j < users && i != j
    ensures var th := Run(Init(users, false), moves).threads;
      !(th[i].pc.Owns() && th[j].pc.Owns())
  {
    Reachable(users, false, moves);
  }

  /** `readers` is the number of live read guards. */
  lemma {:induction false} ReadersCountGuards(users: nat, moves: seq<Move>)
    ensures var s := Run(Init(users, false), moves); s.sh.readers == |Readers(s.threads)|
  {
    Reachable(users, false, moves);
  }

  /** A reader that overlaps a writer passed its check of `writer` before that writer's swap. */
  lemma {:induction false} OverlapIsStale(users: nat, moves: seq<Move>, i: nat, j: nat)
    requires i < users && j < users
    requires var th := Run(Init(users, false), moves).threads; th[i].pc.Reading? && th[j].pc.Writing?
    ensures var th := Run(Init(users, false), moves).threads; th[i].stamp < th[j].stamp
  {
    Reachable(users, false, moves);
  }

  ghost predicate OverlapAfter(users: nat, fused: bool, moves: seq<Move>) {
    Overlap(Run(Init(users, fused), moves))
  }

  /**
   * A reader and a writer can hold their guards together exactly when the check and the increment are
   * separate operations and there are two users.
   */
  lemma {:induction false} OverlapExactly(users: nat, fused: bool)
    ensures (exists moves :: OverlapAfter(users, fused, moves)) <==> !fused && users >= 2
  {
    if !fused && users >= 2 {
      SlipIn(users);
      assert OverlapAfter(users, fused, SlipInMoves());
    } else {
      forall moves
        ensures !OverlapAfter(users, fused, moves)
      {
        Reachable(users, fused, moves);
      }
    }
  }

  /** The reader checks, the writer swaps and checks, the reader increments. */
  function SlipInMoves(): seq<Move> {
    [Move(0, Read), Move(0, Read), Move(1, Write), Move(1, Write), Move(1, Write), Move(0, Read)]
  }

  lemma {:induction false} SlipIn(users: nat)
    requires users >= 2
    ensures Overlap(Run(Init(users, false), SlipInMoves()))
  {
    var s, m := Init(users, false), SlipInMoves();
    SixMoves(s, m);
    var s2 := Step(Step(s, m[0]), m[1]);
    assert s2.sh == Shared(0, false) && s2.threads[0].pc.Increment? && s2.threads[1].pc.Idle?;
    var s5 := Step(Step(Step(s2, m[2]), m[3]), m[4]);
    assert s5.threads[0].pc.Increment? && s5.threads[1].pc.Writing?;
    assert Step(s5, m[5]).threads[0].pc.Reading? && Step(s5, m[5]).threads[1].pc.Writing?;
  }

  /** No move of this list is made by thread j. */
  predicate Without(moves: seq<Move>, j: nat) {
    forall k :: 0 <= k < |moves| ==> moves[k].t != j
  }

  ghost predicate NobodyPast(s: State) {
    forall i :: 0 <= i < |s.threads| ==> !s.threads[i].pc.PastCheck()
  }

  /**
   * A writer that has just been granted the lock keeps it to itself for as long as it holds it, if and
   * only if at that moment no reader stood between its check and its increment.
   */
  lemma {:induction false} GrantExclusiveExactly(users: nat, before: seq<Move>, j: nat)
    requires j < users
    requires var s := Run(Init(users, false), before); s.threads[j].pc.Writing? && s.sh.readers == 0
    ensures var s := Run(Init(users, false), before);
      (forall moves :: Without(moves, j) ==> Run(s, moves).threads[j].pc.Writing? && !Overlap(Run(s, moves)))
        <==> (forall i :: 0 <= i < users ==> !s.threads[i].pc.Increment?)
  {
    Reachable(users, false, before);
    var s := Run(Init(users, false), before);
    assert Readers(s.threads) == {};
    assert forall i :: 0 <= i < users && s.threads[i].pc.Reading? ==> i in Readers(s.threads);
    if forall i :: 0 <= i < users ==> !s.threads[i].pc.Increment? {
      forall moves | Without(moves, j)
        ensures Run(s, moves).threads[j].pc.Writing? && !Overlap(Run(s, moves))
      {
        HoldKeepsReadersOut(s, moves, j);
      }
    } else {
      var i :| 0 <= i < users && s.threads[i].pc.Increment?;
      var moves := [Move(i, Read)];
      assert moves[..0] == [] && Run(s, moves) == Step(s, Move(i, Read));
      assert Step(s, Move(i, Read)).threads[i].pc.Reading? && Step(s, Move(i, Read)).threads[j].pc.Writing?;
      assert Without(moves, j) && Overlap(Run(s, moves));
    }
  }

  lemma {:induction false} HoldKeepsReadersOut(s: State, moves: seq<Move>, j: nat)
    requires j < |s.threads| && s.threads[j].pc.Writing? && s.sh.writer && NobodyPast(s) && OneOwner(s)
    requires Without(moves, j)
    ensures var r := Run(s, moves);
      r.threads[j].pc.Writing? && r.sh.writer && NobodyPast(r) && OneOwner(r) && !Overlap(r)
  {
    if moves == [] {
    } else {
      HoldKeepsReadersOut(s, moves[..|moves| - 1], j);
      assert moves[|moves| - 1].t != j;
    }
  }

  // ---------------------------------------------------------------------------------------------
  // The flag left behind by a writer that found readers
  // ---------------------------------------------------------------------------------------------

  /** `writer` is set although no thread owns it. */
  ghost predicate Orphaned(s: State) {
    s.sh.writer && forall i :: 0 <= i < |s.threads| ==> !s.threads[i].pc.Owns()
  }

  /** A step orphans the flag exactly when a writer that won the swap finds readers. */
  lemma {:induction false} OrphanedExactly(users: nat, moves: seq<Move>, m: Move)
    requires var s := Run(Init(users, false), moves); m.t < users && !Orphaned(s)
    ensures var s := Run(Init(users, false), moves);
      Orphaned(Step(s, m)) <==> s.threads[m.t].pc.CheckReaders? && s.sh.readers != 0
  {
    Reachable(users, false, moves);
    var s := Run(Init(users, false), moves);
    var s' := Step(s, m);
    var was, now := s.threads[m.t].pc, s'.threads[m.t].pc;
    assert forall i :: 0 <= i < users && i != m.t ==> s'.threads[i].pc == s.threads[i].pc;
    if was.Owns() {
      assert forall i :: 0 <= i < users && i != m.t ==> !s'.threads[i].pc.Owns();
      assert s'.sh.writer <==> was.CheckReaders?;
    } else if s.sh.writer {
      var o :| 0 <= o < users && s.threads[o].pc.Owns();
      assert s'.threads[o].pc.Owns();
    } else {
      assert s'.sh.writer ==> now.Owns();
    }
  }

  /**
   * From then on, in every continuation, the flag stays set, nobody is granted the write guard, and only
   * the readers that were already past their check ever hold a read guard.
   */
  lemma {:induction false} OrphanedForever(s: State, moves: seq<Move>)
    requires Orphaned(s)
    ensures var r := Run(s, moves);
      && Orphaned(r)
      && (forall i :: 0 <= i < |s.threads| ==> !r.threads[i].pc.Writing?)
      && (forall i :: 0 <= i < |s.threads| && r.threads[i].pc.PastCheck() ==> s.threads[i].pc.PastCheck())
  {
    if moves == [] {
    } else {
      OrphanedForever(s, moves[..|moves| - 1]);
    }
  }

  ghost predicate OrphanedAfter(users: nat, moves: seq<Move>) {
    Orphaned(Run(Init(users, false), moves))
  }

  /** Some run leaves the flag behind exactly if there are two users: one to read and one to write. */
  lemma {:induction false} OrphanReachableExactly(users: nat)
    ensures (exists moves :: OrphanedAfter(users, moves)) <==> users >= 2
  {
    if users >= 2 {
      WriteBesideReader(users);
      assert OrphanedAfter(users, WriteBesideReaderMoves());
    } else {
      forall moves
        ensures !OrphanedAfter(users, moves)
      {
        LoneUserKeepsFlag(users, moves);
      }
    }
  }

  /** The reader has its guard; the writer swaps and finds it. */
  function WriteBesideReaderMoves(): seq<Move> {
    [Move(0, Read), Move(0, Read), Move(0, Read), Move(1, Write), Move(1, Write), Move(1, Write)]
  }

  lemma {:induction false} WriteBesideReader(users: nat)
    requires users >= 2
    ensures Orphaned(Run(Init(users, false), WriteBesideReaderMoves()))
  {
    var s, m := Init(users, false), WriteBesideReaderMoves();
    SixMoves(s, m);
    var s3 := Step(Step(Step(s, m[0]), m[1]), m[2]);
    assert s3.sh == Shared(1, false) && s3.threads[0].pc.Reading? && s3.threads[1].pc.Idle?;
    var s5 := Step(Step(s3, m[3]), m[4]);
    assert s5.sh == Shared(1, true) && s5.threads[1].pc == CheckReaders(false);
    assert forall i :: 0 <= i < users && i != 1 ==> !s5.threads[i].pc.Owns();
    assert Step(s5, m[5]).threads[1].pc == Swap(false);
  }

  lemma {:induction false} SixMoves(s: State, m: seq<Move>)
    requires |m| == 6
    ensures Run(s, m) == Step(Step(Step(Step(Step(Step(s, m[0]), m[1]), m[2]), m[3]), m[4]), m[5])
  {
    assert m[..6] == m && m[..6][..5] == m[..5] && m[..5][..4] == m[..4] && m[..4][..3] == m[..3];
    assert m[..3][..2] == m[..2] && m[..2][..1] == m[..1] && m[..1][..0] == [];
    assert Run(s, m[..1]) == Step(s, m[0]) && Run(s, m[..2]) == Step(Step(s, m[0]), m[1]);
    assert Run(s, m[..3]) == Step(Run(s, m[..2]), m[2]) && Run(s, m[..4]) == Step(Run(s, m[..3]), m[3]);
    assert Run(s, m[..5]) == Step(Run(s, m[..4]), m[4]);
  }

  lemma {:induction false} LoneUserKeepsFlag(users: nat, moves: seq<Move>)
    requires users < 2
    ensures !OrphanedAfter(users, moves)
  {
    if moves == [] {
    } else {
      var before, m := moves[..|moves| - 1], moves[|moves| - 1];
      LoneUserKeepsFlag(users, before);
      if m.t < users {
        OrphanedExactly(users, before, m);
        Reachable(users, false, before);
        var s := Run(Init(users, false), before);
        assert !s.threads[0].pc.Reading? ==> Readers(s.threads) == {};
      }
    }
  }
}

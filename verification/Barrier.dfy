/** The reusable barrier: `wait` as a sequence of atomic operations, interleaved arbitrarily. */
module BarrierSync {
  import opened Common

  /** Where a caller is inside `wait`; each constructor but Outside names the operation it does next. */
  datatype Pc =
    | Outside                           // load generation
    | LoadCount(gen: nat)               // load count
    | Arrive(gen: nat, limit: nat)      // waiting.fetch_add(1) and the subtraction
    | Reset                             // last to arrive: waiting.store(0)
    | Advance                           // last to arrive: generation.fetch_add(1), then return true
    | Spin(gen: nat)                    // load generation until it differs, then return false
    | Underflow                         // the usize subtraction went below zero

  /** The three atomics of the barrier. */
  datatype Shared = Shared(count: nat, waiting: nat, generation: nat)

  /** What one atomic operation of `wait` does: the atomics, the caller's place, the value returned. */
  datatype Effect = Effect(shared: Shared, pc: Pc, result: Option<bool>)

  /** usize `fetch_add(1)`: wraps around at the top of the word. */
  function Next(n: nat): nat { if n + 1 >= USIZE then 0 else n + 1 }

  function WaitStep(sh: Shared, pc: Pc): Effect {
    match pc
    case Outside => Effect(sh, LoadCount(sh.generation), None)
    case LoadCount(gen) => Effect(sh, Arrive(gen, sh.count), None)
    case Arrive(gen, limit) =>
      var after := sh.(waiting := Next(sh.waiting));
      if limit < sh.waiting + 1 then Effect(after, Underflow, None)
      else if limit - sh.waiting - 1 == 0 then Effect(after, Reset, None)
      else Effect(after, Spin(gen), None)
    case Reset => Effect(sh.(waiting := 0), Advance, None)
    case Advance => Effect(sh.(generation := Next(sh.generation)), Outside, Some(true))
    case Spin(gen) => if gen == sh.generation then Effect(sh, pc, None) else Effect(sh, Outside, Some(false))
    case Underflow => Effect(sh, pc, None)
  }

  class Barrier {
    var count: nat
    var waiting: nat
    var generation: nat

    ghost function Value(): Shared
      reads this
    {
      Shared(count, waiting, generation)
    }

    constructor (count: nat)
      ensures Value() == Shared(count, 0, 0)
    {
      this.count, waiting, generation := count, 0, 0;
    }

    /** Runs the next atomic operation of a caller that is at `pc`. */
    method Execute(pc: Pc) returns (next: Pc, result: Option<bool>)
      modifies this
      ensures Effect(Value(), next, result) == WaitStep(old(Value()), pc)
    {
      next, result := pc, None;
      match pc
      case Outside =>
        next := LoadCount(generation);
      case LoadCount(gen) =>
        next := Arrive(gen, count);
      case Arrive(gen, limit) =>
        var arrived := waiting;
        waiting := Next(waiting);
        if limit < arrived + 1 {
          next := Underflow;
        } else {
          next := if limit - arrived - 1 == 0 then Reset else Spin(gen);
        }
      case Reset =>
        waiting := 0;
        next := Advance;
      case Advance =>
        generation := Next(generation);
        next, result := Outside, Some(true);
      case Spin(gen) =>
        if gen != generation {
          next, result := Outside, Some(false);
        }
      case Underflow =>
    }
  }

  /** A participant: where it is, and what its finished calls of `wait` returned. */
  datatype Thread = Thread(pc: Pc, results: seq<bool>) {
    /** Calls of `wait` begun, and calls whose arrival has been counted. */
    function Entered(): nat { |results| + if pc.Outside? then 0 else 1 }
    function Arrivals(): nat { |results| + if pc.Spin? || pc.Reset? || pc.Advance? then 1 else 0 }
  }

  /** The barrier, its users, and who completed each round (a history variable). */
  datatype State = State(sh: Shared, threads: seq<Thread>, leaders: seq<nat>)

  function Init(users: nat, count: nat): State {
    State(Shared(count, 0, 0), seq(users, i => Thread(Outside, [])), [])
  }

  /** Thread t runs one atomic operation. */
  function Step(s: State, t: nat): (r: State)
    ensures |r.threads| == |s.threads| && r.sh.count == s.sh.count
  {
    if t >= |s.threads| then s
    else
      var th := s.threads[t];
      var e := WaitStep(s.sh, th.pc);
      var results := if e.result.Some? then th.results + [e.result.value] else th.results;
      State(e.shared, s.threads[t := Thread(e.pc, results)],
            if e.result == Some(true) then s.leaders + [t] else s.leaders)
  }

  function Run(s: State, schedule: seq<nat>): (r: State)
    ensures |r.threads| == |s.threads| && r.sh.count == s.sh.count
  {
    if schedule == [] then s
    else Step(Run(s, schedule[..|schedule| - 1]), schedule[|schedule| - 1])
  }

  lemma {:induction false} RunConcat(s: State, a: seq<nat>, b: seq<nat>)
    ensures Run(s, a + b) == Run(Run(s, a), b)
  {
    if b == [] {
      assert a + b == a;
    } else {
      assert (a + b)[..|a + b| - 1] == a + b[..|b| - 1];
      RunConcat(s, a, b[..|b| - 1]);
    }
  }

  // ---------------------------------------------------------------------------------------------
  // The invariant, for at most `count` users
  // ---------------------------------------------------------------------------------------------

  predicate Leading(pc: Pc) { pc.Reset? || pc.Advance? }

  /** Thread i has been counted in the round that is still open. */
  predicate InRound(s: State, i: nat)
    requires i < |s.threads|
  {
    Leading(s.threads[i].pc) || (s.threads[i].pc.Spin? && |s.threads[i].results| == |s.leaders|)
  }

  ghost function Arrived(s: State): set<nat> {
    set i: nat | i < |s.threads| && InRound(s, i)
  }

  ghost predicate NoLeader(s: State) {
    forall i :: 0 <= i < |s.threads| ==> !Leading(s.threads[i].pc)
  }

  /** The generation counter once that many rounds are over. */
  ghost function GenerationAfter(rounds: nat): (g: nat)
    ensures g < USIZE
  {
    if rounds == 0 then 0 else Next(GenerationAfter(rounds - 1))
  }

  ghost predicate ThreadOk(s: State, i: nat)
    requires i < |s.threads|
  {
    var th, rounds := s.threads[i], |s.leaders|;
    && |th.results| <= rounds
    && (forall k :: 0 <= k < |th.results| ==> (th.results[k] <==> s.leaders[k] == i))
    && (match th.pc
        case Outside => |th.results| == rounds
        case LoadCount(gen) => |th.results| == rounds && gen == s.sh.generation
        case Arrive(gen, limit) => |th.results| == rounds && gen == s.sh.generation && limit == s.sh.count
        case Reset => |th.results| == rounds
        case Advance => |th.results| == rounds
        case Spin(gen) =>
          || (|th.results| == rounds && gen == s.sh.generation)
          || (|th.results| + 1 == rounds && gen == GenerationAfter(rounds - 1) && s.leaders[rounds - 1] != i)
        case Underflow => false)
  }

  /** While thread i leads, every user is in the round and everybody else spins on the current generation. */
  ghost predicate LeadsAll(s: State, i: nat)
    requires i < |s.threads|
  {
    && |s.threads| == s.sh.count
    && forall j :: 0 <= j < |s.threads| && j != i ==> s.threads[j].pc.Spin? && InRound(s, j)
  }

  ghost predicate Inv(s: State) {
    && |s.threads| <= s.sh.count < USIZE
    && s.sh.generation == GenerationAfter(|s.leaders|)
    && (forall i :: 0 <= i < |s.threads| ==> ThreadOk(s, i))
    && (forall i :: 0 <= i < |s.threads| && Leading(s.threads[i].pc) ==> LeadsAll(s, i))
    && (forall k :: 0 <= k < |s.leaders| ==> s.leaders[k] < |s.threads|)
    && (s.leaders != [] ==> |s.threads| == s.sh.count)
    && (NoLeader(s) ==> s.sh.waiting == |Arrived(s)| && (s.sh.count > 0 ==> |Arrived(s)| < s.sh.count))
    && ((exists i :: 0 <= i < |s.threads| && s.threads[i].pc.Advance?) ==> s.sh.waiting == 0)
  }

  lemma {:induction false} InvInit(users: nat, count: nat)
    requires users <= count < USIZE
    ensures Inv(Init(users, count))
  {
    assert Arrived(Init(users, count)) == {};
  }

  lemma {:induction false} InvStep(s: State, t: nat)
    requires Inv(s)
    ensures Inv(Step(s, t))
  {
    if t < |s.threads| {
      assert ThreadOk(s, t);
      match s.threads[t].pc
      case Outside => InvReading(s, t);
      case LoadCount(_) => InvReading(s, t);
      case Arrive(_, _) => InvArrive(s, t);
      case Reset => InvReset(s, t);
      case Advance => InvAdvance(s, t);
      case Spin(_) => InvReading(s, t);
    }
  }

  /** Operations that only read the atomics. */
  predicate Reading(pc: Pc) { pc.Outside? || pc.LoadCount? || pc.Spin? }

  lemma {:induction false} ReadingKeepsThread(s: State, t: nat, i: nat)
    requires Inv(s) && t < |s.threads| && Reading(s.threads[t].pc) && Step(s, t) != s && i < |s.threads|
    ensures var s' := Step(s, t);
      && ThreadOk(s', i) && !Leading(s.threads[i].pc) && !Leading(s'.threads[i].pc)
      && (InRound(s', i) <==> InRound(s, i))
      && s'.leaders == s.leaders && s'.sh == s.sh
  {
    assert ThreadOk(s, t) && ThreadOk(s, i);
    assert |s.leaders| > 0 ==> GenerationAfter(|s.leaders|) == Next(GenerationAfter(|s.leaders| - 1));
    assert !InRound(s, t);
    if Leading(s.threads[i].pc) {
      assert false;
    }
  }

  lemma {:induction false} InvReading(s: State, t: nat)
    requires Inv(s) && t < |s.threads| && Reading(s.threads[t].pc)
    ensures Inv(Step(s, t))
  {
    var s' := Step(s, t);
    if s' != s {
      ReadingKeepsThread(s, t, t);
      forall i | 0 <= i < |s.threads|
        ensures ThreadOk(s', i) && (i in Arrived(s') <==> i in Arrived(s))
        ensures !Leading(s.threads[i].pc) && !Leading(s'.threads[i].pc)
      {
        ReadingKeepsThread(s, t, i);
      }
      assert Arrived(s') == Arrived(s);
    }
  }

  /** When a thread is about to be counted, nobody leads and there is room for it. */
  lemma {:induction false} RoomToArrive(s: State, t: nat)
    requires Inv(s) && t < |s.threads| && s.threads[t].pc.Arrive?
    ensures NoLeader(s) && t !in Arrived(s)
    ensures s.sh.waiting + 1 == |Arrived(s) + {t}| <= s.sh.count
    ensures |Arrived(s) + {t}| == s.sh.count ==>
              |s.threads| == s.sh.count && forall i :: 0 <= i < |s.threads| ==> i in Arrived(s) + {t}
  {
    assert ThreadOk(s, t);
    assert forall i :: 0 <= i < |s.threads| && LeadsAll(s, i) ==> i == t;
    IndexSetBound(Arrived(s) + {t}, |s.threads|);
  }

  lemma {:induction false} ArriveKeepsThread(s: State, t: nat, i: nat)
    requires Inv(s) && t < |s.threads| && s.threads[t].pc.Arrive? && i < |s.threads|
    ensures var s' := Step(s, t);
      && ThreadOk(s', i)
      && (InRound(s', i) <==> i == t || InRound(s, i))
      && (i != t ==> !Leading(s'.threads[i].pc))
      && s'.leaders == s.leaders
  {
    RoomToArrive(s, t);
    assert ThreadOk(s, t) && ThreadOk(s, i);
  }

  lemma {:induction false} ArriveLast(s: State, t: nat)
    requires Inv(s) && t < |s.threads| && s.threads[t].pc.Arrive? && Step(s, t).threads[t].pc.Reset?
    ensures LeadsAll(Step(s, t), t)
  {
    RoomToArrive(s, t);
    assert ThreadOk(s, t);
    forall j | 0 <= j < |s.threads| && j != t
      ensures s.threads[j].pc.Spin? && InRound(Step(s, t), j)
    {
      assert j in Arrived(s) && !Leading(s.threads[j].pc);
    }
  }

  lemma {:induction false} InvArrive(s: State, t: nat)
    requires Inv(s) && t < |s.threads| && s.threads[t].pc.Arrive?
    ensures Inv(Step(s, t))
  {
    var s' := Step(s, t);
    RoomToArrive(s, t);
    ArriveKeepsThread(s, t, t);
    assert ThreadOk(s, t);
    forall i | 0 <= i < |s.threads|
      ensures ThreadOk(s', i)
      ensures i in Arrived(s') <==> i in Arrived(s) + {t}
      ensures i != t ==> !Leading(s'.threads[i].pc)
    {
      ArriveKeepsThread(s, t, i);
    }
    assert Arrived(s') == Arrived(s) + {t};
    if s'.threads[t].pc.Reset? {
      ArriveLast(s, t);
      assert Leading(s'.threads[t].pc);
    }
  }

  lemma {:induction false} InvReset(s: State, t: nat)
    requires Inv(s) && t < |s.threads| && s.threads[t].pc.Reset?
    ensures Inv(Step(s, t))
  {
    var s' := Step(s, t);
    assert LeadsAll(s, t) && Leading(s'.threads[t].pc);
    forall i | 0 <= i < |s.threads|
      ensures ThreadOk(s', i) && (i != t ==> s'.threads[i].pc.Spin? && InRound(s', i))
    {
      assert ThreadOk(s, i);
      assert i != t ==> InRound(s, i);
    }
  }

  lemma {:induction false} AdvanceKeepsThread(s: State, t: nat, i: nat)
    requires Inv(s) && t < |s.threads| && s.threads[t].pc.Advance? && i < |s.threads|
    ensures ThreadOk(Step(s, t), i) && !InRound(Step(s, t), i) && !Leading(Step(s, t).threads[i].pc)
  {
    assert ThreadOk(s, t) && ThreadOk(s, i) && LeadsAll(s, t);
    assert i != t ==> InRound(s, i);
    assert GenerationAfter(|s.leaders| + 1) == Next(s.sh.generation);
  }

  lemma {:induction false} InvAdvance(s: State, t: nat)
    requires Inv(s) && t < |s.threads| && s.threads[t].pc.Advance?
    ensures Inv(Step(s, t))
  {
    var s' := Step(s, t);
    assert ThreadOk(s, t) && LeadsAll(s, t);
    assert s'.sh.waiting == s.sh.waiting == 0 && |s.threads| == s.sh.count;
    forall i | 0 <= i < |s.threads|
      ensures ThreadOk(s', i) && i !in Arrived(s') && !Leading(s'.threads[i].pc)
    {
      AdvanceKeepsThread(s, t, i);
    }
    assert Arrived(s') == {};
  }

  lemma {:induction false} InvRun(s: State, schedule: seq<nat>)
    requires Inv(s)
    ensures Inv(Run(s, schedule))
    ensures s.leaders <= Run(s, schedule).leaders
  {
    if schedule == [] {
    } else {
      InvRun(s, schedule[..|schedule| - 1]);
      InvStep(Run(s, schedule[..|schedule| - 1]), schedule[|schedule| - 1]);
    }
  }

  // ---------------------------------------------------------------------------------------------
  // What the barrier guarantees
  // ---------------------------------------------------------------------------------------------

  /**
   * Rounds do not overtake each other: no call of `wait` has returned more often than any
   * participant has arrived, and no two participants are more than one call apart.
   */
  lemma {:induction false} NoEarlyReturn(n: nat, schedule: seq<nat>, i: nat, j: nat)
    requires n < USIZE && i < n && j < n
    ensures var s := Run(Init(n, n), schedule);
      && |s.threads| == n
      && |s.threads[i].results| <= s.threads[j].Arrivals()
      && s.threads[i].Entered() <= s.threads[j].Entered() + 1
  {
    InvInit(n, n);
    InvRun(Init(n, n), schedule);
    var s := Run(Init(n, n), schedule);
    assert ThreadOk(s, i) && ThreadOk(s, j);
  }

  /** As soon as anyone has finished call k, exactly one participant's call k has returned true. */
  lemma {:induction false} OneLeaderPerRound(n: nat, schedule: seq<nat>, i: nat, k: nat)
    requires n < USIZE && i < n
    requires k < |Run(Init(n, n), schedule).threads[i].results|
    ensures var th := Run(Init(n, n), schedule).threads;
      exists leader :: 0 <= leader < n && k < |th[leader].results| && th[leader].results[k]
        && forall j :: 0 <= j < n && k < |th[j].results| && th[j].results[k] ==> j == leader
  {
    InvInit(n, n);
    InvRun(Init(n, n), schedule);
    var s := Run(Init(n, n), schedule);
    assert ThreadOk(s, i);
    var leader := s.leaders[k];
    assert ThreadOk(s, leader);
    forall j | 0 <= j < n && k < |s.threads[j].results| && s.threads[j].results[k]
      ensures j == leader
    {
      assert ThreadOk(s, j);
    }
  }

  /** With fewer users than `count` no call ever returns. */
  lemma {:induction false} TooFewNeverReturn(users: nat, count: nat, schedule: seq<nat>, i: nat)
    requires users < count < USIZE && i < users
    ensures |Run(Init(users, count), schedule).threads| == users
    ensures Run(Init(users, count), schedule).threads[i].results == []
  {
    InvInit(users, count);
    InvRun(Init(users, count), schedule);
    assert ThreadOk(Run(Init(users, count), schedule), i);
  }

  ghost predicate Underflows(users: nat, count: nat, schedule: seq<nat>) {
    exists i :: 0 <= i < |Run(Init(users, count), schedule).threads|
             && Run(Init(users, count), schedule).threads[i].pc.Underflow?
  }

  /** The subtraction of `wait` can go below zero exactly when more than `count` threads use the barrier. */
  lemma {:induction false} UnderflowExactly(users: nat, count: nat)
    requires count < USIZE
    ensures (exists schedule :: Underflows(users, count, schedule)) <==> users > count
  {
    if users > count {
      var schedule := Crowd(users, count, count + 1);
      assert Run(Init(users, count), schedule).threads[count].pc.Underflow?;
      assert Underflows(users, count, schedule);
    } else {
      InvInit(users, count);
      forall schedule
        ensures !Underflows(users, count, schedule)
      {
        InvRun(Init(users, count), schedule);
        var s := Run(Init(users, count), schedule);
        forall i | 0 <= i < |s.threads|
          ensures !s.threads[i].pc.Underflow?
        {
          assert ThreadOk(s, i);
        }
      }
    }
  }

  lemma {:induction false} ThreeSteps(s: State, t: nat)
    ensures Run(s, [t, t, t]) == Step(Step(Step(s, t), t), t)
  {
    assert [t, t, t][..2] == [t, t] && [t, t][..1] == [t] && [t][..0] == [];
    assert Run(s, []) == s && Run(s, [t]) == Step(s, t);
    assert Run(s, [t, t]) == Step(Run(s, [t]), t);
  }

  /** A thread that calls `wait` undisturbed is counted. */
  lemma {:induction false} WalkIn(s: State, t: nat)
    requires t < |s.threads| && s.threads[t].pc.Outside? && s.sh.waiting < USIZE
    ensures var s' := Run(s, [t, t, t]);
      && s'.sh == s.sh.(waiting := Next(s.sh.waiting))
      && (s'.threads[t].pc.Underflow? <==> s.sh.count <= s.sh.waiting)
      && forall i :: 0 <= i < |s.threads| && i != t ==> s'.threads[i] == s.threads[i]
  {
    ThreeSteps(s, t);
    assert Step(s, t).threads[t].pc == LoadCount(s.sh.generation);
    assert Step(Step(s, t), t).threads[t].pc == Arrive(s.sh.generation, s.sh.count);
  }

  /** The first k threads come as far as their fetch_add, one after the other. */
  lemma {:induction false} Crowd(users: nat, count: nat, k: nat) returns (schedule: seq<nat>)
    requires count < users && k <= count + 1 && count < USIZE
    ensures var s := Run(Init(users, count), schedule);
      && s.sh == Shared(count, if k == USIZE then 0 else k, 0)
      && (forall i :: k <= i < users ==> s.threads[i].pc == Outside)
      && (k == count + 1 ==> s.threads[count].pc.Underflow?)
  {
    if k == 0 {
      schedule := [];
    } else {
      var before := Crowd(users, count, k - 1);
      var t := k - 1;
      schedule := before + [t, t, t];
      RunConcat(Init(users, count), before, [t, t, t]);
      WalkIn(Run(Init(users, count), before), t);
    }
  }

  // ---------------------------------------------------------------------------------------------
  // Progress under fair scheduling
  // ---------------------------------------------------------------------------------------------

  /** Operations thread i still needs before the open round can complete. */
  function Work(s: State, i: nat): nat
    requires i < |s.threads|
  {
    match s.threads[i].pc
    case Outside => 5
    case LoadCount(_) => 4
    case Arrive(_, _) => 3
    case Reset => 2
    case Advance => 1
    case Spin(gen) => if gen == s.sh.generation then 0 else 6
    case Underflow => 0
  }

  ghost function TotalWork(s: State): nat {
    Sum(seq(|s.threads|, i requires 0 <= i < |s.threads| => Work(s, i)))
  }

  /** As long as the open round is not complete, somebody has work to do. */
  lemma {:induction false} SomeoneWorks(s: State) returns (t: nat)
    requires Inv(s) && |s.threads| == s.sh.count > 0
    ensures t < |s.threads| && Work(s, t) > 0
  {
    if forall i :: 0 <= i < |s.threads| ==> Work(s, i) == 0 {
      forall i | 0 <= i < |s.threads|
        ensures i in Arrived(s) && !Leading(s.threads[i].pc)
      {
        assert Work(s, i) == 0 && ThreadOk(s, i);
        assert |s.leaders| > 0 ==> GenerationAfter(|s.leaders|) == Next(GenerationAfter(|s.leaders| - 1));
      }
      IndexSetBound(Arrived(s), |s.threads|);
      assert false;
    }
    t :| 0 <= t < |s.threads| && Work(s, t) > 0;
  }

  /** A step that does not complete the round takes work off the thread that made it, if it had any. */
  lemma {:induction false} StepWorks(s: State, t: nat)
    requires t < |s.threads| && |Step(s, t).leaders| == |s.leaders|
    requires s.threads[t].pc.Arrive? ==> s.threads[t].pc.gen == s.sh.generation
    ensures Work(Step(s, t), t) < Work(s, t) || Work(Step(s, t), t) == Work(s, t) == 0
    ensures forall i :: 0 <= i < |s.threads| && i != t ==> Work(Step(s, t), i) == Work(s, i)
  {
    assert s.threads[t].pc.Advance? ==> |Step(s, t).leaders| == |s.leaders| + 1;
  }

  lemma {:induction false} StepTotal(s: State, t: nat)
    requires t < |s.threads| && |Step(s, t).leaders| == |s.leaders|
    requires s.threads[t].pc.Arrive? ==> s.threads[t].pc.gen == s.sh.generation
    ensures TotalWork(Step(s, t)) <= TotalWork(s)
    ensures Work(s, t) > 0 ==> TotalWork(Step(s, t)) < TotalWork(s)
  {
    StepWorks(s, t);
    var s' := Step(s, t);
    var w := seq(|s.threads|, i requires 0 <= i < |s.threads| => Work(s, i));
    var w' := seq(|s'.threads|, i requires 0 <= i < |s'.threads| => Work(s', i));
    assert w' == w[t := Work(s', t)];
    SumUpdate(w, t, Work(s', t));
  }

  /** Somebody always has work to do, and doing it completes the open round or comes nearer to it. */
  lemma {:induction false} SomeoneCanMove(s: State) returns (t: nat)
    requires Inv(s) && |s.threads| == s.sh.count > 0
    ensures t < |s.threads| && Work(s, t) > 0
    ensures |Step(s, t).leaders| > |s.leaders| || TotalWork(Step(s, t)) < TotalWork(s)
  {
    t := SomeoneWorks(s);
    assert ThreadOk(s, t);
    if |Step(s, t).leaders| == |s.leaders| {
      StepTotal(s, t);
    }
  }

  /** A window is a stretch of the schedule in which every thread runs at least once. */
  predicate Window(n: nat, window: seq<nat>) {
    forall t :: 0 <= t < n ==> t in window
  }

  /** Within a stretch that completes no round, work never grows and a thread named in it works. */
  lemma {:induction false} StretchWorks(s: State, stretch: seq<nat>, t: nat)
    requires Inv(s) && t < |s.threads| && |Run(s, stretch).leaders| == |s.leaders|
    ensures TotalWork(Run(s, stretch)) <= TotalWork(s)
    ensures t !in stretch ==> |Run(s, stretch).threads| == |s.threads| && Work(Run(s, stretch), t) == Work(s, t)
    ensures t in stretch && Work(s, t) > 0 ==> TotalWork(Run(s, stretch)) < TotalWork(s)
  {
    if stretch == [] {
    } else {
      var init, u := stretch[..|stretch| - 1], stretch[|stretch| - 1];
      var m := Run(s, init);
      InvRun(s, init);
      assert |m.leaders| <= |Step(m, u).leaders|;
      StretchWorks(s, init, t);
      assert stretch == init + [u];
      if u < |m.threads| {
        assert ThreadOk(m, u);
        StepWorks(m, u);
        StepTotal(m, u);
      }
    }
  }

  ghost function Flatten(windows: seq<seq<nat>>): seq<nat> {
    if windows == [] then [] else Flatten(windows[..|windows| - 1]) + windows[|windows| - 1]
  }

  /** From any state the invariant allows, more fair windows than there is work complete a round. */
  lemma {:induction false} WindowsComplete(s: State, windows: seq<seq<nat>>)
    requires Inv(s) && |s.threads| == s.sh.count > 0
    requires forall w :: w in windows ==> Window(|s.threads|, w)
    ensures |Run(s, Flatten(windows)).leaders| > |s.leaders|
         || TotalWork(Run(s, Flatten(windows))) + |windows| <= TotalWork(s)
  {
    if windows == [] {
    } else {
      var init, w := windows[..|windows| - 1], windows[|windows| - 1];
      var m := Run(s, Flatten(init));
      WindowsComplete(s, init);
      RunConcat(s, Flatten(init), w);
      InvRun(s, Flatten(init));
      InvRun(m, w);
      if |Run(m, w).leaders| == |s.leaders| {
        var t := SomeoneWorks(m);
        assert Window(|s.threads|, w);
        StretchWorks(m, w, t);
      }
    }
  }

  lemma {:induction false} WorkBound(s: State)
    ensures TotalWork(s) <= 6 * |s.threads|
  {
    SumBound(seq(|s.threads|, i requires 0 <= i < |s.threads| => Work(s, i)), 6);
  }

  lemma {:induction false} SumBound(w: seq<nat>, top: nat)
    requires forall i :: 0 <= i < |w| ==> w[i] <= top
    ensures Sum(w) <= top * |w|
  {
    if w == [] {
    } else {
      SumBound(w[..|w| - 1], top);
    }
  }

  /**
   * The barrier always opens: after any run of its n users, 6n + 1 further windows in each of
   * which every user runs at least once complete another round, whatever the order inside them.
   */
  lemma {:induction false} FairRunsCompleteARound(n: nat, before: seq<nat>, windows: seq<seq<nat>>)
    requires 0 < n < USIZE && |windows| > 6 * n
    requires forall w :: w in windows ==> Window(n, w)
    ensures |Run(Init(n, n), before + Flatten(windows)).leaders| > |Run(Init(n, n), before).leaders|
  {
    InvInit(n, n);
    InvRun(Init(n, n), before);
    var s := Run(Init(n, n), before);
    RunConcat(Init(n, n), before, Flatten(windows));
    WindowsComplete(s, windows);
    WorkBound(s);
  }

  lemma {:induction false} FlattenConcat(a: seq<seq<nat>>, b: seq<seq<nat>>)
    ensures Flatten(a + b) == Flatten(a) + Flatten(b)
  {
    if b == [] {
      assert a + b == a;
    } else {
      assert (a + b)[..|a + b| - 1] == a + b[..|b| - 1];
      FlattenConcat(a, b[..|b| - 1]);
    }
  }

  /** Between two completed rounds a user is never more than one result behind. */
  lemma {:induction false} ResultsFollowRounds(n: nat, schedule: seq<nat>, i: nat)
    requires n < USIZE && i < n
    ensures var s := Run(Init(n, n), schedule);
      |s.threads| == n && |s.leaders| <= |s.threads[i].results| + 1 && |s.threads[i].results| <= |s.leaders|
  {
    InvInit(n, n);
    InvRun(Init(n, n), schedule);
    assert ThreadOk(Run(Init(n, n), schedule), i);
  }

  /**
   * So every user gets out: after any run of the n users and twice as many such windows, each of them has
   * returned from at least one more call of `wait`.
   */
  lemma {:induction false} EveryoneReturns(n: nat, before: seq<nat>, windows: seq<seq<nat>>, i: nat)
    requires 0 < n < USIZE && |windows| >= 2 * (6 * n + 1) && i < n
    requires forall w :: w in windows ==> Window(n, w)
    ensures var s, r := Run(Init(n, n), before), Run(Init(n, n), before + Flatten(windows));
      |s.threads| == |r.threads| == n && |r.threads[i].results| > |s.threads[i].results|
  {
    var a, b := windows[..6 * n + 1], windows[6 * n + 1..];
    assert windows == a + b;
    FlattenConcat(a, b);
    assert before + Flatten(windows) == before + Flatten(a) + Flatten(b);
    FairRunsCompleteARound(n, before, a);
    FairRunsCompleteARound(n, before + Flatten(a), b);
    ResultsFollowRounds(n, before, i);
    ResultsFollowRounds(n, before + Flatten(windows), i);
  }
}

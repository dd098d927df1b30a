/** The scheduler's choices by the ranks of the priorities. */
module RankLaws {
  import opened Common
  import opened Scheduling
  import opened SchedulerLaws
  import opened QueueLaws

  /** The value of a priority: the larger, the more urgent. */
  function Rank(p: Priority): nat {
    match p case RealTime => 99 case High => 75 case Normal => 50 case Low => 25 case Idle => 0
  }

  ghost function RankOf(ps: seq<Process>, id: nat): Option<nat> {
    match Find(ps, id, 0) case None => None case Some(p) => Some(Rank(ThreadAt(ps, p).priority))
  }

  /** No thread that waits is more urgent than thread id. */
  ghost predicate MostUrgent(s: Sched, id: nat)
    requires |s.queues| == 5
  {
    && RankOf(s.processes, id).Some?
    && forall t: nat :: t in Pending(s.queues) ==>
         RankOf(s.processes, t).Some? && RankOf(s.processes, t).value <= RankOf(s.processes, id).value
  }

  lemma QueuesFollowRanks(p: Priority, q: Priority)
    ensures p.Queue() <= q.Queue() <==> Rank(p) >= Rank(q)
  {}

  lemma {:induction false} ClassesFollowRanks(ps: seq<Process>, a: nat, b: nat)
    requires ClassIn(ps, a).Some? && ClassIn(ps, b).Some? && ClassIn(ps, a).value <= ClassIn(ps, b).value
    ensures RankOf(ps, a).Some? && RankOf(ps, b).Some? && RankOf(ps, b).value <= RankOf(ps, a).value
  {
    QueuesFollowRanks(ThreadAt(ps, Find(ps, a, 0).value).priority, ThreadAt(ps, Find(ps, b, 0).value).priority);
  }

  /** A dispatch over sorted queues runs a thread than which no other is more urgent. */
  lemma {:induction false} DispatchServesMostUrgent(a: Sched)
    requires Inv(a) && Sorted(a) && NoneRunning(a) && FirstFilled(a.queues, 0).Some?
    ensures var r := ChargeSpec(DispatchSpec(a));
      |r.queues| == 5 && r.currentThread.Some? && MostUrgent(r, r.currentThread.value)
  {
    hide DispatchSpec, ChargeSpec, StateOf, ClassIn, Sorted, Pending, RankOf;
    var q := FirstFilled(a.queues, 0).value;
    var d, r := DispatchSpec(a), ChargeSpec(DispatchSpec(a));
    assert |a.queues| == 5;
    DispatchRunsHighest(a);
    DispatchKeeps(a);
    ChargeKeeps(d);
    DispatchSorted(a);
    ChargeSorted(d);
    var id := Last(a.queues, q);
    assert ClassIn(a.processes, id) == Some(q) by {
      ClassOfWaiting(a, q, id);
    }
    ClassKept(a, id);
    assert forall k :: 0 <= k < q ==> r.queues[k] == [];
    hide Inv, NoneRunning, DispatchSpec, ChargeSpec, StateOf, ClassIn, Sorted, Pending, RankOf;
    hide FirstFilled, Popped, Last;
    ClassesFollowRanks(r.processes, id, id);
    forall t: nat | t in Pending(r.queues)
      ensures RankOf(r.processes, t).Some? && RankOf(r.processes, t).value <= RankOf(r.processes, id).value
    {
      var k := QueueOf(r.queues, t);
      ClassOfWaiting(r, k, t);
      ClassesFollowRanks(r.processes, id, t);
    }
  }

  lemma {:induction false} ClassKept(a: Sched, id: nat)
    requires Inv(a) && NoneRunning(a) && ClassIn(a.processes, id).Some?
    ensures ClassIn(ChargeSpec(DispatchSpec(a)).processes, id) == ClassIn(a.processes, id)
  {
    hide DispatchSpec, ChargeSpec, ClassIn, Unique, StateOf, SameThreads;
    var d := DispatchSpec(a);
    DispatchKeeps(a);
    ChargeKeeps(d);
    UniqueOf(d);
    UniqueOf(ChargeSpec(d));
    DispatchSame(a);
    ChargeSame(d);
    SameKeeps(a.processes, d.processes);
    SameKeeps(d.processes, ChargeSpec(d).processes);
    hide Inv, KeepsThreads;
    KeepsClass(a.processes, d.processes, id);
    KeepsClass(d.processes, ChargeSpec(d).processes, id);
  }

  /**
   * In every run that changes priorities only of threads that do not wait, or within their class: a quantum that
   * runs out and finds a thread runs one than which no waiting thread is more urgent.
   */
  lemma {:induction false} ExpiryServesMostUrgent(ops: seq<Op>)
    requires Considerate(BOOT, ops) && Expires(Run(BOOT, ops)) && Run(BOOT, ops).currentThread.Some?
    ensures var r := TickSpec(Run(BOOT, ops));
      |r.queues| == 5 && r.currentThread.Some?
      && (StateOf(r.processes, r.currentThread.value) == Some(Running) ==> MostUrgent(r, r.currentThread.value))
  {
    hide Inv, Sorted, Considerate, Run, TickSpec, PreemptSpec, DispatchSpec, ChargeSpec, MostUrgent, StateOf;
    hide FirstFilled;
    var s := Run(BOOT, ops);
    BootOk();
    RunKeepsInv(BOOT, ops);
    QueuedByPriority(ops);
    ExpiryIs(s);
    ExpiryRunsHighest(s);
    var b := s.(ticks := s.ticks + 1, quantum := 0);
    ClockKeeps(s, s.ticks + 1, 0);
    ClockSorted(s, s.ticks + 1, 0);
    PreemptKeeps(b);
    PreemptSorted(b);
    if FirstFilled(PreemptSpec(b).queues, 0).Some? {
      DispatchServesMostUrgent(PreemptSpec(b));
    }
  }

  // ---------------------------------------------------------------------------------------------
  // Three threads
  // ---------------------------------------------------------------------------------------------

  /** The ticks since s have changed nothing but times. */
  ghost predicate Quiet(s: Sched, r: Sched, n: nat) {
    Inv(r) && SameView(s, r) && r.quantum == s.quantum + n && SameThreads(s.processes, r.processes)
  }

  lemma {:induction false} QuietRun(s: Sched, n: nat)
    requires |s.queues| == 5 && Inv(s) && s.quantum + n < 10
    ensures Quiet(s, Run(s, Ticks(n)), n)
  {
    hide Inv, Run, Quiet, TickSpec, Ticks;
    if n == 0 {
      RunNothing(s);
      QuietItself(s);
    } else {
      QuietRun(s, n - 1);
      TickOn(s, n);
      QuietStep(s, Run(s, Ticks(n - 1)), n - 1);
    }
  }

  lemma QuietItself(s: Sched)
    requires Inv(s)
    ensures Quiet(s, s, 0)
  {
    hide Inv, StateOf;
  }

  lemma {:induction false} QuietStep(s: Sched, r: Sched, n: nat)
    requires |r.queues| == 5 && Quiet(s, r, n) && s.quantum + n + 1 < 10
    ensures Quiet(s, TickSpec(r), n + 1)
  {
    hide Inv, SameThreads, TickSpec, SameView;
    QuietTick(r);
    TickKeeps(r);
    TickSame(r);
    SameTransitive(s.processes, r.processes, TickSpec(r).processes);
    SameViewTransitive(s, r, TickSpec(r));
  }

  lemma SameViewTransitive(a: Sched, b: Sched, c: Sched)
    requires SameView(a, b) && SameView(b, c)
    ensures SameView(a, c)
  {
    hide StateOf;
  }

  /** A kernel thread of normal priority runs, has created one of high priority, and one of low priority was added. */
  ghost function ThreeThreads(): (r: Sched)
    ensures |r.queues| == 5
  {
    Run(BOOT, [Add(Normal), Dispatch, Create(High), Add(Low)])
  }

  lemma {:induction false} ThreeThreadsIs()
    ensures ThreeThreads() == Sched(
      [[], [2], [], [3], []],
      [Process(1, [Thread(1, Running, Normal, 0), Thread(2, Ready, High, 0)], 0),
       Process(2, [Thread(3, Ready, Low, 0)], 0)],
      Some(1), Some(1), 0, 0, 4, 3)
  {
    hide AddSpec, CreateSpec, DispatchSpec, Run;
    var s2 := Sched([[], [], [], [], []], [Kernel(1, Running, Normal)], Some(1), Some(1), 0, 0, 2, 2);
    NotYetDispatched();
    FirstRuns();
    CreatesAndAdds(s2);
    RunThree(BOOT, Add(Normal), Dispatch, Create(High));
    RunOneMore(BOOT, [Add(Normal), Dispatch, Create(High)], Add(Low));
    assert [Add(Normal), Dispatch, Create(High)] + [Add(Low)] == [Add(Normal), Dispatch, Create(High), Add(Low)];
  }

  lemma NotYetDispatched()
    ensures AddSpec(BOOT, Normal).currentThread == None
  {}

  lemma RunOneMore(s: Sched, ops: seq<Op>, op: Op)
    requires |s.queues| == 5
    ensures Run(s, ops + [op]) == Apply(Run(s, ops), op)
  {
    hide Apply;
    assert (ops + [op])[..|ops|] == ops;
  }

  lemma {:induction false} FirstRuns()
    ensures DispatchSpec(AddSpec(BOOT, Normal)) ==
            Sched([[], [], [], [], []], [Kernel(1, Running, Normal)], Some(1), Some(1), 0, 0, 2, 2)
  {
    OneAdd(Normal);
    hide AddSpec;
    var s, th := AddSpec(BOOT, Normal), Thread(1, Running, Normal, 0);
    assert s.queues[0] == [] && s.queues[1] == [] && s.queues[2] == [1];
    assert FirstFilled(s.queues, 0) == Some(2);
    assert Last(s.queues, 2) == 1 && Popped(s.queues, 2) == [[], [], [], [], []];
    assert Find(s.processes, 1, 0) == Some((0, 0));
    assert Kernel(1, Ready, Normal).threads[0 := th] == [th];
    assert WithThread(s.processes, (0, 0), th) == [Kernel(1, Running, Normal)];
  }

  lemma {:induction false} CreatesAndAdds(s: Sched)
    requires s == Sched([[], [], [], [], []], [Kernel(1, Running, Normal)], Some(1), Some(1), 0, 0, 2, 2)
    ensures AddSpec(CreateSpec(s, High), Low) == Sched(
      [[], [2], [], [3], []],
      [Process(1, [Thread(1, Running, Normal, 0), Thread(2, Ready, High, 0)], 0),
       Process(2, [Thread(3, Ready, Low, 0)], 0)],
      Some(1), Some(1), 0, 0, 4, 3)
  {
    assert FindProcess(s.processes, 1, 0) == Some(0);
    var two := [Thread(1, Running, Normal, 0), Thread(2, Ready, High, 0)];
    assert [Thread(1, Running, Normal, 0)] + [Thread(2, Ready, High, 0)] == two;
    var s3 := CreateSpec(s, High);
    assert [] + [2] == [2] && [[], [], [], [], []][1 := [2]] == [[], [2], [], [], []];
    assert s3.processes == [Process(1, two, 0)] && s3.queues == [[], [2], [], [], []];
    hide CreateSpec;
    assert [] + [3] == [3] && [[], [2], [], [], []][3 := [3]] == [[], [2], [], [3], []];
  }

  /** The tenth tick takes the processor from the thread of normal priority and gives it to the one of high. */
  lemma {:induction false} HighPreemptsNormal()
    ensures Run(ThreeThreads(), Ticks(9)).currentThread == Some(1)
    ensures Run(ThreeThreads(), Ticks(10)).currentThread == Some(2)
    ensures Run(ThreeThreads(), Ticks(10)).queues == [[], [], [1], [3], []]
  {
    var s := ThreeThreads();
    ThreeThreadsIs();
    assert Inv(s) by {
      BootOk();
      RunKeepsInv(BOOT, [Add(Normal), Dispatch, Create(High), Add(Low)]);
    }
    hide ThreeThreads, Run;
    Found(s.processes, (0, 0));
    StateAt(s.processes, 1);
    QuietRun(s, 9);
    TickOn(s, 10);
    TenthTick(s, Run(s, Ticks(9)));
  }

  lemma {:induction false} TenthTick(s: Sched, r: Sched)
    requires |r.queues| == 5 && Inv(r) && SameView(s, r) && SameThreads(s.processes, r.processes) && r.quantum == 9
    requires s.queues == [[], [2], [], [3], []] && s.currentThread == Some(1)
    requires StateOf(s.processes, 1) == Some(Running) && Find(s.processes, 1, 0) == Some((0, 0))
    requires ThreadAt(s.processes, (0, 0)).priority == Normal
    ensures TickSpec(r).currentThread == Some(2) && TickSpec(r).queues == [[], [], [1], [3], []]
  {
    hide Inv, StateOf, TickSpec, PreemptSpec, SameThreads, Find, Push, FirstFilled, Last, Popped;
    TenthPreempts(s, r);
    SecondFilled();
    ExpiryRunsHighest(r);
  }

  lemma SecondFilled()
    ensures var queues := [[], [2], [1], [3], []];
      FirstFilled(queues, 0) == Some(1) && Last(queues, 1) == 2 && Popped(queues, 1) == [[], [], [1], [3], []]
  {
    var queues: seq<seq<nat>> := [[], [2], [1], [3], []];
    assert queues[0] == [] && queues[1] == [2] && FirstFilled(queues, 0) == Some(1);
    assert queues[1][..0] == [];
  }

  lemma {:induction false} TenthPreempts(s: Sched, r: Sched)
    requires Inv(r) && SameView(s, r) && SameThreads(s.processes, r.processes)
    requires s.queues == [[], [2], [], [3], []] && s.currentThread == Some(1)
    requires StateOf(s.processes, 1) == Some(Running) && Find(s.processes, 1, 0) == Some((0, 0))
    requires ThreadAt(s.processes, (0, 0)).priority == Normal
    ensures PreemptSpec(r).queues == [[], [2], [1], [3], []]
  {
    UniqueOf(r);
    hide Inv, Unique;
    Found(r.processes, (0, 0));
    StateAt(r.processes, 1);
    hide StateOf, SameThreads, WithThread;
    assert [] + [1] == [1];
  }
}

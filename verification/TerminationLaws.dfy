/** When ending a thread is final: exactly if the thread does not wait in a ready queue. */
module TerminationLaws {
  import opened Common
  import opened Scheduling
  import opened SchedulerLaws

  // ---------------------------------------------------------------------------------------------
  // A terminated thread that waits nowhere
  // ---------------------------------------------------------------------------------------------

  /** The thread is terminated and waits in no queue. */
  ghost predicate Gone(s: Sched, id: nat) {
    Inv(s) && StateOf(s.processes, id) == Some(Terminated) && id !in Pending(s.queues)
  }

  lemma {:induction false} GoneStays(s: Sched, op: Op, id: nat)
    requires Gone(s, id)
    ensures Gone(Apply(s, op), id)
  {
    hide TickSpec, DispatchSpec, AddSpec, CreateSpec, TerminateSpec, BlockSpec, UnblockSpec, SetPrioritySpec;
    hide Pending, StateOf;
    ApplyKeeps(s, op);
    GoneQueues(s, op, id);
    hide Inv;
    match op
    case Tick => GoneTick(s, id);
    case Dispatch =>
      if s.currentThread.None? {
        GoneDispatch(s, id);
      }
    case Add(priority) => AddKeeps(s, priority); FreshId(s, id);
    case Create(priority) => CreateKeeps(s, priority); FreshId(s, id);
    case Terminate(t) => TerminateKeeps(s, t);
    case Block(t) => BlockKeeps(s, t);
    case Unblock(t) => UnblockKeeps(s, t);
    case SetPriority(t, priority) => SetPriorityKeeps(s, t, priority);
  }

  lemma FreshId(s: Sched, id: nat)
    requires Inv(s) && StateOf(s.processes, id).Some?
    ensures id < s.nextThread
  {}

  /** No call puts a terminated thread into the queues. */
  lemma {:induction false} GoneQueues(s: Sched, op: Op, id: nat)
    requires Gone(s, id)
    ensures id !in Pending(Apply(s, op).queues)
  {
    assert |s.queues| == 5;
    assert s.currentThread.None? ==> NoneRunning(s);
    hide Pending, TickSpec, DispatchSpec, UnblockSpec, Inv, StateOf, NoneRunning, WithThread, OwnerOf, Push;
    match op
    case Tick => GoneTick(s, id);
    case Dispatch =>
      if s.currentThread.None? {
        GoneDispatch(s, id);
      }
    case _ => GonePush(s, op, id);
  }

  lemma {:induction false} GonePush(s: Sched, op: Op, id: nat)
    requires Gone(s, id) && !op.Tick? && !op.Dispatch?
    ensures id !in Pending(Apply(s, op).queues)
  {
    assert |s.queues| == 5;
    FreshId(s, id);
    var q, t := CallJoins(s, op);
    hide Pending, Inv, Apply, Push;
    PushPending(s.queues, q, t);
  }

  /** A call queues a fresh thread, or one that was blocked, or none. */
  lemma {:induction false} CallJoins(s: Sched, op: Op) returns (q: nat, t: nat)
    requires |s.queues| == 5 && !op.Tick? && !op.Dispatch?
    ensures q < 5 && (t == s.nextThread || StateOf(s.processes, t) == Some(Blocked))
    ensures Apply(s, op).queues == s.queues || Apply(s, op).queues == Push(s.queues, q, t)
  {
    hide WithThread, Push, Find, FindProcess;
    q, t := 0, s.nextThread;
    match op
    case Add(priority) => q := priority.Queue();
    case Create(priority) => q := priority.Queue();
    case Unblock(id) =>
      if UnblockSpec(s, id).queues != s.queues {
        q, t := ThreadAt(s.processes, Find(s.processes, id, 0).value).priority.Queue(), id;
      }
    case Terminate(_) =>
    case Block(_) =>
    case SetPriority(_, _) =>
  }

  lemma {:induction false} GoneDispatch(s: Sched, id: nat)
    requires Inv(s) && NoneRunning(s) && StateOf(s.processes, id) == Some(Terminated) && id !in Pending(s.queues)
    ensures StateOf(DispatchSpec(s).processes, id) == Some(Terminated) && id !in Pending(DispatchSpec(s).queues)
  {
    hide DispatchSpec, Pending, StateOf, IdsOk, CurrentOk;
    DispatchKeeps(s);
    var first := FirstFilled(s.queues, 0);
    if first.Some? {
      PopPending(s.queues, first.value);
      assert Last(s.queues, first.value) in Pending(s.queues);
    }
  }

  lemma {:induction false} GoneTick(s: Sched, id: nat)
    requires Gone(s, id)
    ensures StateOf(TickSpec(s).processes, id) == Some(Terminated) && id !in Pending(TickSpec(s).queues)
  {
    hide PreemptSpec, DispatchSpec, ChargeSpec, IdsOk, CurrentOk, Pending, StateOf;
    ClockKeeps(s, s.ticks + 1, s.quantum + 1);
    ClockKeeps(s, s.ticks + 1, 0);
    var t := s.(ticks := s.ticks + 1, quantum := s.quantum + 1);
    if t.quantum < MAX_QUANTUM {
      ChargeKeeps(t);
    } else if t.currentThread.None? {
      ChargeKeeps(t.(quantum := 0));
    } else {
      var a := PreemptSpec(t.(quantum := 0));
      PreemptKeeps(t.(quantum := 0));
      PreemptQueues(t.(quantum := 0), id);
      GoneDispatch(a, id);
      DispatchKeeps(a);
      ChargeKeeps(DispatchSpec(a));
    }
  }

  /** Only the running thread joins the queues when a quantum runs out. */
  lemma {:induction false} PreemptQueues(s: Sched, id: nat)
    requires Inv(s) && StateOf(s.processes, id) == Some(Terminated)
    ensures id in Pending(PreemptSpec(s).queues) <==> id in Pending(s.queues)
  {
    hide IdsOk, CurrentOk, QueuesOk, Pending;
    assert |s.queues| == 5 by {
      PreemptKeeps(s);
    }
    if s.currentThread.Some? && StateOf(s.processes, s.currentThread.value) == Some(Running) {
      PushPending(s.queues, ClassOf(s), s.currentThread.value);
    }
  }

  lemma {:induction false} GoneForGood(s: Sched, ops: seq<Op>, id: nat)
    requires Gone(s, id)
    ensures Gone(Run(s, ops), id)
  {
    assert |s.queues| == 5;
    hide Gone;
    if ops == [] {
    } else {
      GoneForGood(s, ops[..|ops| - 1], id);
      GoneStays(Run(s, ops[..|ops| - 1]), ops[|ops| - 1], id);
    }
  }

  // ---------------------------------------------------------------------------------------------
  // A thread that waits
  // ---------------------------------------------------------------------------------------------

  /** The thread waits in a queue, whatever its state. */
  ghost predicate Waits(s: Sched, id: nat) {
    Inv(s) && id in Pending(s.queues)
  }

  /** With nothing running, a dispatch runs the thread or takes another one out of its way. */
  lemma {:induction false} DispatchComesNearer(s: Sched, id: nat)
    requires Waits(s, id) && NoneRunning(s)
    ensures var s' := DispatchSpec(s);
      StateOf(s'.processes, id) == Some(Running) || (Waits(s', id) && |Pending(s'.queues)| < |Pending(s.queues)|)
  {
    hide DispatchSpec, Pending, StateOf, IdsOk, CurrentOk;
    assert |s.queues| == 5;
    DispatchKeeps(s);
    NothingPending(s.queues);
    PopPending(s.queues, FirstFilled(s.queues, 0).value);
  }

  lemma {:induction false} ExpiryComesNearer(s: Sched, id: nat)
    requires Waits(s, id) && NoneRunning(s) && Expires(s) && s.currentThread.Some?
    ensures var s' := TickSpec(s);
      StateOf(s'.processes, id) == Some(Running) || (Waits(s', id) && |Pending(s'.queues)| < |Pending(s.queues)|)
  {
    assert |s.queues| == 5;
    ExpiryIs(s);
    hide TickSpec, PreemptSpec, DispatchSpec, ChargeSpec, Pending, StateOf, IdsOk, QueuesOk, CurrentOk;
    var b := s.(ticks := s.ticks + 1, quantum := 0);
    ClockKeeps(s, s.ticks + 1, 0);
    PreemptIdle(b);
    DispatchComesNearer(b, id);
    DispatchKeeps(b);
    ChargeKeeps(DispatchSpec(b));
  }

  lemma PreemptIdle(s: Sched)
    requires |s.queues| == 5 && NoneRunning(s)
    ensures PreemptSpec(s) == s
  {
    assert s.currentThread.Some? ==> StateOf(s.processes, s.currentThread.value) != Some(Running);
  }

  lemma {:induction false} BlockStops(s: Sched)
    requires Inv(s) && s.currentThread.Some?
    ensures var s' := BlockSpec(s, s.currentThread.value);
      Inv(s') && s'.queues == s.queues && s'.currentThread == s.currentThread && NoneRunning(s')
      && (StateOf(s.processes, s.currentThread.value) == Some(Running) ==> s'.quantum == MAX_QUANTUM)
  {
    var c := s.currentThread.value;
    BlockKeeps(s, c);
    BlockQuantum(s, c);
    hide BlockSpec, StateOf, IdsOk, QueuesOk;
    assert forall t: nat :: StateOf(s.processes, t) == Some(Running) ==> t == c;
  }

  lemma BlockQuantum(s: Sched, c: nat)
    ensures BlockSpec(s, c).queues == s.queues && BlockSpec(s, c).currentThread == s.currentThread
    ensures BlockSpec(s, c).quantum == if StateOf(s.processes, c) == Some(Running) then 10 else s.quantum
  {}

  lemma RunShort(s: Sched, a: Op, b: Op)
    requires |s.queues| == 5
    ensures Run(s, [a]) == Apply(s, a) && Run(s, [a, b]) == Apply(Apply(s, a), b)
  {
    assert [a][..0] == [] && [a, b][..1] == [a];
    assert Run(s, []) == s;
  }

  /** The calls that come one step nearer to running a thread that waits. */
  ghost function Nearer(s: Sched): seq<Op> {
    if s.currentThread.None? then [Dispatch]
    else if StateOf(s.processes, s.currentThread.value) == Some(Running) then [Block(s.currentThread.value), Tick]
    else [Tick]
  }

  /** How far away: first the threads in the queues, then the ticks left of the quantum. */
  ghost function Left(s: Sched): nat {
    if s.quantum < MAX_QUANTUM then MAX_QUANTUM - s.quantum else 0
  }

  lemma {:induction false} NearerComesNearer(s: Sched, id: nat)
    requires Waits(s, id)
    ensures var s' := Run(s, Nearer(s));
      || StateOf(s'.processes, id) == Some(Running)
      || (Waits(s', id) && |Pending(s'.queues)| < |Pending(s.queues)|)
      || (Waits(s', id) && s'.queues == s.queues && Left(s') < Left(s))
  {
    hide TickSpec, DispatchSpec, BlockSpec, Pending, StateOf, IdsOk;
    assert |s.queues| == 5;
    if s.currentThread.None? {
      RunShort(s, Dispatch, Tick);
      DispatchComesNearer(s, id);
    } else {
      var c := s.currentThread.value;
      RunShort(s, Block(c), Tick);
      RunShort(s, Tick, Tick);
      BlockStops(s);
      if StateOf(s.processes, c) == Some(Running) {
        ExpiryComesNearer(BlockSpec(s, c), id);
      } else if Expires(s) {
        ExpiryComesNearer(s, id);
      } else {
        QuietTick(s);
        TickKeeps(s);
      }
    }
  }

  /** Every thread that waits can be brought to run. */
  lemma {:induction false} BringToRun(s: Sched, id: nat) returns (ops: seq<Op>)
    requires Waits(s, id)
    ensures StateOf(Run(s, ops).processes, id) == Some(Running)
    decreases |Pending(s.queues)|, Left(s)
  {
    assert |s.queues| == 5;
    hide Pending, StateOf, Waits, Left, Nearer, Run;
    NearerComesNearer(s, id);
    ops := Nearer(s);
    if StateOf(Run(s, ops).processes, id) != Some(Running) {
      var rest := BringToRun(Run(s, ops), id);
      RunConcat(s, ops, rest);
      ops := ops + rest;
    }
  }

  // ---------------------------------------------------------------------------------------------
  // The result
  // ---------------------------------------------------------------------------------------------

  /** A terminated thread stays terminated whatever is called, exactly if it waits in no queue. */
  lemma {:induction false} TerminatedIsFinalExactly(s: Sched, id: nat)
    requires Inv(s) && StateOf(s.processes, id) == Some(Terminated)
    ensures (forall ops :: StateOf(Run(s, ops).processes, id) == Some(Terminated)) <==> id !in Pending(s.queues)
  {
    if id in Pending(s.queues) {
      var ops := BringToRun(s, id);
      assert StateOf(Run(s, ops).processes, id) != Some(Terminated);
    } else {
      forall ops: seq<Op>
        ensures StateOf(Run(s, ops).processes, id) == Some(Terminated)
      {
        GoneForGood(s, ops, id);
      }
    }
  }

  /** So ending a thread that is running or blocked is final, and ending one that is ready never is. */
  lemma {:induction false} EndingIsFinalExactly(before: seq<Op>, id: nat)
    requires StateOf(Run(BOOT, before).processes, id).Some?
    requires StateOf(Run(BOOT, before).processes, id) != Some(Terminated)
    ensures var s := Run(BOOT, before);
      (forall ops :: StateOf(Run(Apply(s, Terminate(id)), ops).processes, id) == Some(Terminated))
        <==> StateOf(s.processes, id) != Some(Ready)
  {
    hide Pending, StateOf, Find, IdsOk, CurrentOk, TerminateSpec, Run;
    BootOk();
    RunKeepsInv(BOOT, before);
    var s := Run(BOOT, before);
    TerminateQueues(s, id);
    TerminateKeeps(s, id);
    TerminatedIsFinalExactly(Apply(s, Terminate(id)), id);
  }

  lemma TerminateQueues(s: Sched, id: nat)
    ensures TerminateSpec(s, id).queues == s.queues
  {}

  /** It happens: a thread is ended while it waits for its first turn, and then gets it. */
  lemma {:induction false} EndedRunsAgain(priority: Priority)
    ensures var s := Run(BOOT, [Add(priority), Terminate(1)]);
      StateOf(s.processes, 1) == Some(Terminated) && StateOf(Run(s, [Dispatch]).processes, 1) == Some(Running)
  {
    hide AddSpec, TerminateSpec, DispatchSpec, StateOf, Only, Kernel;
    RunShort(BOOT, Add(priority), Terminate(1));
    OneAdd(priority);
    EndWaiting(priority);
    var s := Run(BOOT, [Add(priority), Terminate(1)]);
    RunShort(s, Dispatch, Dispatch);
    RunWaiting(priority, Terminated);
    StateOfKernel(Terminated, priority);
    StateOfKernel(Running, priority);
  }

  lemma StateOfKernel(state: ThreadState, priority: Priority)
    ensures StateOf([Kernel(1, state, priority)], 1) == Some(state)
  {
    assert Find([Kernel(1, state, priority)], 1, 0) == Some((0, 0));
  }

  /** The only thread there is takes another state. */
  lemma {:induction false} OnlyThread(was: ThreadState, now: ThreadState, priority: Priority)
    ensures Find([Kernel(1, was, priority)], 1, 0) == Some((0, 0))
    ensures WithThread([Kernel(1, was, priority)], (0, 0), Thread(1, now, priority, 0)) == [Kernel(1, now, priority)]
  {
    assert Kernel(1, was, priority).threads[0 := Thread(1, now, priority, 0)] == [Thread(1, now, priority, 0)];
  }

  lemma {:induction false} EndWaiting(priority: Priority)
    ensures var queues := Only(priority.Queue(), [1]);
      TerminateSpec(Sched(queues, [Kernel(1, Ready, priority)], None, None, 0, 0, 2, 2), 1) ==
      Sched(queues, [Kernel(1, Terminated, priority)], None, None, 0, 0, 2, 2)
  {
    OnlyThread(Ready, Terminated, priority);
    hide WithThread, Only;
  }

  /** The first dispatch runs the only thread, whatever its state. */
  lemma {:induction false} RunWaiting(priority: Priority, state: ThreadState)
    ensures DispatchSpec(Sched(Only(priority.Queue(), [1]), [Kernel(1, state, priority)], None, None, 0, 0, 2, 2))
              .processes == [Kernel(1, Running, priority)]
  {
    var queues := Only(priority.Queue(), [1]);
    OnlyThread(state, Running, priority);
    hide WithThread, Only, Popped;
    assert queues[priority.Queue()] == [1] && FirstFilled(queues, 0).Some?;
    assert Last(queues, FirstFilled(queues, 0).value) == 1;
  }
}

/** Which ready queue a thread waits in: the one of its priority, unless the priority changes while it waits. */
module QueueLaws {
  import opened Common
  import opened Scheduling
  import opened SchedulerLaws

  /** The ready queue of a thread's present priority. */
  ghost function ClassIn(ps: seq<Process>, id: nat): Option<nat> {
    match Find(ps, id, 0) case None => None case Some(p) => Some(ThreadAt(ps, p).priority.Queue())
  }

  /** Every waiting thread waits in the queue of its priority. */
  ghost predicate Sorted(s: Sched) {
    forall q, id :: 0 <= q < |s.queues| && id in s.queues[q] ==> ClassIn(s.processes, id) == Some(q)
  }

  /** The threads of the one table stand in the same places of the other, with the same priorities. */
  ghost predicate KeepsThreads(ps: seq<Process>, ps': seq<Process>) {
    forall p: (nat, nat) :: At(ps, p) ==>
        At(ps', p) && ThreadAt(ps', p).id == ThreadAt(ps, p).id && ThreadAt(ps', p).priority == ThreadAt(ps, p).priority
  }

  lemma {:induction false} KeepsClass(ps: seq<Process>, ps': seq<Process>, id: nat)
    requires Unique(ps') && KeepsThreads(ps, ps') && ClassIn(ps, id).Some?
    ensures ClassIn(ps', id) == ClassIn(ps, id)
  {
    Found(ps', Find(ps, id, 0).value);
  }

  lemma InQueue(queues: seq<seq<nat>>, q: nat, id: nat)
    requires |queues| == 5 && q < 5 && id in queues[q]
    ensures id in Pending(queues)
  {}

  /** Threads may leave the queues, and join the one of their priority. */
  lemma {:induction false} SortedStep(s: Sched, s': Sched)
    requires Sorted(s) && Inv(s) && Inv(s') && KeepsThreads(s.processes, s'.processes)
    requires forall q, id | 0 <= q < 5 && id in s'.queues[q] ::
               id in s.queues[q] || ClassIn(s'.processes, id) == Some(q)
    ensures Sorted(s')
  {
    UniqueOf(s');
    assert |s.queues| == 5 && |s'.queues| == 5;
    hide Inv, ClassIn, KeepsThreads, Unique;
    forall q, id | 0 <= q < 5 && id in s'.queues[q] && id in s.queues[q]
      ensures ClassIn(s'.processes, id) == Some(q)
    {
      assert ClassIn(s.processes, id) == Some(q);
      KeepsClass(s.processes, s'.processes, id);
    }
  }

  /** A call that puts one thread into the queue of its priority, or none. */
  lemma {:induction false} PushStep(s: Sched, s': Sched, q: nat, id: nat)
    requires Sorted(s) && Inv(s) && Inv(s') && KeepsThreads(s.processes, s'.processes) && q < 5
    requires s'.queues == s.queues || (s'.queues == Push(s.queues, q, id) && ClassIn(s'.processes, id) == Some(q))
    ensures Sorted(s')
  {
    assert |s.queues| == 5 && |s'.queues| == 5;
    hide Inv, ClassIn, KeepsThreads, Sorted;
    forall k, t | 0 <= k < 5 && t in s'.queues[k]
      ensures t in s.queues[k] || (k == q && t == id && s'.queues != s.queues)
    {}
    SortedStep(s, s');
  }

  lemma SameKeeps(ps: seq<Process>, ps': seq<Process>)
    requires SameThreads(ps, ps')
    ensures KeepsThreads(ps, ps')
  {}

  lemma {:induction false} PreemptSorted(s: Sched)
    requires Sorted(s) && Inv(s)
    ensures Sorted(PreemptSpec(s))
  {
    PreemptKeeps(s);
    PreemptSame(s);
    SameKeeps(s.processes, PreemptSpec(s).processes);
    hide Inv, Sorted, SameThreads, KeepsThreads;
    PreemptQueue(s);
    if PreemptSpec(s).queues == s.queues {
      PushStep(s, PreemptSpec(s), 0, 0);
    } else {
      PushStep(s, PreemptSpec(s), ClassOf(s), s.currentThread.value);
    }
  }

  /** The thread that is preempted joins the queue of its priority. */
  lemma {:induction false} PreemptQueue(s: Sched)
    requires Inv(s)
    ensures var s' := PreemptSpec(s);
      || s'.queues == s.queues
      || (s.currentThread.Some? && Find(s.processes, s.currentThread.value, 0).Some?
          && s'.queues == Push(s.queues, ClassOf(s), s.currentThread.value)
          && ClassIn(s'.processes, s.currentThread.value) == Some(ClassOf(s)))
  {
    if PreemptSpec(s).queues != s.queues {
      var p := Find(s.processes, s.currentThread.value, 0).value;
      UniqueOf(s);
      EditView(s.processes, p, ThreadAt(s.processes, p).(state := Ready), s.currentThread.value);
    }
  }

  lemma {:induction false} DispatchSorted(s: Sched)
    requires Sorted(s) && Inv(s) && NoneRunning(s)
    ensures Sorted(DispatchSpec(s))
  {
    assert |s.queues| == 5;
    DispatchKeeps(s);
    DispatchSame(s);
    SameKeeps(s.processes, DispatchSpec(s).processes);
    hide Inv, Sorted, SameThreads, KeepsThreads, DispatchSpec, ClassIn;
    var first := FirstFilled(s.queues, 0);
    if first.Some? {
      PoppedWithin(s.queues, first.value);
      hide Popped, FirstFilled, StateOf;
      SortedStep(s, DispatchSpec(s));
    }
  }

  lemma PoppedWithin(queues: seq<seq<nat>>, q: nat)
    requires q < |queues| && queues[q] != []
    ensures forall k, id :: 0 <= k < |queues| && id in Popped(queues, q)[k] ==> id in queues[k]
  {}

  lemma {:induction false} ChargeSorted(s: Sched)
    requires Sorted(s) && Inv(s)
    ensures Sorted(ChargeSpec(s))
  {
    ChargeKeeps(s);
    ChargeSame(s);
    SameKeeps(s.processes, ChargeSpec(s).processes);
    hide Inv, Sorted, SameThreads, KeepsThreads, ChargeSpec;
    PushStep(s, ChargeSpec(s), 0, 0);
  }

  lemma ClockSorted(s: Sched, ticks: nat, quantum: nat)
    requires Sorted(s)
    ensures Sorted(s.(ticks := ticks, quantum := quantum))
  {}

  lemma {:induction false} SwitchSorted(s: Sched)
    requires Sorted(s) && Inv(s)
    ensures Sorted(ChargeSpec(DispatchSpec(PreemptSpec(s))))
  {
    assert |s.queues| == 5;
    hide PreemptSpec, DispatchSpec, ChargeSpec, Inv, Sorted, NoneRunning, StateOf, FirstFilled;
    PreemptKeeps(s);
    PreemptSorted(s);
    DispatchKeeps(PreemptSpec(s));
    DispatchSorted(PreemptSpec(s));
    ChargeSorted(DispatchSpec(PreemptSpec(s)));
  }

  lemma {:induction false} TickSorted(s: Sched)
    requires Sorted(s) && Inv(s)
    ensures Sorted(TickSpec(s))
  {
    assert |s.queues| == 5;
    hide TickSpec, PreemptSpec, DispatchSpec, ChargeSpec, Inv, Sorted;
    var b := s.(ticks := s.ticks + 1, quantum := if Expires(s) then 0 else s.quantum + 1);
    ClockKeeps(s, b.ticks, b.quantum);
    ClockSorted(s, b.ticks, b.quantum);
    if Expires(s) && s.currentThread.Some? {
      ExpiryIs(s);
      SwitchSorted(b);
    } else {
      NoExpiryIs(s);
      ChargeSorted(b);
    }
  }

  lemma {:induction false} AddSorted(s: Sched, priority: Priority)
    requires Sorted(s) && Inv(s)
    ensures Sorted(AddSpec(s, priority))
  {
    var s' := AddSpec(s, priority);
    assert |s.queues| == 5;
    AddKeeps(s, priority);
    UniqueOf(s');
    hide Inv, Sorted, KeepsThreads, AddSpec, StateOf, Unique;
    AddThreads(s, priority);
    Found(s'.processes, (|s.processes|, 0));
    PushStep(s, s', priority.Queue(), s.nextThread);
  }

  lemma AddThreads(s: Sched, priority: Priority)
    requires |s.queues| == 5
    ensures var s', p := AddSpec(s, priority), (|s.processes|, 0);
      && KeepsThreads(s.processes, s'.processes) && s'.queues == Push(s.queues, priority.Queue(), s.nextThread)
      && At(s'.processes, p)
      && ThreadAt(s'.processes, p).id == s.nextThread && ThreadAt(s'.processes, p).priority == priority
  {
    hide Push;
  }

  lemma {:induction false} CreateSorted(s: Sched, priority: Priority)
    requires Sorted(s) && Inv(s)
    ensures Sorted(CreateSpec(s, priority))
  {
    var s' := CreateSpec(s, priority);
    if s' != s {
      CreateKeeps(s, priority);
      UniqueOf(s');
      hide Inv, Sorted, KeepsThreads, Push;
      var i := FindProcess(s.processes, s.currentProcess.value, 0).value;
      CreateThreads(s, priority, i);
      Found(s'.processes, (i, |s.processes[i].threads|));
      PushStep(s, s', priority.Queue(), s.nextThread);
    }
  }

  lemma CreateThreads(s: Sched, priority: Priority, i: nat)
    requires |s.queues| == 5 && s.currentProcess.Some? && FindProcess(s.processes, s.currentProcess.value, 0) == Some(i)
    ensures var ps := CreateSpec(s, priority).processes; var p := (i, |s.processes[i].threads|);
      && KeepsThreads(s.processes, ps) && At(ps, p)
      && ThreadAt(ps, p).id == s.nextThread && ThreadAt(ps, p).priority == priority
  {}

  lemma {:induction false} TerminateSorted(s: Sched, id: nat)
    requires Sorted(s) && Inv(s)
    ensures Sorted(TerminateSpec(s, id))
  {
    TerminateKeeps(s, id);
    TerminateThreads(s, id);
    hide Inv, Sorted, KeepsThreads, TerminateSpec, StateOf;
    PushStep(s, TerminateSpec(s, id), 0, 0);
  }

  lemma TerminateThreads(s: Sched, id: nat)
    ensures KeepsThreads(s.processes, TerminateSpec(s, id).processes) && TerminateSpec(s, id).queues == s.queues
  {
    hide WithThread;
    var found := Find(s.processes, id, 0);
    if found.Some? {
      EditSame(s.processes, found.value, ThreadAt(s.processes, found.value).(state := Terminated));
    }
  }

  lemma {:induction false} BlockSorted(s: Sched, id: nat)
    requires Sorted(s) && Inv(s)
    ensures Sorted(BlockSpec(s, id))
  {
    BlockKeeps(s, id);
    BlockThreads(s, id);
    hide Inv, Sorted, KeepsThreads, BlockSpec, StateOf;
    PushStep(s, BlockSpec(s, id), 0, 0);
  }

  lemma BlockThreads(s: Sched, id: nat)
    ensures KeepsThreads(s.processes, BlockSpec(s, id).processes) && BlockSpec(s, id).queues == s.queues
  {
    hide WithThread;
    var found := Find(s.processes, id, 0);
    if found.Some? {
      EditSame(s.processes, found.value, ThreadAt(s.processes, found.value).(state := Blocked));
    }
  }

  lemma {:induction false} UnblockSorted(s: Sched, id: nat)
    requires Sorted(s) && Inv(s)
    ensures Sorted(UnblockSpec(s, id))
  {
    assert |s.queues| == 5;
    UnblockKeeps(s, id);
    UnblockThreads(s, id);
    hide Inv, Sorted, KeepsThreads, UnblockSpec, StateOf;
    if UnblockSpec(s, id).queues == s.queues {
      PushStep(s, UnblockSpec(s, id), 0, 0);
    } else {
      UnblockQueue(s, id);
      PushStep(s, UnblockSpec(s, id), ThreadAt(s.processes, Find(s.processes, id, 0).value).priority.Queue(), id);
    }
  }

  lemma UnblockThreads(s: Sched, id: nat)
    requires |s.queues| == 5
    ensures KeepsThreads(s.processes, UnblockSpec(s, id).processes)
  {
    hide WithThread, Push;
    var found := Find(s.processes, id, 0);
    if found.Some? {
      EditSame(s.processes, found.value, ThreadAt(s.processes, found.value).(state := Ready));
    }
  }

  lemma {:induction false} UnblockQueue(s: Sched, id: nat)
    requires Inv(s) && UnblockSpec(s, id).queues != s.queues
    ensures Find(s.processes, id, 0).Some?
    ensures var s', c := UnblockSpec(s, id), ThreadAt(s.processes, Find(s.processes, id, 0).value).priority.Queue();
      s'.queues == Push(s.queues, c, id) && ClassIn(s'.processes, id) == Some(c)
  {
    var p := Find(s.processes, id, 0).value;
    UniqueOf(s);
    EditView(s.processes, p, ThreadAt(s.processes, p).(state := Ready), id);
  }

  lemma {:induction false} ApplySorted(s: Sched, op: Op)
    requires Sorted(s) && Inv(s) && !op.SetPriority?
    ensures Sorted(Apply(s, op))
  {
    assert |s.queues| == 5;
    assert s.currentThread.None? ==> NoneRunning(s);
    hide TickSpec, DispatchSpec, AddSpec, CreateSpec, TerminateSpec, BlockSpec, UnblockSpec, Inv, Sorted, NoneRunning;
    match op
    case Tick => TickSorted(s);
    case Dispatch =>
      if s.currentThread.None? {
        DispatchSorted(s);
      }
    case Add(priority) => AddSorted(s, priority);
    case Create(priority) => CreateSorted(s, priority);
    case Terminate(id) => TerminateSorted(s, id);
    case Block(id) => BlockSorted(s, id);
    case Unblock(id) => UnblockSorted(s, id);
  }

  /** A change of priority keeps the order exactly if the thread does not wait or its queue stays the same. */
  lemma {:induction false} SetPriorityKeepsExactly(s: Sched, id: nat, priority: Priority)
    requires Sorted(s) && Inv(s)
    ensures Sorted(SetPrioritySpec(s, id, priority))
       <==> id !in Pending(s.queues) || ClassIn(s.processes, id) == Some(priority.Queue())
  {
    var s' := SetPrioritySpec(s, id, priority);
    assert |s.queues| == 5 && (id in Pending(s.queues) ==> StateOf(s.processes, id).Some?);
    if Find(s.processes, id, 0).Some? {
      OthersKeepClass(s, id, priority);
      hide SetPrioritySpec, ClassIn, Inv, Find, Pending;
      if id in Pending(s.queues) {
        var q := QueueOf(s.queues, id);
        assert ClassIn(s.processes, id) == Some(q);
        assert Sorted(s') ==> ClassIn(s'.processes, id) == Some(q);
      } else {
        forall q | 0 <= q < 5 && id in s.queues[q]
          ensures false
        {
          InQueue(s.queues, q, id);
        }
      }
    }
  }

  lemma QueueOf(queues: seq<seq<nat>>, id: nat) returns (q: nat)
    requires |queues| == 5 && id in Pending(queues)
    ensures q < 5 && id in queues[q]
  {
    q := if id in queues[0] then 0 else if id in queues[1] then 1 else if id in queues[2] then 2
         else if id in queues[3] then 3 else 4;
  }

  lemma {:induction false} OthersKeepClass(s: Sched, id: nat, priority: Priority)
    requires Inv(s) && Find(s.processes, id, 0).Some?
    ensures var s' := SetPrioritySpec(s, id, priority);
      && s'.queues == s.queues && ClassIn(s'.processes, id) == Some(priority.Queue())
      && forall t: nat :: t != id ==> ClassIn(s'.processes, t) == ClassIn(s.processes, t)
  {
    var p := Find(s.processes, id, 0).value;
    var th := ThreadAt(s.processes, p).(priority := priority);
    UniqueOf(s);
    assert SetPrioritySpec(s, id, priority) == s.(processes := WithThread(s.processes, p, th));
    hide Inv, Unique, WithThread, SetPrioritySpec;
    forall t: nat
      ensures ClassIn(SetPrioritySpec(s, id, priority).processes, t) ==
              if t == id then Some(priority.Queue()) else ClassIn(s.processes, t)
    {
      EditView(s.processes, p, th, t);
    }
  }

  /** The call changes no priority, or that of a thread that does not wait, or within its class. */
  ghost predicate Considers(s: Sched, op: Op)
    requires |s.queues| == 5
  {
    op.SetPriority? ==> op.id !in Pending(s.queues) || ClassIn(s.processes, op.id) == Some(op.priority.Queue())
  }

  ghost predicate Considerate(s: Sched, ops: seq<Op>)
    requires |s.queues| == 5
  {
    ops == [] || (Considerate(s, ops[..|ops| - 1]) && Considers(Run(s, ops[..|ops| - 1]), ops[|ops| - 1]))
  }

  lemma {:induction false} ConsiderateStep(s: Sched, op: Op)
    requires Sorted(s) && Inv(s) && Considers(s, op)
    ensures Sorted(Apply(s, op))
  {
    assert |s.queues| == 5;
    hide Inv, Sorted, Pending, ClassIn, SetPrioritySpec;
    if op.SetPriority? {
      SetPriorityKeepsExactly(s, op.id, op.priority);
    } else {
      ApplySorted(s, op);
    }
  }

  /** In every run of such calls each waiting thread stands in the queue of its priority. */
  lemma {:induction false} QueuedByPriority(ops: seq<Op>)
    requires Considerate(BOOT, ops)
    ensures Sorted(Run(BOOT, ops))
  {
    if ops == [] {
    } else {
      var before, op := ops[..|ops| - 1], ops[|ops| - 1];
      QueuedByPriority(before);
      BootOk();
      RunKeepsInv(BOOT, before);
      hide Inv, Sorted, Considers, Apply;
      ConsiderateStep(Run(BOOT, before), op);
    }
  }

  /** It happens: any change of class of a waiting thread leaves it in a queue of its old one. */
  lemma {:induction false} ClassChangeMisplaces(was: Priority, now: Priority)
    ensures var s := TwoAdded(was);
      Sorted(s) && 1 in Pending(s.queues) && (Sorted(SetPrioritySpec(s, 1, now)) <==> now == was)
  {
    var s, ops := TwoAdded(was), [Add(was), Add(was), Dispatch];
    hide Sorted, Inv, Pending, Run, ClassIn, Only, SetPrioritySpec;
    TwoAddedInv(was);
    assert Considerate(BOOT, ops) by {
      NothingChanged(BOOT, ops);
    }
    QueuedByPriority(ops);
    assert 1 in s.queues[was.Queue()] by {
      TwoAddedIs(was);
    }
    InQueue(s.queues, was.Queue(), 1);
    SetPriorityKeepsExactly(s, 1, now);
    assert ClassIn(s.processes, 1) == Some(was.Queue()) by {
      ClassOfWaiting(s, was.Queue(), 1);
    }
  }

  lemma ClassOfWaiting(s: Sched, q: nat, id: nat)
    requires Sorted(s) && q < |s.queues| && id in s.queues[q]
    ensures ClassIn(s.processes, id) == Some(q)
  {}

  /** A run in which no priority is changed is considerate. */
  lemma {:induction false} NothingChanged(s: Sched, ops: seq<Op>)
    requires |s.queues| == 5 && forall op :: op in ops ==> !op.SetPriority?
    ensures Considerate(s, ops)
  {
    if ops == [] {
    } else {
      NothingChanged(s, ops[..|ops| - 1]);
      assert ops[|ops| - 1] in ops;
    }
  }

  /** Of a process that is added the first thread joins the queues, at the end of its own, if it is ready; no other. */
  lemma {:induction false} AddQueuesMainThread(s: Sched, process: Process)
    requires |s.queues| == 5
    ensures var s', main := AddProcessSpec(s, process), process.threads;
      && s'.processes == s.processes + [process]
      && (if main != [] && main[0].state.Ready? then
            && Pending(s'.queues) == Pending(s.queues) + multiset{main[0].id}
            && exists q :: 0 <= q < 5 && s'.queues[q] == s.queues[q] + [main[0].id]
          else s'.queues == s.queues)
  {
    var main := process.threads;
    if main != [] && main[0].state.Ready? {
      var q := main[0].priority.Queue();
      PushPending(s.queues, q, main[0].id);
      assert AddProcessSpec(s, process).queues[q] == s.queues[q] + [main[0].id];
    }
  }
}

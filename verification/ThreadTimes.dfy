/** The run time of each single thread and of each single process, over every run. */
module ThreadTimes {
  import opened Common
  import opened Scheduling
  import opened SchedulerLaws
  import opened TimeLaws

  ghost function RunTimeOf(ps: seq<Process>, id: nat): nat {
    match Find(ps, id, 0) case None => 0 case Some(p) => ThreadAt(ps, p).runTime
  }

  ghost function TotalOf(ps: seq<Process>, pid: nat): nat {
    match FindProcess(ps, pid, 0) case None => 0 case Some(i) => ps[i].totalRunTime
  }

  /** What is in the one table stands in the other, in its place and with its times; what is new has no times yet. */
  ghost predicate KeepsTimes(ps: seq<Process>, ps': seq<Process>) {
    && |ps| <= |ps'|
    && (forall i :: 0 <= i < |ps| ==> ps'[i].id == ps[i].id && ps'[i].totalRunTime == ps[i].totalRunTime)
    && (forall i :: |ps| <= i < |ps'| ==> ps'[i].totalRunTime == 0)
    && (forall p: (nat, nat) :: At(ps, p) ==>
          && At(ps', p) && ThreadAt(ps', p).id == ThreadAt(ps, p).id
          && ThreadAt(ps', p).runTime == ThreadAt(ps, p).runTime)
    && (forall p: (nat, nat) :: At(ps', p) && !At(ps, p) ==> ThreadAt(ps', p).runTime == 0)
  }

  lemma {:induction false} KeptTimes(ps: seq<Process>, ps': seq<Process>, id: nat)
    requires Unique(ps') && KeepsTimes(ps, ps')
    ensures RunTimeOf(ps', id) == RunTimeOf(ps, id) && TotalOf(ps', id) == TotalOf(ps, id)
  {
    if Find(ps, id, 0).Some? {
      Found(ps', Find(ps, id, 0).value);
    }
    var i, j := FindProcess(ps, id, 0), FindProcess(ps', id, 0);
    if i.Some? {
      assert ps'[i.value].id == id && j.Some?;
    }
  }

  lemma EditKeepsTimes(ps: seq<Process>, p: (nat, nat), th: Thread)
    requires At(ps, p) && ThreadAt(ps, p).id == th.id && ThreadAt(ps, p).runTime == th.runTime
    ensures KeepsTimes(ps, WithThread(ps, p, th))
  {}

  lemma NothingKeepsTimes(ps: seq<Process>)
    ensures KeepsTimes(ps, ps)
  {}

  lemma {:induction false} PreemptKeepsTimes(s: Sched)
    requires |s.queues| == 5
    ensures KeepsTimes(s.processes, PreemptSpec(s).processes)
  {
    hide WithThread, KeepsTimes;
    NothingKeepsTimes(s.processes);
    if s.currentThread.Some? && Find(s.processes, s.currentThread.value, 0).Some? {
      var p := Find(s.processes, s.currentThread.value, 0).value;
      EditKeepsTimes(s.processes, p, ThreadAt(s.processes, p).(state := Ready));
    }
  }

  lemma {:induction false} DispatchKeepsTimes(s: Sched)
    requires Inv(s) && NoneRunning(s)
    ensures KeepsTimes(s.processes, DispatchSpec(s).processes)
  {
    hide WithThread, KeepsTimes, DispatchSpec;
    NothingKeepsTimes(s.processes);
    DispatchKeeps(s);
    var first := FirstFilled(s.queues, 0);
    if first.Some? {
      var id := Last(s.queues, first.value);
      PopPending(s.queues, first.value);
      assert id in Pending(s.queues) && StateOf(s.processes, id).Some?;
      var p := DispatchIs(s, first.value);
      EditKeepsTimes(s.processes, p, ThreadAt(s.processes, p).(state := Running));
    }
  }

  lemma {:induction false} CallKeepsTimes(s: Sched, op: Op)
    requires |s.queues| == 5 && (op.Terminate? || op.Block? || op.Unblock? || op.SetPriority?)
    ensures KeepsTimes(s.processes, Apply(s, op).processes)
  {
    hide WithThread, KeepsTimes;
    NothingKeepsTimes(s.processes);
    if Find(s.processes, op.id, 0).Some? {
      var p := Find(s.processes, op.id, 0).value;
      var th := ThreadAt(s.processes, p);
      EditKeepsTimes(s.processes, p, th.(state := Terminated));
      EditKeepsTimes(s.processes, p, th.(state := Blocked));
      EditKeepsTimes(s.processes, p, th.(state := Ready));
      if op.SetPriority? {
        EditKeepsTimes(s.processes, p, th.(priority := op.priority));
      }
    }
  }

  lemma AddKeepsTimes(s: Sched, priority: Priority)
    requires |s.queues| == 5
    ensures KeepsTimes(s.processes, AddSpec(s, priority).processes)
  {
    hide Push;
  }

  lemma CreateKeepsTimes(s: Sched, priority: Priority)
    requires |s.queues| == 5
    ensures KeepsTimes(s.processes, CreateSpec(s, priority).processes)
  {
    hide Push;
  }

  /** The charge goes to the current process and to no other. */
  lemma {:induction false} ChargeTotal(s: Sched, pid: nat)
    requires Unique(s.processes)
    requires s.currentProcess.Some? ==> FindProcess(s.processes, s.currentProcess.value, 0).Some?
    ensures TotalOf(ChargeSpec(s).processes, pid) ==
            TotalOf(s.processes, pid) + (if s.currentProcess == Some(pid) then 1 else 0)
  {
    var ps, ps' := s.processes, ChargeSpec(s).processes;
    assert forall i :: 0 <= i < |ps| ==> ps'[i].id == ps[i].id;
    SameIdsFound(ps, ps', pid, 0);
  }

  lemma {:induction false} SameIdsFound(ps: seq<Process>, ps': seq<Process>, pid: nat, i: nat)
    requires |ps'| == |ps| && forall k :: 0 <= k < |ps| ==> ps'[k].id == ps[k].id
    ensures FindProcess(ps', pid, i) == FindProcess(ps, pid, i)
    decreases |ps| - i
  {
    if i >= |ps| || ps[i].id == pid {
    } else {
      SameIdsFound(ps, ps', pid, i + 1);
    }
  }

  /** The one running thread is the first running thread of the current process. */
  lemma {:induction false} RunningIsCharged(s: Sched, p: (nat, nat))
    requires Inv(s) && At(s.processes, p) && ThreadAt(s.processes, p).state.Running?
    ensures s.currentProcess.Some?
    ensures FindProcess(s.processes, s.currentProcess.value, 0) == Some(p.0)
    ensures RunningIn(s.processes[p.0].threads, 0) == Some(p.1)
  {
    hide Pending;
    var id := ThreadAt(s.processes, p).id;
    Found(s.processes, p);
    assert StateOf(s.processes, id) == Some(Running) && OwnerOf(s.processes, id) == Some(s.processes[p.0].id);
    var i := FindProcess(s.processes, s.currentProcess.value, 0);
    assert s.processes[p.0].id == s.currentProcess.value;
    var j := RunningIn(s.processes[p.0].threads, 0).value;
    Found(s.processes, (p.0, j));
    assert StateOf(s.processes, ThreadAt(s.processes, (p.0, j)).id) == Some(Running);
  }

  /** The charge goes to the running thread and to no other. */
  lemma {:induction false} ChargeRunTime(s: Sched, id: nat)
    requires Inv(s)
    ensures RunTimeOf(ChargeSpec(s).processes, id) ==
            RunTimeOf(s.processes, id) + (if StateOf(s.processes, id) == Some(Running) then 1 else 0)
  {
    ChargeTable(s);
    UniqueOf(s);
    ShapeView(s.processes, ChargeSpec(s).processes, None, id);
    var found := Find(s.processes, id, 0);
    if found.Some? {
      if ThreadAt(s.processes, found.value).state.Running? {
        RunningIsCharged(s, found.value);
      }
      hide Inv, Unique, Find;
    }
  }

  lemma {:induction false} ChargeGoesTo(s: Sched, id: nat)
    requires Inv(s)
    ensures var ps, ps' := s.processes, ChargeSpec(s).processes;
      && RunTimeOf(ps', id) == RunTimeOf(ps, id) + (if StateOf(ps, id) == Some(Running) then 1 else 0)
      && TotalOf(ps', id) == TotalOf(ps, id) + (if s.currentProcess == Some(id) then 1 else 0)
  {
    hide ChargeSpec, RunTimeOf, TotalOf, StateOf, Inv;
    UniqueOf(s);
    if s.currentProcess.Some? {
      CurrentThere(s);
    }
    ChargeRunTime(s, id);
    ChargeTotal(s, id);
  }

  // ---------------------------------------------------------------------------------------------
  // Runs
  // ---------------------------------------------------------------------------------------------

  /** One tick: who is charged is seen in the state it leaves. */
  lemma {:induction false} TickGoesTo(s: Sched, id: nat)
    requires Inv(s)
    ensures var ps, r := s.processes, TickSpec(s);
      && RunTimeOf(r.processes, id) == RunTimeOf(ps, id) + (if StateOf(r.processes, id) == Some(Running) then 1 else 0)
      && TotalOf(r.processes, id) == TotalOf(ps, id) + (if r.currentProcess == Some(id) then 1 else 0)
  {
    assert |s.queues| == 5;
    hide TickSpec, PreemptSpec, DispatchSpec, ChargeSpec, RunTimeOf, TotalOf, StateOf, Inv, KeepsTimes, Unique;
    var b := s.(ticks := s.ticks + 1, quantum := if Expires(s) then 0 else s.quantum + 1);
    ClockKeeps(s, b.ticks, b.quantum);
    if Expires(s) && s.currentThread.Some? {
      ExpiryIs(s);
      var a := PreemptSpec(b);
      PreemptKeeps(b);
      PreemptKeepsTimes(b);
      UniqueOf(a);
      KeptTimes(b.processes, a.processes, id);
      DispatchKeeps(a);
      DispatchKeepsTimes(a);
      UniqueOf(DispatchSpec(a));
      KeptTimes(a.processes, DispatchSpec(a).processes, id);
      b := DispatchSpec(a);
    } else {
      NoExpiryIs(s);
    }
    ChargeGoesTo(b, id);
    ChargeKeeps(b);
  }

  lemma {:induction false} OthersKeepTimes(s: Sched, op: Op)
    requires Inv(s) && !op.Tick?
    ensures KeepsTimes(s.processes, Apply(s, op).processes)
  {
    assert |s.queues| == 5;
    NothingKeepsTimes(s.processes);
    assert s.currentThread.None? ==> NoneRunning(s);
    hide KeepsTimes, Inv, DispatchSpec, AddSpec, CreateSpec, NoneRunning;
    match op
    case Dispatch =>
      if s.currentThread.None? {
        DispatchKeepsTimes(s);
      }
    case Add(priority) => AddKeepsTimes(s, priority);
    case Create(priority) => CreateKeepsTimes(s, priority);
    case _ => CallKeepsTimes(s, op);
  }

  /** The ticks of a run that ended with this thread running. */
  ghost function TicksOfThread(ops: seq<Op>, id: nat): nat {
    if ops == [] then 0
    else TicksOfThread(ops[..|ops| - 1], id)
         + if ops[|ops| - 1].Tick? && StateOf(Run(BOOT, ops).processes, id) == Some(Running) then 1 else 0
  }

  /** The ticks of a run that ended with this process current. */
  ghost function TicksOfProcess(ops: seq<Op>, pid: nat): nat {
    if ops == [] then 0
    else TicksOfProcess(ops[..|ops| - 1], pid)
         + if ops[|ops| - 1].Tick? && Run(BOOT, ops).currentProcess == Some(pid) then 1 else 0
  }

  /** A thread has run for exactly the ticks that ended with it running, a process for those that ended with it. */
  lemma {:induction false} EachTimeExactly(ops: seq<Op>, id: nat)
    ensures RunTimeOf(Run(BOOT, ops).processes, id) == TicksOfThread(ops, id)
    ensures TotalOf(Run(BOOT, ops).processes, id) == TicksOfProcess(ops, id)
  {
    if ops == [] {
    } else {
      hide Apply, RunTimeOf, TotalOf, StateOf, Inv;
      EachTimeExactly(ops[..|ops| - 1], id);
      BootOk();
      RunKeepsInv(BOOT, ops[..|ops| - 1]);
      StepTimesExactly(Run(BOOT, ops[..|ops| - 1]), ops[|ops| - 1], id);
    }
  }

  lemma {:induction false} StepTimesExactly(s: Sched, op: Op, id: nat)
    requires |s.queues| == 5 && Inv(s)
    ensures var ps, r := s.processes, Apply(s, op);
      && RunTimeOf(r.processes, id) ==
           RunTimeOf(ps, id) + (if op.Tick? && StateOf(r.processes, id) == Some(Running) then 1 else 0)
      && TotalOf(r.processes, id) == TotalOf(ps, id) + (if op.Tick? && r.currentProcess == Some(id) then 1 else 0)
  {
    hide TickSpec, RunTimeOf, TotalOf, StateOf, Inv, KeepsTimes, Unique;
    if op.Tick? {
      TickGoesTo(s, id);
    } else {
      OthersKeepTimes(s, op);
      ApplyKeeps(s, op);
      UniqueOf(Apply(s, op));
      KeptTimes(s.processes, Apply(s, op).processes, id);
    }
  }
}

/** Where the timer ticks go: the run times of processes and threads over every run. */
module TimeLaws {
  import opened Common
  import opened Scheduling
  import opened SchedulerLaws

  ghost function RunTime(threads: seq<Thread>): nat {
    Sum(seq(|threads|, j requires 0 <= j < |threads| => threads[j].runTime))
  }

  /** The run times of all threads together. */
  ghost function ThreadTime(ps: seq<Process>): nat {
    Sum(seq(|ps|, i requires 0 <= i < |ps| => RunTime(ps[i].threads)))
  }

  /** The run times of all processes together. */
  ghost function ProcessTime(ps: seq<Process>): nat {
    Sum(seq(|ps|, i requires 0 <= i < |ps| => ps[i].totalRunTime))
  }

  /** No process has run for less than its threads. */
  ghost predicate Covered(ps: seq<Process>) {
    forall i :: 0 <= i < |ps| ==> RunTime(ps[i].threads) <= ps[i].totalRunTime
  }

  lemma {:induction false} ThreadUpdate(threads: seq<Thread>, j: nat, th: Thread)
    requires j < |threads|
    ensures RunTime(threads[j := th]) == RunTime(threads) - threads[j].runTime + th.runTime
  {
    var times := seq(|threads|, k requires 0 <= k < |threads| => threads[k].runTime);
    var threads' := threads[j := th];
    assert seq(|threads'|, k requires 0 <= k < |threads'| => threads'[k].runTime) == times[j := th.runTime];
    SumUpdate(times, j, th.runTime);
  }

  lemma {:induction false} ThreadAppend(threads: seq<Thread>, th: Thread)
    ensures RunTime(threads + [th]) == RunTime(threads) + th.runTime
  {
    var times := seq(|threads|, k requires 0 <= k < |threads| => threads[k].runTime);
    var threads' := threads + [th];
    var times' := seq(|threads'|, k requires 0 <= k < |threads'| => threads'[k].runTime);
    assert times'[..|times|] == times;
  }

  lemma {:induction false} ProcessUpdate(ps: seq<Process>, i: nat, pr: Process)
    requires i < |ps|
    ensures ProcessTime(ps[i := pr]) == ProcessTime(ps) - ps[i].totalRunTime + pr.totalRunTime
    ensures ThreadTime(ps[i := pr]) == ThreadTime(ps) - RunTime(ps[i].threads) + RunTime(pr.threads)
  {
    var ps' := ps[i := pr];
    var totals := seq(|ps|, k requires 0 <= k < |ps| => ps[k].totalRunTime);
    assert seq(|ps'|, k requires 0 <= k < |ps'| => ps'[k].totalRunTime) == totals[i := pr.totalRunTime];
    SumUpdate(totals, i, pr.totalRunTime);
    var runs := seq(|ps|, k requires 0 <= k < |ps| => RunTime(ps[k].threads));
    assert seq(|ps'|, k requires 0 <= k < |ps'| => RunTime(ps'[k].threads)) == runs[i := RunTime(pr.threads)];
    SumUpdate(runs, i, RunTime(pr.threads));
  }

  lemma {:induction false} ProcessAppend(ps: seq<Process>, pr: Process)
    ensures ProcessTime(ps + [pr]) == ProcessTime(ps) + pr.totalRunTime
    ensures ThreadTime(ps + [pr]) == ThreadTime(ps) + RunTime(pr.threads)
  {
    var ps' := ps + [pr];
    var totals := seq(|ps|, k requires 0 <= k < |ps| => ps[k].totalRunTime);
    assert seq(|ps'|, k requires 0 <= k < |ps'| => ps'[k].totalRunTime)[..|ps|] == totals;
    var runs := seq(|ps|, k requires 0 <= k < |ps| => RunTime(ps[k].threads));
    assert seq(|ps'|, k requires 0 <= k < |ps'| => RunTime(ps'[k].threads))[..|ps|] == runs;
  }

  /** The tables account for the same time. */
  ghost predicate SameTimes(ps: seq<Process>, ps': seq<Process>) {
    ProcessTime(ps') == ProcessTime(ps) && ThreadTime(ps') == ThreadTime(ps) && (Covered(ps) ==> Covered(ps'))
  }

  lemma {:induction false} EditTimes(ps: seq<Process>, p: (nat, nat), th: Thread)
    requires At(ps, p) && th.runTime == ThreadAt(ps, p).runTime
    ensures SameTimes(ps, WithThread(ps, p, th))
  {
    ThreadUpdate(ps[p.0].threads, p.1, th);
    ProcessUpdate(ps, p.0, ps[p.0].(threads := ps[p.0].threads[p.1 := th]));
  }

  /** The calls that edit the state or the priority of one thread. */
  lemma {:induction false} CallTimes(s: Sched, op: Op)
    requires |s.queues| == 5 && (op.Terminate? || op.Block? || op.Unblock? || op.SetPriority?)
    ensures SameTimes(s.processes, Apply(s, op).processes)
  {
    hide SameTimes, WithThread;
    if Find(s.processes, op.id, 0).Some? {
      var p := Find(s.processes, op.id, 0).value;
      var th := ThreadAt(s.processes, p);
      EditTimes(s.processes, p, th.(state := Terminated));
      EditTimes(s.processes, p, th.(state := Blocked));
      EditTimes(s.processes, p, th.(state := Ready));
      if op.SetPriority? {
        EditTimes(s.processes, p, th.(priority := op.priority));
      }
    }
    Unchanged(s.processes);
  }

  lemma Unchanged(ps: seq<Process>)
    ensures SameTimes(ps, ps)
  {}

  lemma {:induction false} PreemptTimes(s: Sched)
    requires |s.queues| == 5
    ensures SameTimes(s.processes, PreemptSpec(s).processes)
  {
    hide SameTimes, WithThread;
    Unchanged(s.processes);
    if s.currentThread.Some? && Find(s.processes, s.currentThread.value, 0).Some? {
      var p := Find(s.processes, s.currentThread.value, 0).value;
      EditTimes(s.processes, p, ThreadAt(s.processes, p).(state := Ready));
    }
  }

  lemma {:induction false} DispatchTimes(s: Sched)
    ensures SameTimes(s.processes, DispatchSpec(s).processes)
  {
    hide WithThread, ProcessTime, ThreadTime, Covered;
    var ps := s.processes;
    if s.currentThread.Some? && Find(ps, s.currentThread.value, 0).Some? {
      var p := Find(ps, s.currentThread.value, 0).value;
      EditTimes(ps, p, ThreadAt(ps, p).(state := Ready));
    }
    if s.currentThread.Some? {
      ps := Readied(ps, s.currentThread.value);
    }
    assert SameTimes(s.processes, ps);
    hide Readied;
    var first := FirstFilled(s.queues, 0);
    if first.Some? && Find(ps, Last(s.queues, first.value), 0).Some? {
      var p := Find(ps, Last(s.queues, first.value), 0).value;
      EditTimes(ps, p, ThreadAt(ps, p).(state := Running));
    }
  }

  lemma {:induction false} NewTimes(s: Sched, priority: Priority)
    requires |s.queues| == 5
    ensures SameTimes(s.processes, AddSpec(s, priority).processes)
    ensures SameTimes(s.processes, CreateSpec(s, priority).processes)
  {
    var ps, th := s.processes, Thread(s.nextThread, Ready, priority, 0);
    ThreadAppend([], th);
    assert [] + [th] == [th];
    ProcessAppend(ps, Process(s.nextProcess, [th], 0));
    if s.currentProcess.Some? && FindProcess(ps, s.currentProcess.value, 0).Some? {
      var i := FindProcess(ps, s.currentProcess.value, 0).value;
      ThreadAppend(ps[i].threads, th);
      ProcessUpdate(ps, i, ps[i].(threads := ps[i].threads + [th]));
    }
  }

  // ---------------------------------------------------------------------------------------------
  // The charge
  // ---------------------------------------------------------------------------------------------

  /** A thread is running, and it is the current one. */
  ghost predicate Busy(s: Sched) {
    s.currentThread.Some? && StateOf(s.processes, s.currentThread.value) == Some(Running)
  }

  /** The current process is in the table, and it has a running thread exactly if some thread runs at all. */
  lemma {:induction false} CurrentThere(s: Sched)
    requires Inv(s) && s.currentProcess.Some?
    ensures var i := FindProcess(s.processes, s.currentProcess.value, 0);
      i.Some? && (RunningIn(s.processes[i.value].threads, 0).Some? <==> Busy(s))
  {
    hide Pending;
    var id := s.currentThread.value;
    var p := Find(s.processes, id, 0).value;
    var i := FindProcess(s.processes, s.currentProcess.value, 0).value;
    assert i == p.0;
    var j := RunningIn(s.processes[i].threads, 0);
    if j.Some? {
      Found(s.processes, (i, j.value));
      assert StateOf(s.processes, ThreadAt(s.processes, (i, j.value)).id) == Some(Running);
    }
  }

  /** One tick of process time, and one of thread time if a thread is running. */
  lemma {:induction false} ChargeTimes(s: Sched)
    requires Inv(s)
    ensures var ps, ps' := s.processes, ChargeSpec(s).processes;
      && ProcessTime(ps') == ProcessTime(ps) + (if s.currentProcess.Some? then 1 else 0)
      && ThreadTime(ps') == ThreadTime(ps) + (if Busy(s) then 1 else 0)
      && (Covered(ps) ==> Covered(ps'))
  {
    if s.currentProcess.Some? {
      CurrentThere(s);
      hide Inv;
      var i := FindProcess(s.processes, s.currentProcess.value, 0).value;
      var pr, pr' := s.processes[i], ChargeSpec(s).processes[i];
      var j := RunningIn(pr.threads, 0);
      if j.Some? {
        ThreadUpdate(pr.threads, j.value, pr'.threads[j.value]);
      }
      ProcessUpdate(s.processes, i, pr');
    }
  }

  /** The tick's last step is the charge; what comes before it only edits states. */
  lemma {:induction false} TickTimes(s: Sched)
    requires Inv(s)
    ensures var ps, s' := s.processes, TickSpec(s);
      && ProcessTime(s'.processes) == ProcessTime(ps) + (if s'.currentProcess.Some? then 1 else 0)
      && ThreadTime(s'.processes) == ThreadTime(ps) + (if Busy(s') then 1 else 0)
      && (Covered(ps) ==> Covered(s'.processes))
  {
    hide PreemptSpec, DispatchSpec, ChargeSpec, ProcessTime, ThreadTime, Covered, IdsOk, CurrentOk, StateOf;
    ClockKeeps(s, s.ticks + 1, s.quantum + 1);
    ClockKeeps(s, s.ticks + 1, 0);
    var t := s.(ticks := s.ticks + 1, quantum := s.quantum + 1);
    if t.quantum >= MAX_QUANTUM {
      t := t.(quantum := 0);
      if t.currentThread.Some? {
        PreemptKeeps(t);
        PreemptTimes(t);
        DispatchKeeps(PreemptSpec(t));
        DispatchTimes(PreemptSpec(t));
        t := DispatchSpec(PreemptSpec(t));
      }
    }
    assert TickSpec(s) == ChargeSpec(t);
    ChargeKeeps(t);
    ChargeTimes(t);
  }

  // ---------------------------------------------------------------------------------------------
  // The accounts of a run
  // ---------------------------------------------------------------------------------------------

  /** The ticks of a run that ended with a current process. */
  ghost function Owned(s: Sched, ops: seq<Op>): nat
    requires |s.queues| == 5
  {
    if ops == [] then 0
    else Owned(s, ops[..|ops| - 1]) + if ops[|ops| - 1].Tick? && Run(s, ops).currentProcess.Some? then 1 else 0
  }

  /** The ticks of a run that ended with a running thread. */
  ghost function Worked(s: Sched, ops: seq<Op>): nat
    requires |s.queues| == 5
  {
    if ops == [] then 0
    else Worked(s, ops[..|ops| - 1]) + if ops[|ops| - 1].Tick? && Busy(Run(s, ops)) then 1 else 0
  }

  /** All ticks of a run. */
  ghost function TickCount(ops: seq<Op>): nat {
    if ops == [] then 0 else TickCount(ops[..|ops| - 1]) + if ops[|ops| - 1].Tick? then 1 else 0
  }

  lemma {:induction false} OthersTimes(s: Sched, op: Op)
    requires Inv(s) && !op.Tick?
    ensures SameTimes(s.processes, Apply(s, op).processes) && Apply(s, op).ticks == s.ticks
  {
    assert |s.queues| == 5;
    Unchanged(s.processes);
    hide SameTimes, Inv, WithThread;
    match op
    case Dispatch => DispatchTimes(s);
    case Add(priority) => NewTimes(s, priority);
    case Create(priority) => NewTimes(s, priority);
    case _ => CallTimes(s, op);
  }

  lemma TickCounts(s: Sched)
    requires |s.queues| == 5
    ensures TickSpec(s).ticks == s.ticks + 1
  {
    hide Find, WithThread, FindProcess, RunningIn;
  }

  lemma {:induction false} StepTimes(s: Sched, op: Op)
    requires Inv(s)
    ensures var ps, s' := s.processes, Apply(s, op);
      && ProcessTime(s'.processes) == ProcessTime(ps) + (if op.Tick? && s'.currentProcess.Some? then 1 else 0)
      && ThreadTime(s'.processes) == ThreadTime(ps) + (if op.Tick? && Busy(s') then 1 else 0)
      && (Covered(ps) ==> Covered(s'.processes)) && s'.ticks == s.ticks + (if op.Tick? then 1 else 0)
      && (Busy(s') ==> s'.currentProcess.Some?)
  {
    assert |s.queues| == 5;
    ApplyKeeps(s, op);
    assert Busy(Apply(s, op)) ==> Apply(s, op).currentProcess.Some?;
    hide TickSpec, ProcessTime, ThreadTime, Covered, Inv, Busy;
    if op.Tick? {
      TickTimes(s);
      TickCounts(s);
    } else {
      OthersTimes(s, op);
    }
  }

  /**
   * The processes together have run for exactly the ticks that ended with a current process, and the threads
   * together for exactly those that ended with a running thread; each process at least as long as its threads.
   */
  lemma {:induction false} TimeIsAccounted(ops: seq<Op>)
    ensures var s := Run(BOOT, ops);
      && Covered(s.processes)
      && ProcessTime(s.processes) == Owned(BOOT, ops)
      && ThreadTime(s.processes) == Worked(BOOT, ops)
      && ThreadTime(s.processes) <= ProcessTime(s.processes) <= TickCount(ops) == s.ticks
  {
    if ops == [] {
    } else {
      hide Apply, ProcessTime, ThreadTime, Covered, Inv, Busy;
      TimeIsAccounted(ops[..|ops| - 1]);
      BootOk();
      RunKeepsInv(BOOT, ops[..|ops| - 1]);
      StepTimes(Run(BOOT, ops[..|ops| - 1]), ops[|ops| - 1]);
    }
  }
}

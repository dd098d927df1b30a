/** What single calls of the scheduler come to, as its callers see it. */
module CallLaws {
  import opened Common
  import opened Scheduling
  import opened SchedulerLaws
  import opened QueueLaws

  // ---------------------------------------------------------------------------------------------
  // Switching
  // ---------------------------------------------------------------------------------------------

  /** The table after the old running thread has been readied. */
  lemma {:induction false} ReadiedViews(s: Sched, id: nat)
    requires Inv(s) && s.currentThread == Some(id)
    ensures var ps := Readied(s.processes, id);
      && Unique(ps)
      && forall t: nat ::
           && (StateOf(s.processes, t) != Some(Running) ==> StateOf(ps, t) == StateOf(s.processes, t))
           && (StateOf(s.processes, t) == Some(Running) ==> StateOf(ps, t) == Some(Ready))
           && OwnerOf(ps, t) == OwnerOf(s.processes, t) && Find(ps, t, 0) == Find(s.processes, t, 0)
  {
    UniqueOf(s);
    assert forall t: nat :: StateOf(s.processes, t) == Some(Running) ==> t == id;
    var found := Find(s.processes, id, 0);
    hide Inv, WithThread;
    if found.Some? {
      StateAt(s.processes, id);
      var th := ThreadAt(s.processes, found.value);
      hide StateOf, OwnerOf, Unique;
      if th.state.Running? {
        forall t: nat
          ensures Unique(Readied(s.processes, id))
          ensures StateOf(Readied(s.processes, id), t) == if t == id then Some(Ready) else StateOf(s.processes, t)
          ensures OwnerOf(Readied(s.processes, id), t) == OwnerOf(s.processes, t)
          ensures Find(Readied(s.processes, id), t, 0) == Find(s.processes, t, 0)
        {
          EditView(s.processes, found.value, th.(state := Ready), t);
        }
        EditView(s.processes, found.value, th.(state := Ready), id);
      }
    }
  }

  /** A switch readies the thread that ran and runs the one named, whose process becomes current. */
  lemma {:induction false} SwitchExactly(s: Sched, id: nat)
    requires Inv(s) && StateOf(s.processes, id).Some?
    ensures var r := SwitchSpec(s, id);
      && r.currentThread == Some(id) && r.currentProcess == OwnerOf(s.processes, id) && r.queues == s.queues
      && forall t: nat :: StateOf(r.processes, t) ==
           if t == id then Some(Running)
           else if StateOf(s.processes, t) == Some(Running) then Some(Ready) else StateOf(s.processes, t)
  {
    var ps := if s.currentThread.Some? then Readied(s.processes, s.currentThread.value) else s.processes;
    UniqueOf(s);
    assert s.currentThread.None? ==> NoneRunning(s);
    if s.currentThread.Some? {
      ReadiedViews(s, s.currentThread.value);
    }
    hide Inv, Readied, WithThread, Unique;
    var p := Find(ps, id, 0).value;
    assert OwnerOf(ps, id) == Some(ps[p.0].id);
    assert SwitchSpec(s, id).processes == WithThread(ps, p, ThreadAt(ps, p).(state := Running));
    hide StateOf, OwnerOf, SwitchSpec;
    forall t: nat
      ensures StateOf(WithThread(ps, p, ThreadAt(ps, p).(state := Running)), t) ==
              if t == id then Some(Running) else StateOf(ps, t)
    {
      EditView(ps, p, ThreadAt(ps, p).(state := Running), t);
    }
  }

  // ---------------------------------------------------------------------------------------------
  // Creating
  // ---------------------------------------------------------------------------------------------

  /** A thread is created ready, in the current process and in the queue of its priority; without one, not at all. */
  lemma {:induction false} CreateExactly(s: Sched, priority: Priority)
    requires Inv(s)
    ensures var r := CreateSpec(s, priority);
      if s.currentProcess.None? || FindProcess(s.processes, s.currentProcess.value, 0).None? then r == s
      else
        && StateOf(s.processes, s.nextThread) == None && StateOf(r.processes, s.nextThread) == Some(Ready)
        && OwnerOf(r.processes, s.nextThread) == s.currentProcess
        && ClassIn(r.processes, s.nextThread) == Some(priority.Queue())
        && Pending(r.queues) == Pending(s.queues) + multiset{s.nextThread} && r.nextThread == s.nextThread + 1
  {
    var r := CreateSpec(s, priority);
    if s.currentProcess.Some? && FindProcess(s.processes, s.currentProcess.value, 0).Some? {
      var i := FindProcess(s.processes, s.currentProcess.value, 0).value;
      CreateKeeps(s, priority);
      UniqueOf(r);
      FreshIsNew(s);
      hide Inv, Pending, Unique, Push;
      CreateThreads(s, priority, i);
      Found(r.processes, (i, |s.processes[i].threads|));
      PushPending(s.queues, priority.Queue(), s.nextThread);
    }
  }

  lemma FreshIsNew(s: Sched)
    requires Inv(s)
    ensures StateOf(s.processes, s.nextThread) == None
  {}

  // ---------------------------------------------------------------------------------------------
  // The first dispatch
  // ---------------------------------------------------------------------------------------------

  /** The scheduler's own calls never make a first thread current, however many threads wait: nothing ever runs. */
  lemma {:induction false} NothingStartsByItself(ops: seq<Op>)
    requires forall op :: op in ops ==> !op.Dispatch?
    ensures Run(BOOT, ops).currentThread == None && NoneRunning(Run(BOOT, ops))
  {
    BootOk();
    RunKeepsInv(BOOT, ops);
    NeverCurrent(ops);
    NoneCurrentNoneRunning(Run(BOOT, ops));
  }

  lemma NoneCurrentNoneRunning(s: Sched)
    requires Inv(s) && s.currentThread == None
    ensures NoneRunning(s)
  {}

  lemma {:induction false} NeverCurrent(ops: seq<Op>)
    requires forall op :: op in ops ==> !op.Dispatch?
    ensures Run(BOOT, ops).currentThread == None
  {
    if ops == [] {
    } else {
      hide Apply;
      NeverCurrent(ops[..|ops| - 1]);
      assert ops[|ops| - 1] in ops;
      StaysWithout(Run(BOOT, ops[..|ops| - 1]), ops[|ops| - 1]);
    }
  }

  lemma {:induction false} StaysWithout(s: Sched, op: Op)
    requires |s.queues| == 5 && s.currentThread == None && !op.Dispatch?
    ensures Apply(s, op).currentThread == None
  {
    hide Find, FindProcess, WithThread, Push, RunningIn;
  }
}

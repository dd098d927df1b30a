/** What the scheduler keeps in every reachable state, and what its choices amount to. */
module SchedulerLaws {
  import opened Common
  import opened Scheduling

  ghost function StateOf(ps: seq<Process>, id: nat): Option<ThreadState> {
    match Find(ps, id, 0) case None => None case Some(p) => Some(ThreadAt(ps, p).state)
  }

  /** The process a thread belongs to. */
  ghost function OwnerOf(ps: seq<Process>, id: nat): Option<nat> {
    match Find(ps, id, 0) case None => None case Some(p) => Some(ps[p.0].id)
  }

  /** How often each thread waits in a ready queue. */
  ghost function Pending(queues: seq<seq<nat>>): multiset<nat>
    requires |queues| == 5
  {
    multiset(queues[0]) + multiset(queues[1]) + multiset(queues[2]) + multiset(queues[3]) + multiset(queues[4])
  }

  lemma {:induction false} PushPending(queues: seq<seq<nat>>, q: nat, id: nat)
    requires |queues| == 5 && q < 5
    ensures Pending(Push(queues, q, id)) == Pending(queues) + multiset{id}
  {
    assert multiset(queues[q] + [id]) == multiset(queues[q]) + multiset{id};
  }

  lemma {:induction false} PopPending(queues: seq<seq<nat>>, q: nat)
    requires |queues| == 5 && q < 5 && queues[q] != []
    ensures Pending(queues) == Pending(Popped(queues, q)) + multiset{Last(queues, q)}
  {
    var n := |queues[q]| - 1;
    assert queues[q] == queues[q][..n] + [queues[q][n]];
    assert multiset(queues[q]) == multiset(queues[q][..n]) + multiset{queues[q][n]};
  }

  lemma {:induction false} NothingPending(queues: seq<seq<nat>>)
    requires |queues| == 5
    ensures FirstFilled(queues, 0).None? <==> Pending(queues) == multiset{}
  {
    if FirstFilled(queues, 0).Some? {
      PopPending(queues, FirstFilled(queues, 0).value);
    }
  }

  // ---------------------------------------------------------------------------------------------
  // Tables
  // ---------------------------------------------------------------------------------------------

  ghost predicate Unique(ps: seq<Process>) {
    && (forall p: (nat, nat), q: (nat, nat) | At(ps, p) && At(ps, q) ::
          ThreadAt(ps, p).id == ThreadAt(ps, q).id ==> p == q)
    && (forall i, k :: 0 <= i < |ps| && 0 <= k < |ps| && ps[i].id == ps[k].id ==> i == k)
  }

  lemma Found(ps: seq<Process>, p: (nat, nat))
    requires Unique(ps) && At(ps, p)
    ensures Find(ps, ThreadAt(ps, p).id, 0) == Some(p)
  {}

  /** Every place of the one table is in the other, with the same ids; states agree except in place e. */
  ghost predicate Extends(ps: seq<Process>, ps': seq<Process>, e: Option<(nat, nat)>) {
    && |ps| <= |ps'|
    && (forall i :: 0 <= i < |ps| ==> ps'[i].id == ps[i].id)
    && (forall p: (nat, nat) :: At(ps, p) ==> At(ps', p) && ThreadAt(ps', p).id == ThreadAt(ps, p).id)
    && (forall p: (nat, nat) :: At(ps, p) && e != Some(p) ==> ThreadAt(ps', p).state == ThreadAt(ps, p).state)
  }

  lemma {:induction false} ExtendsView(ps: seq<Process>, ps': seq<Process>, e: Option<(nat, nat)>, id: nat)
    requires Unique(ps) && Unique(ps') && Extends(ps, ps', e) && Find(ps, id, 0).Some?
    ensures Find(ps', id, 0) == Find(ps, id, 0)
    ensures OwnerOf(ps', id) == OwnerOf(ps, id)
    ensures e != Find(ps, id, 0) ==> StateOf(ps', id) == StateOf(ps, id)
  {
    Found(ps', Find(ps, id, 0).value);
  }

  /** A table of the same shape has no further threads. */
  ghost predicate SameShape(ps: seq<Process>, ps': seq<Process>) {
    |ps| == |ps'| && forall i :: 0 <= i < |ps| ==> |ps[i].threads| == |ps'[i].threads|
  }

  lemma {:induction false} ShapeView(ps: seq<Process>, ps': seq<Process>, e: Option<(nat, nat)>, id: nat)
    requires Unique(ps) && Extends(ps, ps', e) && SameShape(ps, ps')
    ensures Unique(ps') && Find(ps', id, 0) == Find(ps, id, 0)
    ensures OwnerOf(ps', id) == OwnerOf(ps, id)
    ensures e != Find(ps, id, 0) || e == None ==> StateOf(ps', id) == StateOf(ps, id)
  {
    assert forall p: (nat, nat) :: At(ps', p) <==> At(ps, p);
    assert Unique(ps') by {
      assert forall p: (nat, nat) :: At(ps', p) ==> ThreadAt(ps', p).id == ThreadAt(ps, p).id;
    }
    if Find(ps, id, 0).Some? {
      ExtendsView(ps, ps', e, id);
    }
  }

  /** Setting the state of one thread is visible for that thread alone. */
  lemma {:induction false} EditView(ps: seq<Process>, p: (nat, nat), th: Thread, id: nat)
    requires Unique(ps) && At(ps, p) && ThreadAt(ps, p).id == th.id
    ensures Unique(WithThread(ps, p, th))
    ensures StateOf(WithThread(ps, p, th), id) == if id == th.id then Some(th.state) else StateOf(ps, id)
    ensures OwnerOf(WithThread(ps, p, th), id) == OwnerOf(ps, id)
    ensures Find(WithThread(ps, p, th), id, 0) == Find(ps, id, 0)
  {
    var ps' := WithThread(ps, p, th);
    assert Extends(ps, ps', Some(p)) && SameShape(ps, ps');
    ShapeView(ps, ps', Some(p), id);
    Found(ps, p);
  }

  // ---------------------------------------------------------------------------------------------
  // The invariant
  // ---------------------------------------------------------------------------------------------

  ghost predicate IdsOk(s: Sched) {
    && Unique(s.processes)
    && (forall p: (nat, nat) :: At(s.processes, p) ==> ThreadAt(s.processes, p).id < s.nextThread)
    && (forall i :: 0 <= i < |s.processes| ==> s.processes[i].id < s.nextProcess)
  }

  ghost predicate QueuesOk(s: Sched) {
    && |s.queues| == 5
    && (forall id :: Pending(s.queues)[id] <= 1)
    && (forall id: nat :: id in Pending(s.queues) ==>
          StateOf(s.processes, id) == Some(Ready) || StateOf(s.processes, id) == Some(Terminated))
    && (forall id: nat :: StateOf(s.processes, id) == Some(Ready) ==> id in Pending(s.queues))
  }

  ghost predicate CurrentOk(s: Sched) {
    && (forall id: nat :: StateOf(s.processes, id) == Some(Running) ==> s.currentThread == Some(id))
    && (match s.currentThread
        case None => s.currentProcess == None
        case Some(id) => s.currentProcess.Some? && OwnerOf(s.processes, id) == s.currentProcess)
  }

  ghost predicate Inv(s: Sched) {
    IdsOk(s) && QueuesOk(s) && CurrentOk(s)
  }

  ghost predicate NoneRunning(s: Sched) {
    forall id: nat :: StateOf(s.processes, id) != Some(Running)
  }

  lemma {:induction false} EditIds(s: Sched, p: (nat, nat), th: Thread, s': Sched)
    requires IdsOk(s) && At(s.processes, p) && ThreadAt(s.processes, p).id == th.id
    requires s'.processes == WithThread(s.processes, p, th)
    requires s'.nextThread == s.nextThread && s'.nextProcess == s.nextProcess
    ensures IdsOk(s')
  {
    EditView(s.processes, p, th, th.id);
    assert forall q: (nat, nat) :: At(s'.processes, q) ==>
        At(s.processes, q) && ThreadAt(s'.processes, q).id == ThreadAt(s.processes, q).id;
  }

  /** What an edit of one thread leaves to be seen of all. */
  lemma {:induction false} EditViews(s: Sched, p: (nat, nat), th: Thread, s': Sched)
    requires IdsOk(s) && At(s.processes, p) && Find(s.processes, th.id, 0) == Some(p)
    requires s'.processes == WithThread(s.processes, p, th)
    requires s'.nextThread == s.nextThread && s'.nextProcess == s.nextProcess
    ensures IdsOk(s')
    ensures StateOf(s.processes, th.id) == Some(ThreadAt(s.processes, p).state)
    ensures forall id: nat ::
              StateOf(s'.processes, id) == if id == th.id then Some(th.state) else StateOf(s.processes, id)
    ensures forall id: nat :: OwnerOf(s'.processes, id) == OwnerOf(s.processes, id)
  {
    StateAt(s.processes, th.id);
    hide WithThread, Find, OwnerOf, StateOf, Unique;
    forall id: nat
      ensures StateOf(s'.processes, id) == if id == th.id then Some(th.state) else StateOf(s.processes, id)
      ensures OwnerOf(s'.processes, id) == OwnerOf(s.processes, id)
    {
      EditView(s.processes, p, th, id);
    }
    EditIds(s, p, th, s');
  }

  lemma StateAt(ps: seq<Process>, id: nat)
    requires Find(ps, id, 0).Some?
    ensures StateOf(ps, id) == Some(ThreadAt(ps, Find(ps, id, 0).value).state)
  {}

  /** A state of one thread changes, and it joins the queues if it becomes ready. */
  lemma {:induction false} EditKeeps(s: Sched, p: (nat, nat), th: Thread, s': Sched)
    requires Inv(s) && At(s.processes, p) && Find(s.processes, th.id, 0) == Some(p)
    requires s'.processes == WithThread(s.processes, p, th)
    requires s'.currentThread == s.currentThread && s'.currentProcess == s.currentProcess
    requires s'.nextThread == s.nextThread && s'.nextProcess == s.nextProcess
    requires |s'.queues| == 5
    requires var was, now := ThreadAt(s.processes, p).state, th.state;
      && (was == now || was.Running? || (was.Blocked? && now.Ready?) || now.Terminated?)
      && (now.Running? ==> was.Running?)
      && Pending(s'.queues) ==
           if now.Ready? && !was.Ready? then Pending(s.queues) + multiset{th.id} else Pending(s.queues)
    ensures Inv(s')
    ensures forall id: nat ::
              StateOf(s'.processes, id) == if id == th.id then Some(th.state) else StateOf(s.processes, id)
  {
    EditViews(s, p, th, s');
    hide WithThread, Find, OwnerOf, StateOf, Pending, IdsOk, QueuesOk;
    EditQueues(s, th.id, ThreadAt(s.processes, p).state, th.state, s');
  }

  lemma {:induction false} EditQueues(s: Sched, id: nat, was: ThreadState, now: ThreadState, s': Sched)
    requires QueuesOk(s) && StateOf(s.processes, id) == Some(was) && |s'.queues| == 5
    requires forall t: nat :: StateOf(s'.processes, t) == if t == id then Some(now) else StateOf(s.processes, t)
    requires was == now || was.Running? || (was.Blocked? && now.Ready?) || now.Terminated?
    requires now.Running? ==> was.Running?
    requires Pending(s'.queues) ==
             if now.Ready? && !was.Ready? then Pending(s.queues) + multiset{id} else Pending(s.queues)
    ensures QueuesOk(s')
  {
    hide StateOf, Pending;
    assert now.Ready? && !was.Ready? ==> id !in Pending(s.queues);
  }

  // ---------------------------------------------------------------------------------------------
  // The tick
  // ---------------------------------------------------------------------------------------------

  /** Nothing a caller can see of the states, the queues and the current thread has changed. */
  ghost predicate SameView(s: Sched, s': Sched) {
    && s'.queues == s.queues && s'.currentThread == s.currentThread && s'.currentProcess == s.currentProcess
    && (forall id: nat :: StateOf(s'.processes, id) == StateOf(s.processes, id))
  }

  lemma ChargeTable(s: Sched)
    ensures var s' := ChargeSpec(s);
      && Extends(s.processes, s'.processes, None) && SameShape(s.processes, s'.processes)
      && s' == s.(processes := s'.processes)
  {}

  lemma {:induction false} ChargeKeeps(s: Sched)
    requires Inv(s)
    ensures Inv(ChargeSpec(s)) && SameView(s, ChargeSpec(s)) && ChargeSpec(s).quantum == s.quantum
  {
    hide ChargeSpec, StateOf, OwnerOf, Unique, Pending;
    ChargeTable(s);
    var s' := ChargeSpec(s);
    forall id: nat
      ensures Unique(s'.processes)
      ensures StateOf(s'.processes, id) == StateOf(s.processes, id)
      ensures OwnerOf(s'.processes, id) == OwnerOf(s.processes, id)
    {
      ShapeView(s.processes, s'.processes, None, id);
    }
    ShapeView(s.processes, s'.processes, None, 0);
    assert forall p: (nat, nat) :: At(s'.processes, p) ==>
        At(s.processes, p) && ThreadAt(s'.processes, p).id == ThreadAt(s.processes, p).id;
  }

  lemma {:induction false} PreemptKeeps(s: Sched)
    requires Inv(s)
    ensures var s' := PreemptSpec(s);
      && Inv(s') && NoneRunning(s')
      && s'.currentThread == s.currentThread && s'.currentProcess == s.currentProcess
      && (forall id: nat :: StateOf(s'.processes, id) ==
            if StateOf(s.processes, id) == Some(Running) then Some(Ready) else StateOf(s.processes, id))
  {
    if s.currentThread.Some? && StateOf(s.processes, s.currentThread.value) == Some(Running) {
      var p := Find(s.processes, s.currentThread.value, 0).value;
      var th := ThreadAt(s.processes, p);
      PushPending(s.queues, th.priority.Queue(), th.id);
      EditKeeps(s, p, th.(state := Ready), PreemptSpec(s));
    }
  }

  /** Making a thread taken from the queues the running one. */
  lemma {:induction false} StartKeeps(s: Sched, p: (nat, nat), th: Thread, s': Sched)
    requires Inv(s) && NoneRunning(s) && At(s.processes, p)
    requires Find(s.processes, th.id, 0) == Some(p) && th.state.Running?
    requires |s'.queues| == 5 && Pending(s.queues) == Pending(s'.queues) + multiset{th.id}
    requires s'.processes == WithThread(s.processes, p, th)
    requires s'.currentThread == Some(th.id) && s'.currentProcess == Some(s.processes[p.0].id)
    requires s'.nextThread == s.nextThread && s'.nextProcess == s.nextProcess
    ensures Inv(s')
    ensures forall id: nat ::
              StateOf(s'.processes, id) == if id == th.id then Some(Running) else StateOf(s.processes, id)
  {
    assert OwnerOf(s.processes, th.id) == s'.currentProcess;
    EditViews(s, p, th, s');
    hide WithThread, Find, OwnerOf, StateOf, Pending, IdsOk;
    StartQueues(s, th.id, s');
  }

  lemma {:induction false} StartQueues(s: Sched, id: nat, s': Sched)
    requires QueuesOk(s) && |s'.queues| == 5 && Pending(s.queues) == Pending(s'.queues) + multiset{id}
    requires forall t: nat :: StateOf(s'.processes, t) == if t == id then Some(Running) else StateOf(s.processes, t)
    ensures QueuesOk(s')
  {
    hide StateOf, Pending;
    var before, after := Pending(s.queues), Pending(s'.queues);
    assert forall t: nat :: before[t] == after[t] + if t == id then 1 else 0;
    assert before[id] <= 1;
    forall t: nat
      ensures t in after <==> t in before && t != id
    {}
  }

  /** With nothing running, `schedule` and the switch run the last thread of the first filled queue. */
  lemma {:induction false} DispatchKeeps(s: Sched)
    requires Inv(s) && NoneRunning(s)
    ensures var s', first := DispatchSpec(s), FirstFilled(s.queues, 0);
      && Inv(s')
      && (first.None? ==> s' == s)
      && (first.Some? ==>
            var id := Last(s.queues, first.value);
            && s'.queues == Popped(s.queues, first.value) && s'.currentThread == Some(id)
            && forall t: nat :: StateOf(s'.processes, t) == if t == id then Some(Running) else StateOf(s.processes, t))
  {
    assert |s.queues| == 5;
    hide DispatchSpec, StateOf;
    var first := FirstFilled(s.queues, 0);
    if first.Some? {
      var id := Last(s.queues, first.value);
      PopPending(s.queues, first.value);
      assert id in Pending(s.queues) && StateOf(s.processes, id).Some?;
      var p := DispatchIs(s, first.value);
      hide Inv, NoneRunning, WithThread, Pending;
      StartKeeps(s, p, ThreadAt(s.processes, p).(state := Running), DispatchSpec(s));
    } else {
      assert DispatchSpec(s) == s by {
        NoDispatch(s);
      }
    }
  }

  lemma NoDispatch(s: Sched)
    requires FirstFilled(s.queues, 0).None?
    ensures DispatchSpec(s) == s
  {}

  /** With nothing running the switch readies nobody. */
  lemma {:induction false} DispatchIs(s: Sched, q: nat) returns (p: (nat, nat))
    requires NoneRunning(s) && FirstFilled(s.queues, 0) == Some(q) && StateOf(s.processes, Last(s.queues, q)).Some?
    ensures At(s.processes, p) && Find(s.processes, Last(s.queues, q), 0) == Some(p)
    ensures DispatchSpec(s) == s.(
              queues := Popped(s.queues, q),
              processes := WithThread(s.processes, p, ThreadAt(s.processes, p).(state := Running)),
              currentThread := Some(Last(s.queues, q)), currentProcess := Some(s.processes[p.0].id))
  {
    hide WithThread;
    p := Find(s.processes, Last(s.queues, q), 0).value;
    if s.currentThread.Some? {
      assert StateOf(s.processes, s.currentThread.value) != Some(Running);
      assert Readied(s.processes, s.currentThread.value) == s.processes;
    }
  }

  lemma ClockKeeps(s: Sched, ticks: nat, quantum: nat)
    requires Inv(s)
    ensures Inv(s.(ticks := ticks, quantum := quantum))
  {}

  lemma {:induction false} TickKeeps(s: Sched)
    requires Inv(s)
    ensures Inv(TickSpec(s))
  {
    hide PreemptSpec, DispatchSpec, ChargeSpec, IdsOk, CurrentOk;
    var t := s.(ticks := s.ticks + 1, quantum := s.quantum + 1);
    ClockKeeps(s, s.ticks + 1, s.quantum + 1);
    ClockKeeps(s, s.ticks + 1, 0);
    if t.quantum < MAX_QUANTUM {
      ChargeKeeps(t);
    } else if t.currentThread.None? {
      ChargeKeeps(t.(quantum := 0));
    } else {
      PreemptKeeps(t.(quantum := 0));
      DispatchKeeps(PreemptSpec(t.(quantum := 0)));
      ChargeKeeps(DispatchSpec(PreemptSpec(t.(quantum := 0))));
    }
  }

  // ---------------------------------------------------------------------------------------------
  // New threads
  // ---------------------------------------------------------------------------------------------

  /** The tables differ by a fresh thread at place p, and at most one fresh process. */
  ghost predicate Grown(s: Sched, s': Sched, p: (nat, nat)) {
    && Extends(s.processes, s'.processes, None)
    && At(s'.processes, p) && ThreadAt(s'.processes, p).id == s.nextThread && ThreadAt(s'.processes, p).state.Ready?
    && (forall q: (nat, nat) :: At(s'.processes, q) && q != p ==> At(s.processes, q))
    && (forall i :: |s.processes| <= i < |s'.processes| ==> i == |s.processes| && s'.processes[i].id == s.nextProcess)
    && s'.nextThread == s.nextThread + 1 && s'.nextProcess >= s.nextProcess + (|s'.processes| - |s.processes|)
  }

  lemma {:induction false} GrownIds(s: Sched, s': Sched, p: (nat, nat))
    requires IdsOk(s) && Grown(s, s', p)
    ensures IdsOk(s')
  {
    forall q: (nat, nat) | At(s'.processes, q) && q != p
      ensures At(s.processes, q) && ThreadAt(s'.processes, q).id == ThreadAt(s.processes, q).id < s.nextThread
    {}
  }

  lemma {:induction false} GrownView(s: Sched, s': Sched, p: (nat, nat), id: nat)
    requires IdsOk(s) && IdsOk(s') && Grown(s, s', p)
    ensures StateOf(s'.processes, id) == if id == s.nextThread then Some(Ready) else StateOf(s.processes, id)
    ensures OwnerOf(s.processes, id).Some? ==> OwnerOf(s'.processes, id) == OwnerOf(s.processes, id)
    ensures id >= s.nextThread ==> StateOf(s.processes, id) == None
  {
    Found(s'.processes, p);
    if Find(s.processes, id, 0).Some? {
      ExtendsView(s.processes, s'.processes, None, id);
    }
  }

  /** The fresh thread joins the queues. */
  lemma {:induction false} GrowKeeps(s: Sched, s': Sched, p: (nat, nat))
    requires Inv(s) && Grown(s, s', p)
    requires s'.currentThread == s.currentThread && s'.currentProcess == s.currentProcess
    requires |s'.queues| == 5 && Pending(s'.queues) == Pending(s.queues) + multiset{s.nextThread}
    ensures Inv(s')
    ensures forall id: nat ::
        StateOf(s'.processes, id) == if id == s.nextThread then Some(Ready) else StateOf(s.processes, id)
  {
    hide Pending, Grown, StateOf, OwnerOf, IdsOk;
    GrownIds(s, s', p);
    forall id: nat
      ensures StateOf(s'.processes, id) == if id == s.nextThread then Some(Ready) else StateOf(s.processes, id)
      ensures OwnerOf(s.processes, id).Some? ==> OwnerOf(s'.processes, id) == OwnerOf(s.processes, id)
      ensures id >= s.nextThread ==> StateOf(s.processes, id) == None
    {
      GrownView(s, s', p, id);
    }
    assert s.nextThread !in Pending(s.queues);
  }

  lemma {:induction false} AddKeeps(s: Sched, priority: Priority)
    requires Inv(s)
    ensures Inv(AddSpec(s, priority))
    ensures forall id: nat ::
        StateOf(AddSpec(s, priority).processes, id) ==
          if id == s.nextThread then Some(Ready) else StateOf(s.processes, id)
  {
    assert |s.queues| == 5;
    AddGrown(s, priority);
    hide Inv, Pending, Grown, AddSpec, StateOf;
    PushPending(s.queues, priority.Queue(), s.nextThread);
    GrowKeeps(s, AddSpec(s, priority), (|s.processes|, 0));
  }

  lemma {:induction false} AddGrown(s: Sched, priority: Priority)
    requires |s.queues| == 5
    ensures var s' := AddSpec(s, priority);
      && Grown(s, s', (|s.processes|, 0)) && s'.queues == Push(s.queues, priority.Queue(), s.nextThread)
      && s'.currentThread == s.currentThread && s'.currentProcess == s.currentProcess
  {
    hide Push;
  }

  lemma {:induction false} CreateGrown(s: Sched, priority: Priority, i: nat)
    requires |s.queues| == 5 && s.currentProcess.Some? && FindProcess(s.processes, s.currentProcess.value, 0) == Some(i)
    ensures Grown(s, CreateSpec(s, priority), (i, |s.processes[i].threads|))
  {
    hide Push;
    var ps, ps' := s.processes, CreateSpec(s, priority).processes;
    assert ps' == ps[i := ps[i].(threads := ps[i].threads + [Thread(s.nextThread, Ready, priority, 0)])];
  }

  lemma {:induction false} CreateKeeps(s: Sched, priority: Priority)
    requires Inv(s)
    ensures Inv(CreateSpec(s, priority))
    ensures forall id: nat :: id < s.nextThread ==>
        StateOf(CreateSpec(s, priority).processes, id) == StateOf(s.processes, id)
  {
    hide Pending, Grown, Push, IdsOk, StateOf;
    var s' := CreateSpec(s, priority);
    if s' != s {
      var i := FindProcess(s.processes, s.currentProcess.value, 0).value;
      PushPending(s.queues, priority.Queue(), s.nextThread);
      CreateGrown(s, priority, i);
      GrowKeeps(s, s', (i, |s.processes[i].threads|));
    }
  }

  // ---------------------------------------------------------------------------------------------
  // Runs
  // ---------------------------------------------------------------------------------------------

  datatype Op =
    | Tick
    | Dispatch
    | Add(priority: Priority)
    | Create(priority: Priority)
    | Terminate(id: nat)
    | Block(id: nat)
    | Unblock(id: nat)
    | SetPriority(id: nat, priority: Priority)

  function Apply(s: Sched, op: Op): (r: Sched)
    requires |s.queues| == 5
    ensures |r.queues| == 5
  {
    match op
    case Tick => TickSpec(s)
    case Dispatch => if s.currentThread.None? then DispatchSpec(s) else s
    case Add(priority) => AddSpec(s, priority)
    case Create(priority) => CreateSpec(s, priority)
    case Terminate(id) => TerminateSpec(s, id)
    case Block(id) => BlockSpec(s, id)
    case Unblock(id) => UnblockSpec(s, id)
    case SetPriority(id, priority) => SetPrioritySpec(s, id, priority)
  }

  function Run(s: Sched, ops: seq<Op>): (r: Sched)
    requires |s.queues| == 5
    ensures |r.queues| == 5
  {
    if ops == [] then s else Apply(Run(s, ops[..|ops| - 1]), ops[|ops| - 1])
  }

  lemma {:induction false} RunConcat(s: Sched, a: seq<Op>, b: seq<Op>)
    requires |s.queues| == 5
    ensures Run(s, a + b) == Run(Run(s, a), b)
  {
    if b == [] {
      assert a + b == a;
    } else {
      assert (a + b)[..|a + b| - 1] == a + b[..|b| - 1];
      RunConcat(s, a, b[..|b| - 1]);
    }
  }

  lemma {:induction false} RunThree(s: Sched, a: Op, b: Op, c: Op)
    requires |s.queues| == 5
    ensures Run(s, [a, b, c]) == Apply(Apply(Apply(s, a), b), c)
  {
    assert [a, b, c][..2] == [a, b] && [a, b][..1] == [a] && [a][..0] == [];
    assert Run(s, []) == s && Run(s, [a]) == Apply(s, a) && Run(s, [a, b]) == Apply(Apply(s, a), b);
  }

  const BOOT: Sched := Sched([[], [], [], [], []], [], None, None, 0, 0, 1, 1)

  lemma {:induction false} TerminateKeeps(s: Sched, id: nat)
    requires Inv(s)
    ensures Inv(TerminateSpec(s, id))
    ensures forall t: nat :: StateOf(TerminateSpec(s, id).processes, t) ==
              if t == id && StateOf(s.processes, id).Some? then Some(Terminated) else StateOf(s.processes, t)
  {
    var found := Find(s.processes, id, 0);
    if found.Some? {
      StateAt(s.processes, id);
      hide Inv, StateOf, WithThread;
      EditKeeps(s, found.value, ThreadAt(s.processes, found.value).(state := Terminated), TerminateSpec(s, id));
    }
  }

  lemma {:induction false} SetPriorityKeeps(s: Sched, id: nat, priority: Priority)
    requires Inv(s)
    ensures Inv(SetPrioritySpec(s, id, priority))
    ensures forall t: nat :: StateOf(SetPrioritySpec(s, id, priority).processes, t) == StateOf(s.processes, t)
  {
    var found := Find(s.processes, id, 0);
    if found.Some? {
      StateAt(s.processes, id);
      hide Inv, StateOf, WithThread;
      var th := ThreadAt(s.processes, found.value).(priority := priority);
      EditKeeps(s, found.value, th, SetPrioritySpec(s, id, priority));
    }
  }

  lemma {:induction false} BlockKeeps(s: Sched, id: nat)
    requires Inv(s)
    ensures Inv(BlockSpec(s, id))
    ensures forall t: nat :: StateOf(BlockSpec(s, id).processes, t) ==
              if t == id && StateOf(s.processes, id) == Some(Running) then Some(Blocked) else StateOf(s.processes, t)
  {
    var found := Find(s.processes, id, 0);
    if found.Some? {
      var th := ThreadAt(s.processes, found.value);
      StateAt(s.processes, id);
      hide Inv, StateOf, WithThread;
      if th.state.Running? {
        EditKeeps(s, found.value, th.(state := Blocked), BlockSpec(s, id));
      }
    }
  }

  lemma {:induction false} UnblockKeeps(s: Sched, id: nat)
    requires Inv(s)
    ensures Inv(UnblockSpec(s, id))
    ensures forall t: nat :: StateOf(UnblockSpec(s, id).processes, t) ==
              if t == id && StateOf(s.processes, id) == Some(Blocked) then Some(Ready) else StateOf(s.processes, t)
  {
    assert |s.queues| == 5;
    var found := Find(s.processes, id, 0);
    if found.Some? {
      var th := ThreadAt(s.processes, found.value);
      StateAt(s.processes, id);
      hide Inv, StateOf, WithThread, Pending, Push;
      if th.state.Blocked? {
        PushPending(s.queues, th.priority.Queue(), id);
        EditKeeps(s, found.value, th.(state := Ready), UnblockSpec(s, id));
      }
    }
  }

  lemma {:induction false} ApplyKeeps(s: Sched, op: Op)
    requires Inv(s)
    ensures Inv(Apply(s, op))
  {
    hide TickSpec, DispatchSpec, AddSpec, CreateSpec, TerminateSpec, BlockSpec, UnblockSpec, SetPrioritySpec;
    hide IdsOk, QueuesOk;
    match op
    case Tick => TickKeeps(s);
    case Dispatch =>
      if s.currentThread.None? {
        DispatchKeeps(s);
      }
    case Add(priority) => AddKeeps(s, priority);
    case Create(priority) => CreateKeeps(s, priority);
    case Terminate(id) => TerminateKeeps(s, id);
    case Block(id) => BlockKeeps(s, id);
    case Unblock(id) => UnblockKeeps(s, id);
    case SetPriority(id, priority) => SetPriorityKeeps(s, id, priority);
  }

  lemma {:induction false} RunKeepsInv(s: Sched, ops: seq<Op>)
    requires Inv(s)
    ensures Inv(Run(s, ops))
  {
    if ops == [] {
    } else {
      RunKeepsInv(s, ops[..|ops| - 1]);
      ApplyKeeps(Run(s, ops[..|ops| - 1]), ops[|ops| - 1]);
    }
  }

  lemma BootOk()
    ensures Inv(BOOT)
  {}

  /**
   * In every reachable state a thread waits in at most one queue, once; the ready threads all wait, only ready
   * or terminated ones do; the one running thread is the current thread, and the current process owns it.
   */
  lemma {:induction false} WellFormed(ops: seq<Op>)
    ensures var s := Run(BOOT, ops); var ps := s.processes;
      && (forall id :: Pending(s.queues)[id] <= 1)
      && (forall p: (nat, nat) :: At(ps, p) && ThreadAt(ps, p).state.Ready? ==> ThreadAt(ps, p).id in Pending(s.queues))
      && (forall p: (nat, nat) :: At(ps, p) && ThreadAt(ps, p).id in Pending(s.queues) ==>
            ThreadAt(ps, p).state.Ready? || ThreadAt(ps, p).state.Terminated?)
      && (forall id: nat :: id in Pending(s.queues) ==> Find(ps, id, 0).Some?)
      && (forall p: (nat, nat) :: At(ps, p) && ThreadAt(ps, p).state.Running? ==>
            s.currentThread == Some(ThreadAt(ps, p).id))
      && (forall p: (nat, nat) :: At(ps, p) && s.currentThread == Some(ThreadAt(ps, p).id) ==>
            s.currentProcess == Some(ps[p.0].id))
  {
    BootOk();
    RunKeepsInv(BOOT, ops);
    PlacesOk(Run(BOOT, ops));
  }

  lemma {:induction false} PlacesOk(s: Sched)
    requires Inv(s)
    ensures forall p: (nat, nat) :: At(s.processes, p) ==>
        var th := ThreadAt(s.processes, p);
        && (th.state.Ready? ==> th.id in Pending(s.queues))
        && (th.id in Pending(s.queues) ==> th.state.Ready? || th.state.Terminated?)
        && (th.state.Running? ==> s.currentThread == Some(th.id))
        && (s.currentThread == Some(th.id) ==> s.currentProcess == Some(s.processes[p.0].id))
  {
    hide Pending;
    forall p: (nat, nat) | At(s.processes, p)
      ensures var th := ThreadAt(s.processes, p);
        StateOf(s.processes, th.id) == Some(th.state) && OwnerOf(s.processes, th.id) == Some(s.processes[p.0].id)
    {
      Found(s.processes, p);
    }
  }

  // ---------------------------------------------------------------------------------------------
  // Whom the tick runs
  // ---------------------------------------------------------------------------------------------

  /** The quantum runs out at the next tick. */
  predicate Expires(s: Sched) { s.quantum + 1 >= MAX_QUANTUM }

  /** The queue the running current thread goes back to. */
  ghost function ClassOf(s: Sched): nat
    requires s.currentThread.Some? && Find(s.processes, s.currentThread.value, 0).Some?
  {
    ThreadAt(s.processes, Find(s.processes, s.currentThread.value, 0).value).priority.Queue()
  }

  lemma {:induction false} DispatchRunsHighest(a: Sched)
    requires Inv(a) && NoneRunning(a)
    ensures var r := ChargeSpec(DispatchSpec(a));
      match FirstFilled(a.queues, 0)
      case None => r.currentThread == a.currentThread && NoneRunning(r)
      case Some(q) =>
        && r.currentThread == Some(Last(a.queues, q)) && StateOf(r.processes, Last(a.queues, q)) == Some(Running)
        && r.queues == Popped(a.queues, q) && forall k :: 0 <= k < q ==> r.queues[k] == []
  {
    hide DispatchSpec, ChargeSpec, StateOf, FirstFilled;
    assert |a.queues| == 5;
    DispatchKeeps(a);
    hide Inv;
    ChargeKeeps(DispatchSpec(a));
  }

  /** An expiry runs the last thread of the highest filled queue, so none of a higher class is left waiting. */
  lemma {:induction false} ExpiryRunsHighest(s: Sched)
    requires Inv(s) && Expires(s) && s.currentThread.Some?
    ensures var r, queues := TickSpec(s), PreemptSpec(s).queues;
      match FirstFilled(queues, 0)
      case None => r.currentThread == s.currentThread && NoneRunning(r)
      case Some(q) =>
        && r.currentThread == Some(Last(queues, q)) && StateOf(r.processes, Last(queues, q)) == Some(Running)
        && r.queues == Popped(queues, q) && forall k :: 0 <= k < q ==> r.queues[k] == []
  {
    ExpiryIs(s);
    hide TickSpec, PreemptSpec, DispatchSpec, ChargeSpec, Inv, StateOf, FirstFilled;
    var b := s.(ticks := s.ticks + 1, quantum := 0);
    ClockKeeps(s, s.ticks + 1, 0);
    PreemptKeeps(b);
    DispatchRunsHighest(PreemptSpec(b));
  }

  lemma ExpiryIs(s: Sched)
    requires |s.queues| == 5 && Expires(s) && s.currentThread.Some?
    ensures var b := s.(ticks := s.ticks + 1, quantum := 0);
      TickSpec(s) == ChargeSpec(DispatchSpec(PreemptSpec(b))) && PreemptSpec(b).queues == PreemptSpec(s).queues
  {
    hide ChargeSpec, DispatchSpec, WithThread, Push;
  }

  /**
   * Threads of one class do not take turns: a running thread whose quantum runs out is run again at once,
   * exactly if all queues of a higher class are empty; and then its own queue is left as it was.
   */
  lemma {:induction false} ExpiryKeepsCurrentExactly(s: Sched)
    requires Inv(s) && Expires(s) && s.currentThread.Some?
    requires StateOf(s.processes, s.currentThread.value) == Some(Running)
    ensures TickSpec(s).currentThread == s.currentThread <==> (forall k :: 0 <= k < ClassOf(s) ==> s.queues[k] == [])
    ensures TickSpec(s).currentThread == s.currentThread ==> TickSpec(s).queues == s.queues
  {
    ExpiryRunsHighest(s);
    var id, c := s.currentThread.value, ClassOf(s);
    assert PreemptSpec(s).queues == Push(s.queues, c, id);
    assert id !in Pending(s.queues);
    hide Inv, TickSpec, PreemptSpec, StateOf, Pending, Push, ClassOf;
    PushedComesFirst(s.queues, c, id);
  }

  /** What a dispatch finds after a thread has joined queue c. */
  lemma {:induction false} PushedComesFirst(queues: seq<seq<nat>>, c: nat, id: nat)
    requires |queues| == 5 && c < 5 && id !in Pending(queues)
    ensures var pushed := Push(queues, c, id);
      && FirstFilled(pushed, 0).Some?
      && (Last(pushed, FirstFilled(pushed, 0).value) == id <==> forall k :: 0 <= k < c ==> queues[k] == [])
      && (Last(pushed, FirstFilled(pushed, 0).value) == id ==> Popped(pushed, FirstFilled(pushed, 0).value) == queues)
  {
    var pushed := Push(queues, c, id);
    assert pushed[c] == queues[c] + [id];
    var q := FirstFilled(pushed, 0).value;
    if q == c {
      assert pushed[c][..|pushed[c]| - 1] == queues[c];
      assert Popped(pushed, c) == queues;
    } else {
      assert q < c && pushed[q] == queues[q];
      PopPending(queues, q);
      assert Last(queues, q) in Pending(queues);
    }
  }

  ghost function Ticks(n: nat): (ops: seq<Op>) {
    if n == 0 then [] else Ticks(n - 1) + [Tick]
  }

  /** The same threads stand in the same places, with the same priorities. */
  ghost predicate SameThreads(ps: seq<Process>, ps': seq<Process>) {
    && SameShape(ps, ps')
    && (forall p: (nat, nat) :: At(ps, p) ==>
          ThreadAt(ps', p).id == ThreadAt(ps, p).id && ThreadAt(ps', p).priority == ThreadAt(ps, p).priority)
  }

  lemma SameTransitive(a: seq<Process>, b: seq<Process>, c: seq<Process>)
    requires SameThreads(a, b) && SameThreads(b, c)
    ensures SameThreads(a, c)
  {
    assert forall p: (nat, nat) :: At(a, p) ==> At(b, p);
  }

  lemma PreemptSame(s: Sched)
    requires |s.queues| == 5
    ensures SameThreads(s.processes, PreemptSpec(s).processes)
  {}

  lemma EditSame(ps: seq<Process>, p: (nat, nat), th: Thread)
    requires At(ps, p) && ThreadAt(ps, p).id == th.id && ThreadAt(ps, p).priority == th.priority
    ensures SameThreads(ps, WithThread(ps, p, th))
  {}

  lemma DispatchSame(s: Sched)
    ensures SameThreads(s.processes, DispatchSpec(s).processes)
  {
    hide WithThread;
    if s.currentThread.Some? && Find(s.processes, s.currentThread.value, 0).Some? {
      var p := Find(s.processes, s.currentThread.value, 0).value;
      EditSame(s.processes, p, ThreadAt(s.processes, p).(state := Ready));
    }
    var ps := if s.currentThread.Some? then Readied(s.processes, s.currentThread.value) else s.processes;
    assert SameThreads(s.processes, ps);
    hide SameThreads, Readied;
    var first := FirstFilled(s.queues, 0);
    if first.Some? && Find(ps, Last(s.queues, first.value), 0).Some? {
      var p := Find(ps, Last(s.queues, first.value), 0).value;
      EditSame(ps, p, ThreadAt(ps, p).(state := Running));
      SameTransitive(s.processes, ps, DispatchSpec(s).processes);
    }
  }

  lemma ChargeSame(s: Sched)
    ensures SameThreads(s.processes, ChargeSpec(s).processes)
  {}

  lemma {:induction false} TickSame(s: Sched)
    requires |s.queues| == 5
    ensures SameThreads(s.processes, TickSpec(s).processes)
  {
    hide PreemptSpec, DispatchSpec, ChargeSpec, SameThreads;
    var t := s.(ticks := s.ticks + 1, quantum := s.quantum + 1);
    if t.quantum < MAX_QUANTUM {
      ChargeSame(t);
    } else if t.currentThread.None? {
      ChargeSame(t.(quantum := 0));
    } else {
      var a := PreemptSpec(t.(quantum := 0));
      PreemptSame(t.(quantum := 0));
      DispatchSame(a);
      ChargeSame(DispatchSpec(a));
      SameTransitive(s.processes, a.processes, DispatchSpec(a).processes);
      SameTransitive(s.processes, DispatchSpec(a).processes, TickSpec(s).processes);
    }
  }

  /** The current thread is running, and nothing of a higher class waits. */
  ghost predicate Reigns(s: Sched, id: nat) {
    && Inv(s) && s.currentThread == Some(id) && StateOf(s.processes, id) == Some(Running)
    && forall k :: 0 <= k < ClassOf(s) ==> s.queues[k] == []
  }

  lemma {:induction false} ReignGoesOn(s: Sched, id: nat)
    requires Reigns(s, id)
    ensures Reigns(TickSpec(s), id) && TickSpec(s).queues == s.queues
  {
    assert |s.queues| == 5;
    hide TickSpec, IdsOk, QueuesOk, CurrentOk;
    TickKeeps(s);
    TickSame(s);
    var p := Find(s.processes, id, 0).value;
    assert Find(TickSpec(s).processes, id, 0) == Some(p) by {
      UniqueOf(TickSpec(s));
      Found(TickSpec(s).processes, p);
    }
    if Expires(s) {
      ExpiryKeepsCurrentExactly(s);
      ExpiryRuns(s);
    } else {
      QuietTick(s);
    }
  }

  lemma UniqueOf(s: Sched)
    requires Inv(s)
    ensures Unique(s.processes)
  {}

  /** Whoever is current after an expiry that found a thread is running. */
  lemma {:induction false} ExpiryRuns(s: Sched)
    requires Inv(s) && Expires(s) && s.currentThread.Some?
    requires StateOf(s.processes, s.currentThread.value) == Some(Running)
    ensures var r := TickSpec(s); r.currentThread.Some? && StateOf(r.processes, r.currentThread.value) == Some(Running)
  {
    ExpiryRunsHighest(s);
    var queues := PreemptSpec(s).queues;
    assert queues[ClassOf(s)] == s.queues[ClassOf(s)] + [s.currentThread.value];
  }

  /** A tick within the quantum only counts. */
  lemma {:induction false} QuietTick(s: Sched)
    requires Inv(s) && !Expires(s)
    ensures SameView(s, TickSpec(s)) && TickSpec(s).quantum == s.quantum + 1
  {
    assert |s.queues| == 5;
    hide TickSpec, ChargeSpec, Inv, StateOf;
    var t := s.(ticks := s.ticks + 1, quantum := s.quantum + 1);
    NoExpiryIs(s);
    ClockKeeps(s, s.ticks + 1, s.quantum + 1);
    ChargeKeeps(t);
  }

  lemma NoExpiryIs(s: Sched)
    requires |s.queues| == 5 && !(Expires(s) && s.currentThread.Some?)
    ensures TickSpec(s) == ChargeSpec(s.(ticks := s.ticks + 1, quantum := if Expires(s) then 0 else s.quantum + 1))
  {
    hide ChargeSpec;
  }

  /**
   * Over any number of ticks with no other call between them, a running thread with nothing of a higher class
   * waiting stays the running one and the queues stay as they are: threads of its own class wait forever.
   */
  lemma {:induction false} NobodyTakesTurns(s: Sched, id: nat, n: nat)
    requires Reigns(s, id)
    ensures var r := Run(s, Ticks(n));
      r.currentThread == Some(id) && StateOf(r.processes, id) == Some(Running) && r.queues == s.queues && Reigns(r, id)
  {
    hide TickSpec, Inv, StateOf, ClassOf;
    if n == 0 {
    } else {
      NobodyTakesTurns(s, id, n - 1);
      assert Ticks(n)[..|Ticks(n)| - 1] == Ticks(n - 1);
      ReignGoesOn(Run(s, Ticks(n - 1)), id);
    }
  }

  lemma TickClock(s: Sched)
    requires |s.queues| == 5
    ensures TickSpec(s).quantum == if Expires(s) then 0 else s.quantum + 1
  {
    hide Find, WithThread, FindProcess, RunningIn;
  }

  lemma QuantumWraps(a: nat)
    ensures (a + 1) % MAX_QUANTUM == if a % MAX_QUANTUM + 1 >= MAX_QUANTUM then 0 else a % MAX_QUANTUM + 1
  {}

  lemma RunNothing(s: Sched)
    requires |s.queues| == 5
    ensures Run(s, Ticks(0)) == s
  {}

  lemma TickOn(s: Sched, n: nat)
    requires |s.queues| == 5 && n > 0
    ensures Run(s, Ticks(n)) == TickSpec(Run(s, Ticks(n - 1)))
  {
    hide TickSpec;
    assert Ticks(n)[..|Ticks(n)| - 1] == Ticks(n - 1);
  }

  /**
   * With no call between them the quantum runs out at every tenth tick, whatever is scheduled meanwhile; after a
   * call that used the quantum up, at the first tick and every tenth from there.
   */
  lemma {:induction false} EveryTenthTick(s: Sched, n: nat)
    requires |s.queues| == 5
    ensures var q := if s.quantum < 10 then s.quantum else 9;
      && (n > 0 ==> Run(s, Ticks(n)).quantum == (q + n) % 10)
      && (Expires(Run(s, Ticks(n))) <==> (q + n + 1) % 10 == 0)
  {
    hide Run, TickSpec;
    var q := if s.quantum < MAX_QUANTUM then s.quantum else MAX_QUANTUM - 1;
    QuantumWraps(q + n);
    if n == 0 {
      RunNothing(s);
    } else {
      EveryTenthTick(s, n - 1);
      QuantumWraps(q + n - 1);
      TickOn(s, n);
      TickClock(Run(s, Ticks(n - 1)));
      if n == 1 {
        RunNothing(s);
      }
    }
  }

  /** After two kernel threads of one priority and the first dispatch. */
  ghost function TwoAdded(priority: Priority): (r: Sched)
    ensures |r.queues| == 5
  {
    Run(BOOT, [Add(priority), Add(priority), Dispatch])
  }

  /** Ready queues of which only queue q holds threads. */
  function Only(q: nat, ids: seq<nat>): (r: seq<seq<nat>>)
    requires q < 5
    ensures |r| == 5 && forall k :: 0 <= k < 5 ==> r[k] == if k == q then ids else []
  {
    [[], [], [], [], []][q := ids]
  }

  /** The kernel process with the k-th ids. */
  function Kernel(k: nat, state: ThreadState, priority: Priority): Process {
    Process(k, [Thread(k, state, priority, 0)], 0)
  }

  lemma {:induction false} TwoAddedIs(priority: Priority)
    ensures TwoAdded(priority) == Sched(
      Only(priority.Queue(), [1]), [Kernel(1, Ready, priority), Kernel(2, Running, priority)],
      Some(2), Some(2), 0, 0, 3, 3)
  {
    hide AddSpec, DispatchSpec;
    RunThree(BOOT, Add(priority), Add(priority), Dispatch);
    TwoAdds(priority);
    SecondRuns(priority);
  }

  lemma {:induction false} TwoAdds(priority: Priority)
    ensures AddSpec(AddSpec(BOOT, priority), priority) == Sched(
      Only(priority.Queue(), [1, 2]), [Kernel(1, Ready, priority), Kernel(2, Ready, priority)], None, None, 0, 0, 3, 3)
  {
    OneAdd(priority);
    var q, s := priority.Queue(), AddSpec(BOOT, priority);
    hide Only;
    assert [1] + [2] == [1, 2];
    assert AddSpec(s, priority).queues == Only(q, [1, 2]);
  }

  lemma {:induction false} OneAdd(priority: Priority)
    ensures AddSpec(BOOT, priority) ==
            Sched(Only(priority.Queue(), [1]), [Kernel(1, Ready, priority)], None, None, 0, 0, 2, 2)
  {
    var q, first := priority.Queue(), Kernel(1, Ready, priority);
    assert BOOT.queues[q] + [1] == [1] && [] + [first] == [first];
    assert AddSpec(BOOT, priority).queues == Only(q, [1]);
  }

  /** The dispatch takes the last one. */
  lemma {:induction false} SecondRuns(priority: Priority)
    ensures var first, second := Kernel(1, Ready, priority), Kernel(2, Ready, priority);
      DispatchSpec(Sched(Only(priority.Queue(), [1, 2]), [first, second], None, None, 0, 0, 3, 3)) == Sched(
        Only(priority.Queue(), [1]), [first, Kernel(2, Running, priority)], Some(2), Some(2), 0, 0, 3, 3)
  {
    hide Only;
    var q := priority.Queue();
    var queues, first, second := Only(q, [1, 2]), Kernel(1, Ready, priority), Kernel(2, Ready, priority);
    assert queues[q] == [1, 2] && FirstFilled(queues, 0).Some?;
    assert FirstFilled(queues, 0).value == q by {
      assert queues[FirstFilled(queues, 0).value] != [];
    }
    assert [1, 2][..1] == [1] && Popped(queues, q) == Only(q, [1]);
    assert IndexOf(first.threads, 2, 0) == None && IndexOf(second.threads, 2, 0) == Some(0);
    assert Find([first, second], 2, 0) == Some((1, 0));
    var th := Thread(2, Running, priority, 0);
    assert second.threads[0 := th] == [th];
    assert WithThread([first, second], (1, 0), th) == [first, Kernel(2, Running, priority)];
  }

  /**
   * It happens: of two threads of one class the one added last runs, and the other one waits through any number
   * of ticks.
   */
  lemma {:induction false} FirstComeNeverServed(priority: Priority, n: nat)
    ensures var s := TwoAdded(priority); var r := Run(s, Ticks(n));
      Reigns(s, 2) && r.currentThread == Some(2) && r.queues == Only(priority.Queue(), [1])
  {
    hide Reigns, Run, Only, TwoAdded;
    SecondReigns(priority);
    NobodyTakesTurns(TwoAdded(priority), 2, n);
  }

  lemma {:induction false} SecondReigns(priority: Priority)
    ensures Reigns(TwoAdded(priority), 2) && TwoAdded(priority).queues == Only(priority.Queue(), [1])
  {
    var s := TwoAdded(priority);
    TwoAddedInv(priority);
    UniqueOf(s);
    hide Inv, TwoAdded, Unique, Only;
    TwoAddedIs(priority);
    Found(s.processes, (1, 0));
    StateAt(s.processes, 2);
  }

  lemma TwoAddedInv(priority: Priority)
    ensures Inv(TwoAdded(priority))
  {
    hide Inv, Run;
    BootOk();
    RunKeepsInv(BOOT, [Add(priority), Add(priority), Dispatch]);
  }
}

/** The priority scheduler: process and thread tables, ready queues, the timer tick and the thread calls. */
module Scheduling {
  import opened Common

  datatype Priority = RealTime | High | Normal | Low | Idle {
    /** Which ready queue a priority goes to; lower is served first. */
    function Queue(): (q: nat)
      ensures q < 5
    {
      match this case RealTime => 0 case High => 1 case Normal => 2 case Low => 3 case Idle => 4
    }
  }

  datatype ThreadState = Ready | Running | Blocked | Terminated | Sleeping

  datatype Thread = Thread(id: nat, state: ThreadState, priority: Priority, runTime: nat)

  datatype Process = Process(id: nat, threads: seq<Thread>, totalRunTime: nat)

  /** The scheduler's fields, the tick counter and the two id generators. */
  datatype Sched = Sched(
    queues: seq<seq<nat>>,
    processes: seq<Process>,
    currentThread: Option<nat>,
    currentProcess: Option<nat>,
    quantum: nat,
    ticks: nat,
    nextThread: nat,
    nextProcess: nat)

  const MAX_QUANTUM: nat := 10

  // ---------------------------------------------------------------------------------------------
  // Looking up
  // ---------------------------------------------------------------------------------------------

  predicate At(ps: seq<Process>, p: (nat, nat)) { p.0 < |ps| && p.1 < |ps[p.0].threads| }

  function ThreadAt(ps: seq<Process>, p: (nat, nat)): Thread
    requires At(ps, p)
  {
    ps[p.0].threads[p.1]
  }

  /** The first thread with this id, from index j on. */
  function IndexOf(threads: seq<Thread>, id: nat, j: nat): (r: Option<nat>)
    ensures r.Some? ==> j <= r.value < |threads| && threads[r.value].id == id
    ensures r.None? ==> forall k :: j <= k < |threads| ==> threads[k].id != id
    decreases |threads| - j
  {
    if j >= |threads| then None
    else if threads[j].id == id then Some(j)
    else IndexOf(threads, id, j + 1)
  }

  /** The first process that has a thread with this id, from index i on, and the thread in it. */
  function Find(ps: seq<Process>, id: nat, i: nat): (r: Option<(nat, nat)>)
    ensures r.Some? ==> i <= r.value.0 && At(ps, r.value) && ThreadAt(ps, r.value).id == id
    ensures r.None? ==> forall p: (nat, nat) :: i <= p.0 && At(ps, p) ==> ThreadAt(ps, p).id != id
    decreases |ps| - i
  {
    if i >= |ps| then None
    else
      match IndexOf(ps[i].threads, id, 0)
      case Some(j) => Some((i, j))
      case None => Find(ps, id, i + 1)
  }

  /** The first process with this id, from index i on. */
  function FindProcess(ps: seq<Process>, pid: nat, i: nat): (r: Option<nat>)
    ensures r.Some? ==> i <= r.value < |ps| && ps[r.value].id == pid
    ensures r.None? ==> forall k :: i <= k < |ps| ==> ps[k].id != pid
    decreases |ps| - i
  {
    if i >= |ps| then None
    else if ps[i].id == pid then Some(i)
    else FindProcess(ps, pid, i + 1)
  }

  /** The first running thread of a process, from index j on. */
  function RunningIn(threads: seq<Thread>, j: nat): (r: Option<nat>)
    ensures r.Some? ==> j <= r.value < |threads| && threads[r.value].state.Running?
    ensures r.None? ==> forall k :: j <= k < |threads| ==> !threads[k].state.Running?
    decreases |threads| - j
  {
    if j >= |threads| then None
    else if threads[j].state.Running? then Some(j)
    else RunningIn(threads, j + 1)
  }

  /** The table with another thread in one place. */
  function WithThread(ps: seq<Process>, p: (nat, nat), th: Thread): (r: seq<Process>)
    requires At(ps, p)
    ensures |r| == |ps|
  {
    ps[p.0 := ps[p.0].(threads := ps[p.0].threads[p.1 := th])]
  }

  // ---------------------------------------------------------------------------------------------
  // The operations on values
  // ---------------------------------------------------------------------------------------------

  function Push(queues: seq<seq<nat>>, q: nat, id: nat): (r: seq<seq<nat>>)
    requires q < |queues|
    ensures |r| == |queues|
  {
    queues[q := queues[q] + [id]]
  }

  /** The first queue, from q on, that holds a thread. */
  function FirstFilled(queues: seq<seq<nat>>, q: nat): (r: Option<nat>)
    ensures r.Some? ==> q <= r.value < |queues| && queues[r.value] != []
    ensures r.Some? ==> forall k :: q <= k < r.value ==> queues[k] == []
    ensures r.None? ==> forall k :: q <= k < |queues| ==> queues[k] == []
    decreases |queues| - q
  {
    if q >= |queues| then None
    else if queues[q] != [] then Some(q)
    else FirstFilled(queues, q + 1)
  }

  function Popped(queues: seq<seq<nat>>, q: nat): (r: seq<seq<nat>>)
    requires q < |queues| && queues[q] != []
    ensures |r| == |queues|
  {
    queues[q := queues[q][..|queues[q]| - 1]]
  }

  function Last(queues: seq<seq<nat>>, q: nat): nat
    requires q < |queues| && queues[q] != []
  {
    queues[q][|queues[q]| - 1]
  }

  /** A running thread becomes ready; nothing else changes. */
  function Readied(ps: seq<Process>, id: nat): seq<Process> {
    match Find(ps, id, 0)
    case None => ps
    case Some(p) => if ThreadAt(ps, p).state.Running? then WithThread(ps, p, ThreadAt(ps, p).(state := Ready)) else ps
  }

  function SwitchSpec(s: Sched, id: nat): (r: Sched)
    ensures |r.queues| == |s.queues|
  {
    var ps := if s.currentThread.Some? then Readied(s.processes, s.currentThread.value) else s.processes;
    match Find(ps, id, 0)
    case None => s.(processes := ps)
    case Some(p) =>
      s.(processes := WithThread(ps, p, ThreadAt(ps, p).(state := Running)),
         currentThread := Some(id), currentProcess := Some(ps[p.0].id))
  }

  /** `schedule`, and the switch to its choice. */
  function DispatchSpec(s: Sched): (r: Sched)
    ensures |r.queues| == |s.queues|
  {
    match FirstFilled(s.queues, 0)
    case None => s
    case Some(q) => SwitchSpec(s.(queues := Popped(s.queues, q)), Last(s.queues, q))
  }

  /** The running current thread goes back to the queue of its priority. */
  function PreemptSpec(s: Sched): (r: Sched)
    requires |s.queues| == 5
    ensures |r.queues| == 5
  {
    if s.currentThread.None? then s
    else
      match Find(s.processes, s.currentThread.value, 0)
      case None => s
      case Some(p) =>
        var th := ThreadAt(s.processes, p);
        if th.state.Running? then
          s.(processes := WithThread(s.processes, p, th.(state := Ready)),
             queues := Push(s.queues, th.priority.Queue(), th.id))
        else s
  }

  /** One tick is charged to the current process, and to its running thread. */
  function ChargeSpec(s: Sched): (r: Sched)
    ensures |r.queues| == |s.queues|
  {
    if s.currentProcess.None? then s
    else
      match FindProcess(s.processes, s.currentProcess.value, 0)
      case None => s
      case Some(i) =>
        var pr := s.processes[i];
        var threads := match RunningIn(pr.threads, 0)
                       case None => pr.threads
                       case Some(j) => pr.threads[j := pr.threads[j].(runTime := pr.threads[j].runTime + 1)];
        s.(processes := s.processes[i := pr.(threads := threads, totalRunTime := pr.totalRunTime + 1)])
  }

  function TickSpec(s: Sched): (r: Sched)
    requires |s.queues| == 5
    ensures |r.queues| == 5
  {
    var t := s.(ticks := s.ticks + 1, quantum := s.quantum + 1);
    if t.quantum < MAX_QUANTUM then ChargeSpec(t)
    else if t.currentThread.None? then ChargeSpec(t.(quantum := 0))
    else ChargeSpec(DispatchSpec(PreemptSpec(t.(quantum := 0))))
  }

  /** `add_process`: the first thread is queued if it is ready. */
  function AddProcessSpec(s: Sched, process: Process): (r: Sched)
    requires |s.queues| == 5
    ensures |r.queues| == 5
  {
    var main := process.threads;
    var queues := if main != [] && main[0].state.Ready? then Push(s.queues, main[0].priority.Queue(), main[0].id)
                  else s.queues;
    s.(queues := queues, processes := s.processes + [process])
  }

  /** A new process with one ready thread, and the two ids taken for it. */
  function AddSpec(s: Sched, priority: Priority): (r: Sched)
    requires |s.queues| == 5
    ensures |r.queues| == 5
  {
    AddProcessSpec(
      s.(nextThread := s.nextThread + 1, nextProcess := s.nextProcess + 1),
      Process(s.nextProcess, [Thread(s.nextThread, Ready, priority, 0)], 0))
  }

  function CreateSpec(s: Sched, priority: Priority): Sched
    requires |s.queues| == 5
  {
    if s.currentProcess.None? then s
    else
      match FindProcess(s.processes, s.currentProcess.value, 0)
      case None => s
      case Some(i) =>
        var pr := s.processes[i];
        s.(queues := Push(s.queues, priority.Queue(), s.nextThread),
           processes := s.processes[i := pr.(threads := pr.threads + [Thread(s.nextThread, Ready, priority, 0)])],
           nextThread := s.nextThread + 1)
  }

  function TerminateSpec(s: Sched, id: nat): Sched {
    match Find(s.processes, id, 0)
    case None => s
    case Some(p) => s.(processes := WithThread(s.processes, p, ThreadAt(s.processes, p).(state := Terminated)))
  }

  function BlockSpec(s: Sched, id: nat): Sched {
    match Find(s.processes, id, 0)
    case None => s
    case Some(p) =>
      if ThreadAt(s.processes, p).state.Running? then
        s.(processes := WithThread(s.processes, p, ThreadAt(s.processes, p).(state := Blocked)), quantum := MAX_QUANTUM)
      else s
  }

  function UnblockSpec(s: Sched, id: nat): Sched
    requires |s.queues| == 5
  {
    match Find(s.processes, id, 0)
    case None => s
    case Some(p) =>
      var th := ThreadAt(s.processes, p);
      if th.state.Blocked? then
        s.(processes := WithThread(s.processes, p, th.(state := Ready)),
           queues := Push(s.queues, th.priority.Queue(), id))
      else s
  }

  function SetPrioritySpec(s: Sched, id: nat, priority: Priority): Sched {
    match Find(s.processes, id, 0)
    case None => s
    case Some(p) => s.(processes := WithThread(s.processes, p, ThreadAt(s.processes, p).(priority := priority)))
  }

  // ---------------------------------------------------------------------------------------------
  // The scheduler
  // ---------------------------------------------------------------------------------------------

  class Scheduler {
    var readyQueues: seq<seq<nat>>
    var processes: seq<Process>
    var currentThread: Option<nat>
    var currentProcess: Option<nat>
    var timeQuantum: nat
    var tickCount: nat
    var nextThread: nat
    var nextProcess: nat

    ghost function State(): Sched
      reads this
    {
      Sched(readyQueues, processes, currentThread, currentProcess, timeQuantum, tickCount, nextThread, nextProcess)
    }

    ghost predicate Valid()
      reads this
    {
      |readyQueues| == 5
    }

    constructor ()
      ensures Valid() && State() == Sched([[], [], [], [], []], [], None, None, 0, 0, 1, 1)
    {
      readyQueues, processes, currentThread, currentProcess := [[], [], [], [], []], [], None, None;
      timeQuantum, tickCount, nextThread, nextProcess := 0, 0, 1, 1;
    }

    method AddToReadyQueue(id: nat, priority: Priority)
      requires Valid()
      modifies this`readyQueues
      ensures Valid() && readyQueues == Push(old(readyQueues), priority.Queue(), id)
    {
      var index := priority.Queue();
      readyQueues := readyQueues[index := readyQueues[index] + [id]];
    }

    method AddProcess(process: Process)
      requires Valid()
      modifies this`readyQueues, this`processes
      ensures Valid() && State() == AddProcessSpec(old(State()), process)
    {
      if process.threads != [] {
        var thread := process.threads[0];
        if thread.state.Ready? {
          AddToReadyQueue(thread.id, thread.priority);
        }
      }
      processes := processes + [process];
    }

    /** A new process with one ready thread, under the next ids. */
    method NewKernelThread(priority: Priority) returns (process: Process)
      modifies this`nextThread, this`nextProcess
      ensures process == Process(old(nextProcess), [Thread(old(nextThread), Ready, priority, 0)], 0)
      ensures nextThread == old(nextThread) + 1 && nextProcess == old(nextProcess) + 1
    {
      process := Process(nextProcess, [], 0);
      nextProcess := nextProcess + 1;
      process := process.(threads := [Thread(nextThread, Ready, priority, 0)]);
      nextThread := nextThread + 1;
    }

    method AddKernelThread(priority: Priority)
      requires Valid()
      modifies this
      ensures Valid() && State() == AddSpec(old(State()), priority)
    {
      var process := NewKernelThread(priority);
      AddProcess(process);
    }

    /** Takes the last thread of the first queue that is not empty. */
    method Schedule() returns (r: Option<nat>)
      requires Valid()
      modifies this`readyQueues
      ensures Valid()
      ensures match FirstFilled(old(readyQueues), 0)
              case None => r == None && readyQueues == old(readyQueues)
              case Some(q) => r == Some(Last(old(readyQueues), q)) && readyQueues == Popped(old(readyQueues), q)
    {
      for q := 0 to |readyQueues|
        invariant readyQueues == old(readyQueues)
        invariant forall k :: 0 <= k < q ==> readyQueues[k] == []
      {
        if readyQueues[q] != [] {
          var id := readyQueues[q][|readyQueues[q]| - 1];
          readyQueues := readyQueues[q := readyQueues[q][..|readyQueues[q]| - 1]];
          return Some(id);
        }
      }
      return None;
    }

    method SwitchToThread(id: nat)
      requires Valid()
      modifies this
      ensures Valid() && State() == SwitchSpec(old(State()), id)
    {
      if currentThread.Some? {
        var before := Find(processes, currentThread.value, 0);
        if before.Some? {
          var thread := ThreadAt(processes, before.value);
          if thread.state.Running? {
            processes := WithThread(processes, before.value, thread.(state := Ready));
          }
        }
      }
      var p := Find(processes, id, 0);
      if p.Some? {
        currentProcess := Some(processes[p.value.0].id);
        processes := WithThread(processes, p.value, ThreadAt(processes, p.value).(state := Running));
        currentThread := Some(id);
      }
    }

    /** The first dispatch, which nothing else makes: `schedule` and a switch while there is no current thread. */
    method Dispatch()
      requires Valid() && currentThread.None?
      modifies this
      ensures Valid() && State() == DispatchSpec(old(State()))
    {
      var next := Schedule();
      if next.Some? {
        SwitchToThread(next.value);
      }
    }

    method Tick()
      requires Valid()
      modifies this
      ensures Valid() && State() == TickSpec(old(State()))
    {
      hide ChargeSpec, SwitchSpec, WithThread;
      tickCount := tickCount + 1;
      timeQuantum := timeQuantum + 1;
      if timeQuantum >= MAX_QUANTUM {
        timeQuantum := 0;
        if currentThread.Some? {
          var p := Find(processes, currentThread.value, 0);
          if p.Some? {
            var thread := ThreadAt(processes, p.value);
            if thread.state.Running? {
              processes := WithThread(processes, p.value, thread.(state := Ready));
              AddToReadyQueue(thread.id, thread.priority);
            }
          }
          var next := Schedule();
          if next.Some? {
            SwitchToThread(next.value);
          }
        }
      }
      Charge();
    }

    /** The statistics at the end of a tick. */
    method Charge()
      requires Valid()
      modifies this`processes
      ensures Valid() && State() == ChargeSpec(old(State()))
    {
      if currentProcess.Some? {
        var i := FindProcess(processes, currentProcess.value, 0);
        if i.Some? {
          var process := processes[i.value];
          process := process.(totalRunTime := process.totalRunTime + 1);
          var j := RunningIn(process.threads, 0);
          if j.Some? {
            var thread := process.threads[j.value];
            process := process.(threads := process.threads[j.value := thread.(runTime := thread.runTime + 1)]);
          }
          processes := processes[i.value := process];
        }
      }
    }

    method CreateThread(priority: Priority) returns (id: Option<nat>)
      requires Valid()
      modifies this
      ensures Valid() && State() == CreateSpec(old(State()), priority)
      ensures id == if State() == old(State()) then None else Some(old(nextThread))
    {
      id := None;
      if currentProcess.Some? {
        var i := FindProcess(processes, currentProcess.value, 0);
        if i.Some? {
          var process := processes[i.value];
          var thread := Thread(nextThread, Ready, priority, 0);
          nextThread := nextThread + 1;
          processes := processes[i.value := process.(threads := process.threads + [thread])];
          AddToReadyQueue(thread.id, priority);
          id := Some(thread.id);
        }
      }
    }

    method TerminateThread(id: nat) returns (ok: bool)
      requires Valid()
      modifies this`processes
      ensures Valid() && State() == TerminateSpec(old(State()), id) && (ok <==> Find(old(processes), id, 0).Some?)
    {
      var p := Find(processes, id, 0);
      ok := p.Some?;
      if ok {
        processes := WithThread(processes, p.value, ThreadAt(processes, p.value).(state := Terminated));
      }
    }

    method BlockThread(id: nat) returns (ok: bool)
      requires Valid()
      modifies this`processes, this`timeQuantum
      ensures Valid() && State() == BlockSpec(old(State()), id) && (ok <==> Find(old(processes), id, 0).Some?)
    {
      var p := Find(processes, id, 0);
      ok := p.Some?;
      if ok {
        var thread := ThreadAt(processes, p.value);
        if thread.state.Running? {
          processes := WithThread(processes, p.value, thread.(state := Blocked));
          timeQuantum := MAX_QUANTUM;
        }
      }
    }

    method UnblockThread(id: nat) returns (ok: bool)
      requires Valid()
      modifies this`processes, this`readyQueues
      ensures Valid() && State() == UnblockSpec(old(State()), id) && (ok <==> Find(old(processes), id, 0).Some?)
    {
      var p := Find(processes, id, 0);
      ok := p.Some?;
      if ok {
        var thread := ThreadAt(processes, p.value);
        if thread.state.Blocked? {
          processes := WithThread(processes, p.value, thread.(state := Ready));
          AddToReadyQueue(id, thread.priority);
        }
      }
    }

    method SetPriority(id: nat, priority: Priority) returns (ok: bool)
      requires Valid()
      modifies this`processes
      ensures Valid() && State() == SetPrioritySpec(old(State()), id, priority)
      ensures ok <==> Find(old(processes), id, 0).Some?
    {
      var p := Find(processes, id, 0);
      ok := p.Some?;
      if ok {
        processes := WithThread(processes, p.value, ThreadAt(processes, p.value).(priority := priority));
      }
    }
  }
}

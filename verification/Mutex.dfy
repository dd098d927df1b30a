/** The interrupt-disabling mutex: any number of mutexes, of processors and of nested guards. */
module MutexSync {
  import opened Common

  /** Where a processor is inside `lock`, `try_lock` or the drop of a guard; `saved` is interrupts_were_enabled. */
  datatype Pc =
    | Ask(once: bool)                   // read the interrupt flag; `once` for try_lock
    | Disable(saved: bool, once: bool)  // interrupts::disable
    | Cas(saved: bool, once: bool)      // compare_exchange of `locked`
    | Enable                            // contended: interrupts::enable
    | Halt                              // contended: hlt
    | Wake                              // contended: interrupts::disable
    | GiveUp                            // try_lock failed: interrupts::enable
    | Granted(saved: bool)              // a guard is returned
    | Failed                            // try_lock returns None
    | Release(saved: bool)              // drop: store false
    | Restore                           // drop: interrupts::enable
    | Released                          // the drop is over
  {
    predicate Midway() { !Granted? && !Failed? && !Release? && !Released? }
  }

  datatype Shared = Shared(locked: bool, enabled: bool)

  datatype Effect = Effect(shared: Shared, pc: Pc)

  /** One operation on the mutex or on the interrupt flag; the weak exchange of `lock` may fail spuriously. */
  function LockStep(sh: Shared, pc: Pc, spurious: bool): Effect {
    match pc
    case Ask(once) => Effect(sh, Disable(sh.enabled, once))
    case Disable(saved, once) => Effect(sh.(enabled := false), Cas(saved, once))
    case Cas(saved, once) =>
      if !sh.locked && (once || !spurious) then Effect(sh.(locked := true), Granted(saved))
      else if once then Effect(sh, if saved then GiveUp else Failed)
      else Effect(sh, if saved then Enable else pc)
    case Enable => Effect(sh.(enabled := true), Halt)
    case Halt => Effect(sh, Wake)
    case Wake => Effect(sh.(enabled := false), Cas(true, false))
    case GiveUp => Effect(sh.(enabled := true), Failed)
    case Release(saved) => Effect(sh.(locked := false), if saved then Restore else Released)
    case Restore => Effect(sh.(enabled := true), Released)
    case Granted(_) => Effect(sh, pc)
    case Failed => Effect(sh, pc)
    case Released => Effect(sh, pc)
  }

  class Processor {
    var enabled: bool

    constructor (enabled: bool)
      ensures this.enabled == enabled
    {
      this.enabled := enabled;
    }
  }

  class Mutex<T> {
    var locked: bool
    var data: T

    constructor (data: T)
      ensures !locked && this.data == data
    {
      locked, this.data := false, data;
    }

    /** Runs the next operation of processor `cpu`, which is at `pc` of a call on this mutex. */
    method Execute(cpu: Processor, pc: Pc, spurious: bool) returns (next: Pc)
      modifies this`locked, cpu
      ensures Effect(Shared(locked, cpu.enabled), next) == LockStep(old(Shared(locked, cpu.enabled)), pc, spurious)
    {
      next := pc;
      match pc
      case Ask(once) =>
        next := Disable(cpu.enabled, once);
      case Disable(saved, once) =>
        cpu.enabled := false;
        next := Cas(saved, once);
      case Cas(saved, once) =>
        if !locked && (once || !spurious) {
          locked := true;
          next := Granted(saved);
        } else if once {
          next := if saved then GiveUp else Failed;
        } else if saved {
          next := Enable;
        }
      case Enable =>
        cpu.enabled, next := true, Halt;
      case Halt =>
        next := Wake;
      case Wake =>
        cpu.enabled, next := false, Cas(true, false);
      case GiveUp =>
        cpu.enabled, next := true, Failed;
      case Release(saved) =>
        locked := false;
        next := if saved then Restore else Released;
      case Restore =>
        cpu.enabled, next := true, Released;
      case Granted(_) =>
      case Failed =>
      case Released =>
    }
  }

  // ---------------------------------------------------------------------------------------------
  // The whole machine
  // ---------------------------------------------------------------------------------------------

  /** An update made through a guard: which acquisition of the mutex it belongs to, and what it does. */
  datatype Update<U> = Update(ticket: nat, op: U)

  /** A mutex, the number of its acquisitions so far, and the updates made (history variables). */
  datatype Lock<D, U> = Lock(locked: bool, data: D, initial: D, acquired: nat, log: seq<Update<U>>)

  /** A live guard; `local` is what its holder has read through it and not yet written back. */
  datatype Guard<D> = Guard(mutex: nat, saved: bool, ticket: nat, local: Option<D>)

  datatype Call = Call(mutex: nat, pc: Pc)

  /** A processor: its flag, the call it is in, its live guards, and the flag it started with. */
  datatype Cpu<D> = Cpu(enabled: bool, call: Option<Call>, guards: seq<Guard<D>>, original: bool)

  datatype State<D, U> = State(locks: seq<Lock<D, U>>, cpus: seq<Cpu<D>>)

  datatype Action<U> =
    | Begin(mutex: nat, once: bool)   // call lock or try_lock
    | Go(spurious: bool)              // next operation of the call under way
    | Load(k: nat)                    // read the data through guard k
    | Store(k: nat, op: U)            // write back the value read, updated
    | Drop(k: nat)                    // drop guard k

  datatype Move<U> = Move(c: nat, action: Action<U>)

  function RemoveAt<T>(s: seq<T>, k: nat): seq<T>
    requires k < |s|
  {
    s[..k] + s[k + 1..]
  }

  /** The call after an operation: over when it has nothing left to do. */
  function After(m: nat, pc: Pc): Option<Call> {
    if pc.Granted? || pc.Failed? || pc.Released? then None else Some(Call(m, pc))
  }

  function Step<D, U>(apply: (D, U) -> D, s: State<D, U>, mv: Move<U>): (r: State<D, U>)
    ensures |r.locks| == |s.locks| && |r.cpus| == |s.cpus|
  {
    if mv.c >= |s.cpus| then s
    else
      var cpu := s.cpus[mv.c];
      match mv.action
      case Begin(m, once) =>
        if cpu.call.Some? || m >= |s.locks| then s
        else s.(cpus := s.cpus[mv.c := cpu.(call := Some(Call(m, Ask(once))))])
      case Go(spurious) =>
        if cpu.call.None? || cpu.call.value.mutex >= |s.locks| then s
        else
          var m := cpu.call.value.mutex;
          var lock := s.locks[m];
          var e := LockStep(Shared(lock.locked, cpu.enabled), cpu.call.value.pc, spurious);
          var granted := e.pc.Granted?;
          State(s.locks[m := lock.(locked := e.shared.locked,
                                   acquired := if granted then lock.acquired + 1 else lock.acquired)],
                s.cpus[mv.c := cpu.(enabled := e.shared.enabled,
                                    call := After(m, e.pc),
                                    guards := if granted
                                              then cpu.guards + [Guard(m, e.pc.saved, lock.acquired + 1, None)]
                                              else cpu.guards)])
      case Load(k) =>
        if cpu.call.Some? || k >= |cpu.guards| || cpu.guards[k].mutex >= |s.locks| then s
        else
          var g := cpu.guards[k];
          s.(cpus := s.cpus[mv.c := cpu.(guards := cpu.guards[k := g.(local := Some(s.locks[g.mutex].data))])])
      case Store(k, op) =>
        if cpu.call.Some? || k >= |cpu.guards| || cpu.guards[k].mutex >= |s.locks| || cpu.guards[k].local.None? then s
        else
          var g := cpu.guards[k];
          var lock := s.locks[g.mutex];
          State(s.locks[g.mutex := lock.(data := apply(g.local.value, op), log := lock.log + [Update(g.ticket, op)])],
                s.cpus[mv.c := cpu.(guards := cpu.guards[k := g.(local := None)])])
      case Drop(k) =>
        if cpu.call.Some? || k >= |cpu.guards| || cpu.guards[k].mutex >= |s.locks| then s
        else
          var g := cpu.guards[k];
          var lock := s.locks[g.mutex];
          var e := LockStep(Shared(lock.locked, cpu.enabled), Release(g.saved), false);
          State(s.locks[g.mutex := lock.(locked := e.shared.locked)],
                s.cpus[mv.c := cpu.(call := After(g.mutex, e.pc), guards := RemoveAt(cpu.guards, k))])
  }

  function Run<D, U>(apply: (D, U) -> D, s: State<D, U>, moves: seq<Move<U>>): (r: State<D, U>)
    ensures |r.locks| == |s.locks| && |r.cpus| == |s.cpus|
  {
    if moves == [] then s else Step(apply, Run(apply, s, moves[..|moves| - 1]), moves[|moves| - 1])
  }

  /** All mutexes free, no call under way, no guard; data and interrupt flags are arbitrary. */
  ghost predicate Initial<D, U>(s: State<D, U>) {
    && (forall m :: 0 <= m < |s.locks| ==>
          var l := s.locks[m]; !l.locked && l.initial == l.data && l.acquired == 0 && l.log == [])
    && (forall c :: 0 <= c < |s.cpus| ==>
          var cpu := s.cpus[c]; cpu.call == None && cpu.guards == [] && cpu.enabled == cpu.original)
  }

  // ---------------------------------------------------------------------------------------------
  // Serialisation
  // ---------------------------------------------------------------------------------------------

  ghost function Fold<D, U>(apply: (D, U) -> D, d: D, log: seq<Update<U>>): D {
    if log == [] then d else apply(Fold(apply, d, log[..|log| - 1]), log[|log| - 1].op)
  }

  /** Guard k of processor c is live and belongs to mutex m. */
  ghost predicate Holds<D, U>(s: State<D, U>, c: int, k: int, m: nat) {
    0 <= c < |s.cpus| && 0 <= k < |s.cpus[c].guards| && s.cpus[c].guards[k].mutex == m
  }

  /** `locked` says whether a guard is live, and there is never more than one. */
  ghost predicate Exclusive<D, U>(s: State<D, U>) {
    && (forall m :: 0 <= m < |s.locks| ==> (s.locks[m].locked <==> exists c, k :: Holds(s, c, k, m)))
    && (forall m, c, k, c', k' :: Holds(s, c, k, m) && Holds(s, c', k', m) ==> c == c' && k == k')
  }

  ghost predicate LockOk<D, U>(apply: (D, U) -> D, l: Lock<D, U>) {
    && l.data == Fold(apply, l.initial, l.log)
    && (forall i :: 0 <= i < |l.log| ==> l.log[i].ticket <= l.acquired)
    && (forall i, j :: 0 <= i < j < |l.log| ==> l.log[i].ticket <= l.log[j].ticket)
  }

  ghost predicate GuardOk<D, U>(s: State<D, U>, g: Guard<D>) {
    && g.mutex < |s.locks|
    && g.ticket == s.locks[g.mutex].acquired
    && (g.local.Some? ==> g.local.value == s.locks[g.mutex].data)
  }

  /** Calls that are over leave no trace, and the store of a drop is part of the drop's own move. */
  ghost predicate CallOk<D, U>(s: State<D, U>, c: nat)
    requires c < |s.cpus|
  {
    s.cpus[c].call.Some? ==> s.cpus[c].call.value.mutex < |s.locks| && s.cpus[c].call.value.pc.Midway()
  }

  ghost predicate Serial<D, U>(apply: (D, U) -> D, s: State<D, U>) {
    && Exclusive(s)
    && (forall m :: 0 <= m < |s.locks| ==> LockOk(apply, s.locks[m]))
    && (forall c, k :: 0 <= c < |s.cpus| && 0 <= k < |s.cpus[c].guards| ==> GuardOk(s, s.cpus[c].guards[k]))
    && (forall c :: 0 <= c < |s.cpus| ==> CallOk(s, c))
  }

  lemma {:induction false} GoExclusive<D, U>(apply: (D, U) -> D, s: State<D, U>, mv: Move<U>)
    requires Exclusive(s) && mv.action.Go? && mv.c < |s.cpus| && s.cpus[mv.c].call.Some? && CallOk(s, mv.c)
    ensures Exclusive(Step(apply, s, mv))
  {
    var s' := Step(apply, s, mv);
    var n, m := |s.cpus[mv.c].guards|, s.cpus[mv.c].call.value.mutex;
    var granted := !s.locks[m].locked && s'.locks[m].locked;
    assert s'.locks[m].locked == (s.locks[m].locked || granted);
    assert granted ==> s'.cpus[mv.c].guards[n].mutex == m;
    forall c, k, m'
      ensures Holds(s', c, k, m') <==> Holds(s, c, k, m') || (granted && c == mv.c && k == n && m' == m)
    {}
    if granted {
      assert Holds(s', mv.c, n, m);
      assert forall c, k :: !Holds(s, c, k, m);
    }
  }

  lemma {:induction false} GoGuards<D, U>(apply: (D, U) -> D, s: State<D, U>, mv: Move<U>, c: nat, k: nat)
    requires Serial(apply, s) && mv.action.Go? && mv.c < |s.cpus| && s.cpus[mv.c].call.Some?
    requires c < |s.cpus| && k < |Step(apply, s, mv).cpus[c].guards|
    ensures GuardOk(Step(apply, s, mv), Step(apply, s, mv).cpus[c].guards[k])
  {
    assert CallOk(s, mv.c);
    if k < |s.cpus[c].guards| {
      var g := s.cpus[c].guards[k];
      assert GuardOk(s, g) && Holds(s, c, k, g.mutex) && s.locks[g.mutex].locked;
      assert Step(apply, s, mv).locks[g.mutex].acquired == s.locks[g.mutex].acquired;
    }
  }

  lemma {:induction false} SerialGo<D, U>(apply: (D, U) -> D, s: State<D, U>, mv: Move<U>)
    requires Serial(apply, s) && mv.action.Go? && mv.c < |s.cpus| && s.cpus[mv.c].call.Some?
    ensures Serial(apply, Step(apply, s, mv))
  {
    var s' := Step(apply, s, mv);
    GoExclusive(apply, s, mv);
    forall c, k | 0 <= c < |s.cpus| && 0 <= k < |s'.cpus[c].guards|
      ensures GuardOk(s', s'.cpus[c].guards[k])
    {
      GoGuards(apply, s, mv, c, k);
    }
    forall c | 0 <= c < |s.cpus|
      ensures CallOk(s', c)
    {
      assert CallOk(s, c);
    }
    forall m | 0 <= m < |s.locks|
      ensures LockOk(apply, s'.locks[m])
    {
      assert LockOk(apply, s.locks[m]);
    }
  }

  lemma {:induction false} AccessExclusive<D, U>(apply: (D, U) -> D, s: State<D, U>, mv: Move<U>)
    requires Exclusive(s) && (mv.action.Load? || mv.action.Store?)
    ensures Exclusive(Step(apply, s, mv))
  {
    var s' := Step(apply, s, mv);
    forall c, k, m
      ensures Holds(s', c, k, m) <==> Holds(s, c, k, m)
    {}
  }

  /** Loads and stores go through a live guard, so nobody else holds what they touch. */
  lemma {:induction false} AccessGuards<D, U>(apply: (D, U) -> D, s: State<D, U>, mv: Move<U>, c: nat, k: nat)
    requires Serial(apply, s) && (mv.action.Load? || mv.action.Store?) && mv.c < |s.cpus|
    requires mv.action.k < |s.cpus[mv.c].guards| && c < |s.cpus| && k < |s.cpus[c].guards|
    ensures GuardOk(Step(apply, s, mv), Step(apply, s, mv).cpus[c].guards[k])
  {
    var g, h := s.cpus[mv.c].guards[mv.action.k], s.cpus[c].guards[k];
    assert GuardOk(s, g) && GuardOk(s, h);
    assert Holds(s, mv.c, mv.action.k, g.mutex) && Holds(s, c, k, h.mutex);
    assert h.mutex == g.mutex ==> c == mv.c && k == mv.action.k;
  }

  lemma {:induction false} AccessLocks<D, U>(apply: (D, U) -> D, s: State<D, U>, mv: Move<U>, m: nat)
    requires Serial(apply, s) && (mv.action.Load? || mv.action.Store?) && m < |s.locks|
    ensures LockOk(apply, Step(apply, s, mv).locks[m])
  {
    var l, l' := s.locks[m], Step(apply, s, mv).locks[m];
    assert LockOk(apply, l);
    if l' != l {
      assert GuardOk(s, s.cpus[mv.c].guards[mv.action.k]);
      assert l'.log[..|l'.log| - 1] == l.log;
    }
  }

  lemma {:induction false} SerialAccess<D, U>(apply: (D, U) -> D, s: State<D, U>, mv: Move<U>)
    requires Serial(apply, s) && (mv.action.Load? || mv.action.Store?)
    requires mv.c < |s.cpus| && mv.action.k < |s.cpus[mv.c].guards|
    ensures Serial(apply, Step(apply, s, mv))
  {
    var s' := Step(apply, s, mv);
    AccessExclusive(apply, s, mv);
    forall c, k | 0 <= c < |s.cpus| && 0 <= k < |s'.cpus[c].guards|
      ensures GuardOk(s', s'.cpus[c].guards[k])
    {
      AccessGuards(apply, s, mv, c, k);
    }
    forall m | 0 <= m < |s.locks|
      ensures LockOk(apply, s'.locks[m])
    {
      AccessLocks(apply, s, mv, m);
    }
    forall c | 0 <= c < |s.cpus|
      ensures CallOk(s', c)
    {
      assert CallOk(s, c);
    }
  }

  lemma {:induction false} DropExclusive<D, U>(apply: (D, U) -> D, s: State<D, U>, mv: Move<U>)
    requires Exclusive(s) && mv.action.Drop? && mv.c < |s.cpus| && s.cpus[mv.c].call.None?
    requires mv.action.k < |s.cpus[mv.c].guards| && s.cpus[mv.c].guards[mv.action.k].mutex < |s.locks|
    ensures Exclusive(Step(apply, s, mv))
  {
    var s' := Step(apply, s, mv);
    var d, g := mv.action.k, s.cpus[mv.c].guards[mv.action.k];
    assert Holds(s, mv.c, d, g.mutex);
    forall c, k, m
      ensures Holds(s', c, k, m) <==> 0 <= k && Holds(s, c, if c == mv.c && k >= d then k + 1 else k, m)
    {}
    forall m | 0 <= m < |s.locks|
      ensures s'.locks[m].locked <==> exists c, k :: Holds(s', c, k, m)
    {
      if s'.locks[m].locked {
        var c, k :| Holds(s, c, k, m);
        assert Holds(s', c, if c == mv.c && k > d then k - 1 else k, m);
      }
    }
  }

  lemma {:induction false} SerialDrop<D, U>(apply: (D, U) -> D, s: State<D, U>, mv: Move<U>)
    requires Serial(apply, s) && mv.action.Drop? && mv.c < |s.cpus|
    requires s.cpus[mv.c].call.None? && mv.action.k < |s.cpus[mv.c].guards|
    ensures Serial(apply, Step(apply, s, mv))
  {
    var s' := Step(apply, s, mv);
    assert GuardOk(s, s.cpus[mv.c].guards[mv.action.k]);
    DropExclusive(apply, s, mv);
    forall c, k | 0 <= c < |s.cpus| && 0 <= k < |s'.cpus[c].guards|
      ensures GuardOk(s', s'.cpus[c].guards[k])
    {
      assert GuardOk(s, s.cpus[c].guards[if c == mv.c && k >= mv.action.k then k + 1 else k]);
    }
    forall c | 0 <= c < |s.cpus|
      ensures CallOk(s', c)
    {
      assert CallOk(s, c);
    }
    forall m | 0 <= m < |s.locks|
      ensures LockOk(apply, s'.locks[m])
    {
      assert LockOk(apply, s.locks[m]);
    }
  }

  lemma {:induction false} SerialBegin<D, U>(apply: (D, U) -> D, s: State<D, U>, mv: Move<U>)
    requires Serial(apply, s) && mv.action.Begin?
    ensures Serial(apply, Step(apply, s, mv))
  {
    var s' := Step(apply, s, mv);
    forall c, k, m
      ensures Holds(s', c, k, m) <==> Holds(s, c, k, m)
    {}
    assert Exclusive(s');
    assert forall c :: 0 <= c < |s.cpus| ==> CallOk(s, c) && s'.cpus[c].guards == s.cpus[c].guards;
  }

  lemma {:induction false} SerialRun<D, U>(apply: (D, U) -> D, s: State<D, U>, moves: seq<Move<U>>)
    requires Initial(s)
    ensures Serial(apply, Run(apply, s, moves))
  {
    if moves == [] {
      assert forall c, k, m :: !Holds(s, c, k, m);
    } else {
      var r, mv := Run(apply, s, moves[..|moves| - 1]), moves[|moves| - 1];
      SerialRun(apply, s, moves[..|moves| - 1]);
      if Step(apply, r, mv) != r {
        match mv.action
        case Begin(_, _) => SerialBegin(apply, r, mv);
        case Go(_) => SerialGo(apply, r, mv);
        case Load(_) => SerialAccess(apply, r, mv);
        case Store(_, _) => SerialAccess(apply, r, mv);
        case Drop(_) => SerialDrop(apply, r, mv);
      }
    }
  }

  /** How often a run has acquired mutex m. */
  ghost function Acquisitions<D, U>(apply: (D, U) -> D, s: State<D, U>, moves: seq<Move<U>>, m: nat): nat
    requires m < |s.locks|
  {
    if moves == [] then 0
    else
      var before := moves[..|moves| - 1];
      Acquisitions(apply, s, before, m)
      + if !Run(apply, s, before).locks[m].locked && Run(apply, s, moves).locks[m].locked then 1 else 0
  }

  /** The update that a move makes to the data of mutex m, if it makes one. */
  ghost function Stored<D, U>(s: State<D, U>, mv: Move<U>, m: nat): Option<U> {
    if mv.action.Store? && mv.c < |s.cpus| && s.cpus[mv.c].call.None? && Holds(s, mv.c, mv.action.k, m)
       && s.cpus[mv.c].guards[mv.action.k].local.Some?
    then Some(mv.action.op) else None
  }

  /** The updates that a run makes to the data of mutex m, each with the number of the acquisition it falls under. */
  ghost function Updates<D, U>(apply: (D, U) -> D, s: State<D, U>, moves: seq<Move<U>>, m: nat): seq<Update<U>>
    requires m < |s.locks|
  {
    if moves == [] then []
    else
      var before := moves[..|moves| - 1];
      Updates(apply, s, before, m) +
      match Stored(Run(apply, s, before), moves[|moves| - 1], m)
      case None => []
      case Some(op) => [Update(Acquisitions(apply, s, before, m), op)]
  }

  /** The history variables of a mutex record the run. */
  lemma {:induction false} HistoryIs<D, U>(apply: (D, U) -> D, s: State<D, U>, moves: seq<Move<U>>, m: nat)
    requires Initial(s) && m < |s.locks|
    ensures var l := Run(apply, s, moves).locks[m];
      && l.initial == s.locks[m].data
      && l.acquired == Acquisitions(apply, s, moves, m)
      && l.log == Updates(apply, s, moves, m)
  {
    if moves == [] {
    } else {
      var before, mv := moves[..|moves| - 1], moves[|moves| - 1];
      HistoryIs(apply, s, before, m);
      SerialRun(apply, s, before);
      HistoryStep(apply, Run(apply, s, before), mv, m);
    }
  }

  lemma {:induction false} HistoryStep<D, U>(apply: (D, U) -> D, s: State<D, U>, mv: Move<U>, m: nat)
    requires Serial(apply, s) && m < |s.locks|
    ensures var l, l' := s.locks[m], Step(apply, s, mv).locks[m];
      && l'.initial == l.initial
      && l'.acquired == l.acquired + (if !l.locked && l'.locked then 1 else 0)
      && l'.log == l.log + (match Stored(s, mv, m) case None => [] case Some(op) => [Update(l.acquired, op)])
  {
    if mv.c < |s.cpus| {
      assert CallOk(s, mv.c);
      if mv.action.Store? && mv.action.k < |s.cpus[mv.c].guards| {
        assert GuardOk(s, s.cpus[mv.c].guards[mv.action.k]);
      }
    }
  }

  /**
   * No update is lost and none is torn: in every run, whatever the order in which guards are dropped, the
   * data of a mutex is the fold of all updates the run has made to it, from the data it started with, and
   * the updates fall under its acquisitions in their order.
   */
  lemma {:induction false} UpdatesSerialise<D, U>(apply: (D, U) -> D, s: State<D, U>, moves: seq<Move<U>>, m: nat)
    requires Initial(s) && m < |s.locks|
    ensures var updates := Updates(apply, s, moves, m);
      && Run(apply, s, moves).locks[m].data == Fold(apply, s.locks[m].data, updates)
      && forall i, j :: 0 <= i < j < |updates| ==> updates[i].ticket <= updates[j].ticket
  {
    SerialRun(apply, s, moves);
    assert LockOk(apply, Run(apply, s, moves).locks[m]);
    HistoryIs(apply, s, moves, m);
  }

  /** At most one guard of a mutex is live on all processors together, and `locked` is true exactly then. */
  lemma {:induction false} OneGuardPerMutex<D, U>(apply: (D, U) -> D, s: State<D, U>, moves: seq<Move<U>>, m: nat)
    requires Initial(s) && m < |s.locks|
    ensures var r := Run(apply, s, moves);
      && (r.locks[m].locked <==> exists c, k :: Holds(r, c, k, m))
      && forall c, k, c', k' :: Holds(r, c, k, m) && Holds(r, c', k', m) ==> c == c' && k == k'
  {
    SerialRun(apply, s, moves);
  }

  // ---------------------------------------------------------------------------------------------
  // Interrupts
  // ---------------------------------------------------------------------------------------------

  /** Interrupts are off under a guard; only the outermost guard remembers the flag the processor had. */
  ghost predicate Disciplined<D>(cpu: Cpu<D>) {
    var bottom := cpu.guards == [] && cpu.original;
    && (forall k :: 0 <= k < |cpu.guards| ==> cpu.guards[k].saved == (k == 0 && cpu.original))
    && (match cpu.call
        case None => cpu.enabled == bottom
        case Some(Call(_, Ask(_))) => cpu.enabled == bottom
        case Some(Call(_, Disable(saved, _))) => cpu.enabled == bottom && saved == bottom
        case Some(Call(_, Cas(saved, _))) => !cpu.enabled && saved == bottom
        case Some(Call(_, Halt)) => cpu.enabled && bottom
        case Some(Call(_, Wake)) => cpu.enabled && bottom
        case Some(Call(_, pc)) => pc.Midway() && !cpu.enabled && bottom)
  }

  /** The move, if it drops a guard of processor c, drops the one acquired last. */
  predicate TopDrop<D, U>(s: State<D, U>, mv: Move<U>, c: nat)
    requires c < |s.cpus|
  {
    mv.c == c && mv.action.Drop? && mv.action.k < |s.cpus[c].guards| ==> mv.action.k + 1 == |s.cpus[c].guards|
  }

  /** Processor c drops its guards last-in first-out throughout the run; the others drop theirs as they like. */
  ghost predicate Lifo<D, U>(apply: (D, U) -> D, s: State<D, U>, moves: seq<Move<U>>, c: nat)
    requires c < |s.cpus|
  {
    || moves == []
    || (Lifo(apply, s, moves[..|moves| - 1], c)
        && TopDrop(Run(apply, s, moves[..|moves| - 1]), moves[|moves| - 1], c))
  }

  /** The move does not drop the outermost guard of processor c under others. */
  predicate KeepsOutermost<D, U>(s: State<D, U>, mv: Move<U>, c: nat)
    requires c < |s.cpus|
  {
    mv.c == c && mv.action == Drop(0) ==> |s.cpus[c].guards| <= 1
  }

  /** Processor c drops its outermost guard after all others; the inner ones may go in any order. */
  ghost predicate OutermostLast<D, U>(apply: (D, U) -> D, s: State<D, U>, moves: seq<Move<U>>, c: nat)
    requires c < |s.cpus|
  {
    || moves == []
    || (OutermostLast(apply, s, moves[..|moves| - 1], c)
        && KeepsOutermost(Run(apply, s, moves[..|moves| - 1]), moves[|moves| - 1], c))
  }

  lemma {:induction false} LifoIsOutermostLast<D, U>(apply: (D, U) -> D, s: State<D, U>, moves: seq<Move<U>>, c: nat)
    requires c < |s.cpus| && Lifo(apply, s, moves, c)
    ensures OutermostLast(apply, s, moves, c)
  {
    if moves == [] {
    } else {
      LifoIsOutermostLast(apply, s, moves[..|moves| - 1], c);
    }
  }

  lemma {:induction false} DisciplineGo<D, U>(apply: (D, U) -> D, s: State<D, U>, mv: Move<U>)
    requires mv.c < |s.cpus| && Disciplined(s.cpus[mv.c]) && mv.action.Go?
    ensures Disciplined(Step(apply, s, mv).cpus[mv.c])
  {
    var cpu, cpu' := s.cpus[mv.c], Step(apply, s, mv).cpus[mv.c];
    if cpu.call.Some? && cpu.call.value.mutex < |s.locks| {
      var pc := cpu.call.value.pc;
      var e := LockStep(Shared(s.locks[cpu.call.value.mutex].locked, cpu.enabled), pc, mv.action.spurious);
      assert cpu'.enabled == e.shared.enabled && cpu'.call == After(cpu.call.value.mutex, e.pc);
      if pc.Cas? && e.pc.Granted? {
        assert forall k :: 0 <= k < |cpu.guards| ==> cpu'.guards[k] == cpu.guards[k];
      } else {
        assert cpu'.guards == cpu.guards;
      }
    }
  }

  lemma {:induction false} DisciplineDrop<D, U>(apply: (D, U) -> D, s: State<D, U>, mv: Move<U>)
    requires mv.c < |s.cpus| && Disciplined(s.cpus[mv.c]) && mv.action.Drop? && KeepsOutermost(s, mv, mv.c)
    ensures Disciplined(Step(apply, s, mv).cpus[mv.c])
  {
    var cpu, cpu', k := s.cpus[mv.c], Step(apply, s, mv).cpus[mv.c], mv.action.k;
    if cpu' != cpu {
      assert forall j :: 0 <= j < |cpu'.guards| ==> cpu'.guards[j] == cpu.guards[if j < k then j else j + 1];
      assert k > 0 ==> cpu'.guards != [] && !cpu.guards[k].saved;
    }
  }

  lemma {:induction false} DisciplineStep<D, U>(apply: (D, U) -> D, s: State<D, U>, mv: Move<U>, c: nat)
    requires c < |s.cpus| && Disciplined(s.cpus[c]) && KeepsOutermost(s, mv, c)
    ensures Disciplined(Step(apply, s, mv).cpus[c])
  {
    var cpu, cpu' := s.cpus[c], Step(apply, s, mv).cpus[c];
    if mv.c != c {
      assert cpu' == cpu;
    } else {
      match mv.action
      case Go(_) => DisciplineGo(apply, s, mv);
      case Drop(_) => DisciplineDrop(apply, s, mv);
      case Begin(_, _) => assert cpu'.guards == cpu.guards && cpu'.enabled == cpu.enabled;
      case Load(_) => assert cpu'.call == cpu.call && cpu'.enabled == cpu.enabled && |cpu'.guards| == |cpu.guards|;
      case Store(_, _) => assert cpu'.call == cpu.call && cpu'.enabled == cpu.enabled && |cpu'.guards| == |cpu.guards|;
    }
  }

  lemma {:induction false} DisciplineRun<D, U>(apply: (D, U) -> D, s: State<D, U>, moves: seq<Move<U>>, c: nat)
    requires Initial(s) && c < |s.cpus| && OutermostLast(apply, s, moves, c)
    ensures Disciplined(Run(apply, s, moves).cpus[c])
    ensures Run(apply, s, moves).cpus[c].original == s.cpus[c].enabled
  {
    if moves == [] {
    } else {
      DisciplineRun(apply, s, moves[..|moves| - 1], c);
      DisciplineStep(apply, Run(apply, s, moves[..|moves| - 1]), moves[|moves| - 1], c);
    }
  }

  /**
   * A processor that drops its outermost guard last, and so in particular one that drops its guards last-in
   * first-out, has interrupts off while it holds any guard, also while it waits for a further mutex; and once
   * it holds none and is in no call, its flag is the one it started with. What other processors do is no matter.
   */
  lemma {:induction false} InterruptsStayOff<D, U>(apply: (D, U) -> D, s: State<D, U>, moves: seq<Move<U>>, c: nat)
    requires Initial(s) && c < |s.cpus| && OutermostLast(apply, s, moves, c)
    ensures var cpu := Run(apply, s, moves).cpus[c];
      && (cpu.guards != [] ==> !cpu.enabled)
      && (cpu.guards == [] && cpu.call == None ==> cpu.enabled == s.cpus[c].enabled)
  {
    DisciplineRun(apply, s, moves, c);
  }

  /** The two moves of a drop: the store with the guard gone, then the flag if the guard had saved it. */
  lemma {:induction false} DropMoves<D, U>(apply: (D, U) -> D, s: State<D, U>, c: nat, k: nat)
    requires c < |s.cpus| && s.cpus[c].call == None && k < |s.cpus[c].guards|
    requires s.cpus[c].guards[k].mutex < |s.locks|
    ensures var after := Step(apply, Step(apply, s, Move(c, Drop(k))), Move(c, Go(false))).cpus[c];
      && after.call == None && after.guards == RemoveAt(s.cpus[c].guards, k)
      && after.enabled == (s.cpus[c].enabled || s.cpus[c].guards[k].saved)
  {
    var g := s.cpus[c].guards[k];
    var s1 := Step(apply, s, Move(c, Drop(k)));
    assert s1.cpus[c].call == if g.saved then Some(Call(g.mutex, Restore)) else None;
    assert s1.cpus[c].enabled == s.cpus[c].enabled && s1.cpus[c].guards == RemoveAt(s.cpus[c].guards, k);
  }

  /**
   * After such a run, dropping guard k turns interrupts on under the guards that remain, exactly when k is the
   * outermost of several and the processor had interrupts on to begin with.
   */
  lemma {:induction false} DropBreaksDisciplineExactly<D, U>(
      apply: (D, U) -> D, s: State<D, U>, moves: seq<Move<U>>, c: nat, k: nat)
    requires Initial(s) && c < |s.cpus| && OutermostLast(apply, s, moves, c)
    requires var cpu := Run(apply, s, moves).cpus[c]; cpu.call == None && k < |cpu.guards|
    ensures var r := Run(apply, s, moves);
      var after := Step(apply, Step(apply, r, Move(c, Drop(k))), Move(c, Go(false))).cpus[c];
      && after.call == None
      && (after.enabled && after.guards != [] <==> k == 0 && |r.cpus[c].guards| > 1 && s.cpus[c].enabled)
  {
    SerialRun(apply, s, moves);
    DisciplineRun(apply, s, moves, c);
    var r := Run(apply, s, moves);
    assert GuardOk(r, r.cpus[c].guards[k]);
    DropMoves(apply, r, c, k);
  }

  // ---------------------------------------------------------------------------------------------
  // Interrupts on under a guard
  // ---------------------------------------------------------------------------------------------

  lemma {:induction false} RunConcat<D, U>(apply: (D, U) -> D, s: State<D, U>, a: seq<Move<U>>, b: seq<Move<U>>)
    ensures Run(apply, s, a + b) == Run(apply, Run(apply, s, a), b)
  {
    if b == [] {
      assert a + b == a;
    } else {
      assert (a + b)[..|a + b| - 1] == a + b[..|b| - 1];
      RunConcat(apply, s, a, b[..|b| - 1]);
    }
  }

  /** A call of `lock` that nobody disturbs. */
  function LockMoves<U>(c: nat, m: nat): seq<Move<U>> {
    [Move(c, Begin(m, false)), Move(c, Go(false)), Move(c, Go(false)), Move(c, Go(false))]
  }

  lemma {:induction false} TwoMoves<D, U>(apply: (D, U) -> D, s: State<D, U>, moves: seq<Move<U>>)
    requires |moves| == 2
    ensures Run(apply, s, moves) == Step(apply, Step(apply, s, moves[0]), moves[1])
  {
    assert moves[..1][..0] == [] && Run(apply, s, []) == s;
    assert Run(apply, s, moves[..1]) == Step(apply, s, moves[0]);
  }

  lemma {:induction false} LockAsks<D, U>(apply: (D, U) -> D, s: State<D, U>, c: nat, m: nat)
    requires c < |s.cpus| && s.cpus[c].call == None && m < |s.locks|
    ensures var cpu, r := s.cpus[c], Step(apply, Step(apply, s, Move(c, Begin(m, false))), Move(c, Go(false)));
      r.cpus[c] == cpu.(call := Some(Call(m, Disable(cpu.enabled, false)))) && r.locks == s.locks
  {
    var s1 := Step(apply, s, Move(c, Begin(m, false)));
    assert s1.cpus[c] == s.cpus[c].(call := Some(Call(m, Ask(false)))) && s1.locks == s.locks;
  }

  lemma {:induction false} LockGets<D, U>(apply: (D, U) -> D, s: State<D, U>, c: nat, m: nat, saved: bool)
    requires c < |s.cpus| && s.cpus[c].call == Some(Call(m, Disable(saved, false)))
    requires m < |s.locks| && !s.locks[m].locked
    ensures var cpu, r := s.cpus[c], Step(apply, Step(apply, s, Move(c, Go(false))), Move(c, Go(false)));
      && r.cpus[c] == Cpu(false, None, cpu.guards + [Guard(m, saved, s.locks[m].acquired + 1, None)], cpu.original)
      && forall l :: 0 <= l < |s.locks| && l != m ==> r.locks[l] == s.locks[l]
  {
    var s1 := Step(apply, s, Move(c, Go(false)));
    assert s1.cpus[c] == s.cpus[c].(enabled := false, call := Some(Call(m, Cas(saved, false)))) && s1.locks == s.locks;
  }

  /** Taking a free mutex turns interrupts off and adds a guard that remembers the flag. */
  lemma {:induction false} LockTakes<D, U>(apply: (D, U) -> D, s: State<D, U>, c: nat, m: nat)
    requires c < |s.cpus| && s.cpus[c].call == None && m < |s.locks| && !s.locks[m].locked
    ensures var cpu, r := s.cpus[c], Run(apply, s, LockMoves(c, m));
      var g := Guard(m, cpu.enabled, s.locks[m].acquired + 1, None);
      && r.cpus[c] == Cpu(false, None, cpu.guards + [g], cpu.original)
      && forall l :: 0 <= l < |s.locks| && l != m ==> r.locks[l] == s.locks[l]
  {
    hide Step;
    var moves := LockMoves<U>(c, m);
    assert moves == moves[..2] + moves[2..];
    RunConcat(apply, s, moves[..2], moves[2..]);
    TwoMoves(apply, s, moves[..2]);
    LockAsks(apply, s, c, m);
    var s2 := Run(apply, s, moves[..2]);
    TwoMoves(apply, s2, moves[2..]);
    LockGets(apply, s2, c, m, s.cpus[c].enabled);
  }

  /** Two mutexes taken one after the other, and the first dropped first. */
  function CrossedMoves<U>(c: nat): seq<Move<U>> {
    LockMoves(c, 0) + LockMoves(c, 1) + [Move(c, Drop(0)), Move(c, Go(false))]
  }

  ghost predicate Exposed<D, U>(apply: (D, U) -> D, s: State<D, U>, moves: seq<Move<U>>, c: nat)
    requires c < |s.cpus|
  {
    var cpu := Run(apply, s, moves).cpus[c];
    cpu.enabled && cpu.guards != []
  }

  lemma {:induction false} CrossedExposes<D, U>(apply: (D, U) -> D, s: State<D, U>, c: nat)
    requires Initial(s) && c < |s.cpus| && s.cpus[c].enabled && |s.locks| >= 2
    ensures Exposed(apply, s, CrossedMoves(c), c)
  {
    var a, b := LockMoves<U>(c, 0), LockMoves<U>(c, 1);
    var d: seq<Move<U>> := [Move(c, Drop(0)), Move(c, Go(false))];
    RunConcat(apply, s, a + b, d);
    RunConcat(apply, s, a, b);
    LockTakes(apply, s, c, 0);
    var s1 := Run(apply, s, a);
    LockTakes(apply, s1, c, 1);
    var s2 := Run(apply, s1, b);
    TwoMoves(apply, s2, d);
    DropMoves(apply, s2, c, 0);
  }

  /** A processor that starts with interrupts off never turns them on. */
  ghost predicate Silent<D>(cpu: Cpu<D>) {
    && !cpu.enabled
    && (forall k :: 0 <= k < |cpu.guards| ==> !cpu.guards[k].saved)
    && (match cpu.call
        case None => true
        case Some(Call(_, Ask(_))) => true
        case Some(Call(_, Disable(saved, _))) => !saved
        case Some(Call(_, Cas(saved, _))) => !saved
        case Some(_) => false)
  }

  lemma SilentStep<D, U>(apply: (D, U) -> D, s: State<D, U>, mv: Move<U>, c: nat)
    requires c < |s.cpus| && Silent(s.cpus[c])
    ensures Silent(Step(apply, s, mv).cpus[c])
  {}

  lemma {:induction false} SilentRun<D, U>(apply: (D, U) -> D, s: State<D, U>, moves: seq<Move<U>>, c: nat)
    requires Initial(s) && c < |s.cpus| && !s.cpus[c].enabled
    ensures Silent(Run(apply, s, moves).cpus[c])
  {
    if moves == [] {
    } else {
      SilentRun(apply, s, moves[..|moves| - 1], c);
      SilentStep(apply, Run(apply, s, moves[..|moves| - 1]), moves[|moves| - 1], c);
    }
  }

  /** With a single mutex there is nothing to drop out of turn. */
  lemma {:induction false} OneMutexIsEnough<D, U>(apply: (D, U) -> D, s: State<D, U>, moves: seq<Move<U>>, c: nat)
    requires Initial(s) && |s.locks| < 2 && c < |s.cpus|
    ensures OutermostLast(apply, s, moves, c)
  {
    if moves == [] {
    } else {
      var before := moves[..|moves| - 1];
      OneMutexIsEnough(apply, s, before, c);
      SerialRun(apply, s, before);
      var r := Run(apply, s, before);
      if |r.cpus[c].guards| > 1 {
        assert GuardOk(r, r.cpus[c].guards[0]) && GuardOk(r, r.cpus[c].guards[1]);
        assert Holds(r, c, 0, 0) && Holds(r, c, 1, 0);
        assert false;
      }
    }
  }

  /**
   * A processor can come to hold a guard with interrupts on exactly if it starts with interrupts on and there
   * are two mutexes to take: dropping them in the order they were taken does it.
   */
  lemma {:induction false} InterruptsCanComeOnExactly<D, U>(apply: (D, U) -> D, s: State<D, U>, c: nat)
    requires Initial(s) && c < |s.cpus|
    ensures (exists moves :: Exposed(apply, s, moves, c)) <==> s.cpus[c].enabled && |s.locks| >= 2
  {
    if s.cpus[c].enabled && |s.locks| >= 2 {
      CrossedExposes(apply, s, c);
    } else {
      forall moves
        ensures !Exposed(apply, s, moves, c)
      {
        if !s.cpus[c].enabled {
          SilentRun(apply, s, moves, c);
        } else {
          OneMutexIsEnough(apply, s, moves, c);
          InterruptsStayOff(apply, s, moves, c);
        }
      }
    }
  }
}

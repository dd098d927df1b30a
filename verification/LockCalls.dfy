/** How calls of `lock` and `try_lock` end, and what a guard is good for. */
module LockCalls {
  import opened Common
  import opened MutexSync

  /** Where a call can be that found the interrupt flag `flag`, and what the flag is there. */
  predicate OnTheWay(pc: Pc, enabled: bool, once: bool, flag: bool) {
    match pc
    case Ask(o) => o == once && enabled == flag
    case Disable(saved, o) => o == once && saved == flag && enabled == flag
    case Cas(saved, o) => o == once && saved == flag && !enabled
    case Enable => !once && flag && !enabled
    case Halt => !once && flag && enabled
    case Wake => !once && flag && enabled
    case GiveUp => once && flag && !enabled
    case _ => false
  }

  /** The processor has its guards and one more, of mutex m, that remembers the flag; interrupts are off. */
  ghost predicate Got<D>(was: Cpu<D>, now: Cpu<D>, m: nat) {
    && |now.guards| == |was.guards| + 1 && now.guards[..|was.guards|] == was.guards
    && now.guards[|was.guards|].mutex == m && now.guards[|was.guards|].saved == was.enabled
    && now.call == None && !now.enabled
  }

  /** The state in which a call of processor c on mutex m begins. */
  function Begun<D, U>(apply: (D, U) -> D, s: State<D, U>, c: nat, m: nat, once: bool): (r: State<D, U>)
    ensures |r.locks| == |s.locks| && |r.cpus| == |s.cpus|
  {
    Step(apply, s, Move(c, Begin(m, once)))
  }

  lemma {:induction false} OneMoveOn<D, U>(
      apply: (D, U) -> D, s: State<D, U>, mv: Move<U>, c: nat, m: nat, once: bool, was: Cpu<D>)
    requires c < |s.cpus| && m < |s.locks| && s.cpus[c].guards == was.guards
    requires s.cpus[c].call.Some? && s.cpus[c].call.value.mutex == m
    requires OnTheWay(s.cpus[c].call.value.pc, s.cpus[c].enabled, once, was.enabled)
    ensures var now := Step(apply, s, mv).cpus[c];
      if now.call.Some? then
        now.call.value.mutex == m && now.guards == was.guards
        && OnTheWay(now.call.value.pc, now.enabled, once, was.enabled)
      else Got(was, now, m) || (once && now.guards == was.guards && now.enabled == was.enabled)
  {}

  /**
   * However the other processors interleave, a call still under way has changed no guard. When it is over, its
   * processor has a guard of the mutex more; or the call was `try_lock`, and the processor is as it was.
   */
  lemma {:induction false} CallEnds<D, U>(
      apply: (D, U) -> D, s: State<D, U>, c: nat, m: nat, once: bool, moves: seq<Move<U>>)
    requires c < |s.cpus| && m < |s.locks| && s.cpus[c].call == None
    requires forall k :: 0 <= k < |moves| ==> Run(apply, Begun(apply, s, c, m, once), moves[..k]).cpus[c].call.Some?
    ensures var was, now := s.cpus[c], Run(apply, Begun(apply, s, c, m, once), moves).cpus[c];
      if now.call.Some? then
        now.call.value.mutex == m && now.guards == was.guards
        && OnTheWay(now.call.value.pc, now.enabled, once, was.enabled)
      else Got(was, now, m) || (once && now.guards == was.guards && now.enabled == was.enabled)
  {
    var s0 := Begun(apply, s, c, m, once);
    if moves == [] {
    } else {
      var before := moves[..|moves| - 1];
      forall k | 0 <= k < |before|
        ensures Run(apply, s0, before[..k]).cpus[c].call.Some?
      {
        assert before[..k] == moves[..k];
      }
      CallEnds(apply, s, c, m, once, before);
      hide Step, Begun;
      OneMoveOn(apply, Run(apply, s0, before), moves[|moves| - 1], c, m, once, s.cpus[c]);
    }
  }

  /** So `lock` never returns without its guard. */
  lemma {:induction false} LockReturnsWithGuard<D, U>(
      apply: (D, U) -> D, s: State<D, U>, c: nat, m: nat, moves: seq<Move<U>>)
    requires c < |s.cpus| && m < |s.locks| && s.cpus[c].call == None
    requires forall k :: 0 <= k < |moves| ==> Run(apply, Begun(apply, s, c, m, false), moves[..k]).cpus[c].call.Some?
    requires Run(apply, Begun(apply, s, c, m, false), moves).cpus[c].call == None
    ensures Got(s.cpus[c], Run(apply, Begun(apply, s, c, m, false), moves).cpus[c], m)
  {
    hide Step, Begun, Got;
    CallEnds(apply, s, c, m, false, moves);
  }

  /** `try_lock` has a guard exactly if the mutex is free at its exchange, which never fails spuriously. */
  lemma {:induction false} TryDecidesExactly<D, U>(
      apply: (D, U) -> D, s: State<D, U>, c: nat, m: nat, flag: bool, spurious: bool)
    requires c < |s.cpus| && m < |s.locks| && s.cpus[c].call == Some(Call(m, Cas(flag, true)))
    ensures var r := Step(apply, s, Move(c, Go(spurious)));
      if s.locks[m].locked then r.cpus[c].guards == s.cpus[c].guards && r.locks == s.locks
      else
        && r.cpus[c].call == None && r.locks[m].locked
        && r.cpus[c].guards == s.cpus[c].guards + [Guard(m, flag, s.locks[m].acquired + 1, None)]
  {}

  // ---------------------------------------------------------------------------------------------
  // A free mutex
  // ---------------------------------------------------------------------------------------------

  function Goes<U>(c: nat, n: nat): seq<Move<U>> {
    if n == 0 then [] else [Move(c, Go(false))] + Goes(c, n - 1)
  }

  /** How many operations a call of `lock` is from its guard when the mutex is free. */
  function Distance(pc: Pc): (n: nat)
    ensures n <= 4
  {
    match pc
    case Enable => 4
    case Halt => 3
    case Ask(_) => 3
    case Wake => 2
    case Disable(_, _) => 2
    case _ => 1
  }

  /** Wherever a call of `lock` is, once the mutex is free four of its operations at most get it the guard. */
  lemma {:induction false} FreeMutexIsGranted<D, U>(
      apply: (D, U) -> D, s: State<D, U>, c: nat, m: nat, was: Cpu<D>)
    requires c < |s.cpus| && m < |s.locks| && !s.locks[m].locked && s.cpus[c].guards == was.guards
    requires s.cpus[c].call.Some? && s.cpus[c].call.value.mutex == m
    requires OnTheWay(s.cpus[c].call.value.pc, s.cpus[c].enabled, false, was.enabled)
    ensures var n := Distance(s.cpus[c].call.value.pc); var r := Run(apply, s, Goes(c, n));
      n <= 4 && Got(was, r.cpus[c], m) && r.locks[m].locked
    decreases Distance(s.cpus[c].call.value.pc)
  {
    var n, mv := Distance(s.cpus[c].call.value.pc), Move(c, Go(false));
    var s1 := Step(apply, s, mv);
    OneMoveOn(apply, s, mv, c, m, false, was);
    assert Goes<U>(c, n) == [mv] + Goes(c, n - 1);
    RunConcat(apply, s, [mv], Goes(c, n - 1));
    assert Run(apply, s, [mv]) == s1 by {
      RunOne(apply, s, mv);
    }
    FreeStep(apply, s, c, m);
    hide Step, OnTheWay, Got;
    if n == 1 {
      assert Goes<U>(c, 0) == [];
    } else {
      FreeMutexIsGranted(apply, s1, c, m, was);
    }
  }

  lemma {:induction false} FreeStep<D, U>(apply: (D, U) -> D, s: State<D, U>, c: nat, m: nat)
    requires c < |s.cpus| && m < |s.locks| && !s.locks[m].locked
    requires s.cpus[c].call.Some? && s.cpus[c].call.value.mutex == m
    requires OnTheWay(s.cpus[c].call.value.pc, s.cpus[c].enabled, false, true)
          || OnTheWay(s.cpus[c].call.value.pc, s.cpus[c].enabled, false, false)
    ensures var n, s1 := Distance(s.cpus[c].call.value.pc), Step(apply, s, Move(c, Go(false)));
      if n == 1 then s1.cpus[c].call == None && s1.locks[m].locked
      else !s1.locks[m].locked && s1.cpus[c].call.Some? && Distance(s1.cpus[c].call.value.pc) == n - 1
  {}

  lemma RunOne<D, U>(apply: (D, U) -> D, s: State<D, U>, mv: Move<U>)
    ensures Run(apply, s, [mv]) == Step(apply, s, mv)
  {
    hide Step;
    assert [mv][..0] == [] && Run(apply, s, []) == s;
  }

  /**
   * While the mutex is held, a `lock` that found interrupts on turns them on, halts, turns them off and tries
   * again; one that found them off tries again at once.
   */
  lemma {:induction false} HeldMutexIsAwaited<D, U>(apply: (D, U) -> D, s: State<D, U>, c: nat, m: nat, flag: bool)
    requires c < |s.cpus| && m < |s.locks| && s.locks[m].locked && !s.cpus[c].enabled
    requires s.cpus[c].call == Some(Call(m, Cas(flag, false)))
    ensures var go := Move(c, Go(false));
      var s1 := Step(apply, s, go); var s2 := Step(apply, s1, go);
      var s3 := Step(apply, s2, go); var s4 := Step(apply, s3, go);
      if flag then s2.cpus[c].enabled && s2.cpus[c].call == Some(Call(m, Halt)) && s3.cpus[c].enabled && s4 == s
      else s1 == s
  {
    var go := Move(c, Go(false));
    if flag {
      var cpu, s1 := s.cpus[c], Step(apply, s, go);
      assert s1 == s.(cpus := s.cpus[c := cpu.(call := Some(Call(m, Enable)))]);
      var s2 := Step(apply, s1, go);
      assert s2 == s.(cpus := s.cpus[c := cpu.(enabled := true, call := Some(Call(m, Halt)))]);
      var s3 := Step(apply, s2, go);
      assert s3 == s.(cpus := s.cpus[c := cpu.(enabled := true, call := Some(Call(m, Wake)))]);
      assert Step(apply, s3, go) == s.(cpus := s.cpus[c := cpu]);
    }
  }

  // ---------------------------------------------------------------------------------------------
  // Using a guard
  // ---------------------------------------------------------------------------------------------

  /** Reading through a live guard and writing back makes the update, and to no other mutex. */
  lemma {:induction false} GuardedUpdate<D, U>(apply: (D, U) -> D, s: State<D, U>, c: nat, k: nat, op: U)
    requires c < |s.cpus| && s.cpus[c].call == None && k < |s.cpus[c].guards| && s.cpus[c].guards[k].mutex < |s.locks|
    ensures var m, r := s.cpus[c].guards[k].mutex, Step(apply, Step(apply, s, Move(c, Load(k))), Move(c, Store(k, op)));
      && r.locks[m].data == apply(s.locks[m].data, op)
      && forall l :: 0 <= l < |s.locks| && l != m ==> r.locks[l] == s.locks[l]
  {
    var s1 := Step(apply, s, Move(c, Load(k)));
    assert s1.locks == s.locks && s1.cpus[c].guards[k].local == Some(s.locks[s.cpus[c].guards[k].mutex].data);
  }
}

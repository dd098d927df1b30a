/** How the four calls of the reader-writer lock end. */
module RwLockCalls {
  import opened RwLockSync

  predicate InCall(pc: Pc) { !pc.Idle? && !pc.Reading? && !pc.Writing? }

  /** Where a call can be. */
  predicate OnTheWay(pc: Pc, call: Call) {
    match call
    case Read => pc == CheckWriter(false) || pc.Increment?
    case TryRead => pc == CheckWriter(true) || pc.Increment?
    case Write => pc == Swap(false) || pc == CheckReaders(false)
    case TryWrite => pc == Swap(true) || pc == CheckReaders(true)
  }

  /** How a call may end: the blocking ones with their guard, the others with it or without. */
  predicate Ends(pc: Pc, call: Call) {
    match call
    case Read => pc.Reading?
    case TryRead => pc.Reading? || pc.Idle?
    case Write => pc.Writing?
    case TryWrite => pc.Writing? || pc.Idle?
  }

  lemma {:induction false} OneMoveOn(s: State, mv: Move, t: nat, call: Call)
    requires t < |s.threads| && !s.fused && OnTheWay(s.threads[t].pc, call)
    ensures var pc := Step(s, mv).threads[t].pc;
      if InCall(pc) then OnTheWay(pc, call) else Ends(pc, call)
  {}

  /** However the other users interleave, `read` and `write` end with their guard or not at all. */
  lemma {:induction false} CallEnds(s: State, t: nat, call: Call, moves: seq<Move>)
    requires t < |s.threads| && !s.fused && s.threads[t].pc == Idle
    requires forall k :: 0 <= k < |moves| ==> InCall(Run(Step(s, Move(t, call)), moves[..k]).threads[t].pc)
    ensures var pc := Run(Step(s, Move(t, call)), moves).threads[t].pc;
      if InCall(pc) then OnTheWay(pc, call) else Ends(pc, call)
  {
    var s0 := Step(s, Move(t, call));
    if moves == [] {
    } else {
      var before := moves[..|moves| - 1];
      forall k | 0 <= k < |before|
        ensures InCall(Run(s0, before[..k]).threads[t].pc)
      {
        assert before[..k] == moves[..k];
      }
      CallEnds(s, t, call, before);
      hide Step;
      OneMoveOn(Run(s0, before), moves[|moves| - 1], t, call);
    }
  }

  /** The whole of a call that nobody disturbs. */
  ghost function Alone(s: State, t: nat, call: Call, n: nat): (r: State)
    ensures |r.threads| == |s.threads| && r.fused == s.fused
  {
    if n == 0 then s else Step(Alone(s, t, call, n - 1), Move(t, call))
  }

  /** Of a free lock every call gets its guard, at its third operation. */
  lemma {:induction false} FreeLockIsGranted(s: State, t: nat, call: Call)
    requires t < |s.threads| && !s.fused && s.threads[t].pc == Idle && s.sh == Shared(0, false)
    ensures var r := Alone(s, t, call, 3);
      if call.Read? || call.TryRead? then r.threads[t].pc == Reading && r.sh == Shared(1, false)
      else r.threads[t].pc == Writing && r.sh == Shared(0, true)
  {
    var s1 := Alone(s, t, call, 1);
    assert s1 == Step(s, Move(t, call)) by {
      assert Alone(s, t, call, 0) == s;
    }
    var s2 := Alone(s, t, call, 2);
    assert s2 == Step(s1, Move(t, call));
    assert Alone(s, t, call, 3) == Step(s2, Move(t, call));
  }

  /** Of a lock with the writer's flag set the try calls return without a guard, and nothing has changed. */
  lemma {:induction false} WrittenLockIsRefused(s: State, t: nat, call: Call)
    requires t < |s.threads| && !s.fused && s.threads[t].pc == Idle && s.sh.writer
    ensures var r := Alone(s, t, call, 2);
      && r.sh == s.sh
      && (call.TryRead? || call.TryWrite? ==> r.threads[t].pc == Idle)
      && (call.Read? ==> r.threads[t].pc == CheckWriter(false))
      && (call.Write? ==> r.threads[t].pc == Swap(false))
  {
    assert Alone(s, t, call, 1) == Step(s, Move(t, call)) by {
      assert Alone(s, t, call, 0) == s;
    }
    assert Alone(s, t, call, 2) == Step(Alone(s, t, call, 1), Move(t, call));
  }

  /** Of a lock that is read, a reader gets a guard more; a writer gets none and leaves its flag set. */
  lemma {:induction false} ReadLockIsShared(s: State, t: nat, call: Call)
    requires t < |s.threads| && !s.fused && s.threads[t].pc == Idle && !s.sh.writer && s.sh.readers > 0
    ensures var r := Alone(s, t, call, 3);
      && (call.Read? || call.TryRead? ==> r.threads[t].pc == Reading && r.sh == Shared(s.sh.readers + 1, false))
      && (call.Write? ==> r.threads[t].pc == Swap(false) && r.sh == Shared(s.sh.readers, true))
      && (call.TryWrite? ==> r.threads[t].pc == Idle && r.sh == Shared(s.sh.readers, true))
  {
    var s1 := Alone(s, t, call, 1);
    assert s1 == Step(s, Move(t, call)) by {
      assert Alone(s, t, call, 0) == s;
    }
    var s2 := Alone(s, t, call, 2);
    assert s2 == Step(s1, Move(t, call));
    assert Alone(s, t, call, 3) == Step(s2, Move(t, call));
  }

  /** A dropped guard gives back what it took. */
  lemma {:induction false} DropUndoes(s: State, t: nat, call: Call)
    requires t < |s.threads| && !s.fused && s.threads[t].pc == Idle && s.sh == Shared(0, false)
    ensures Alone(s, t, call, 4).sh == s.sh && Alone(s, t, call, 4).threads[t].pc == Idle
  {
    FreeLockIsGranted(s, t, call);
    assert Alone(s, t, call, 4) == Step(Alone(s, t, call, 3), Move(t, call));
    hide Alone;
  }
}

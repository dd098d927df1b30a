/** What the keyboard promises over every run of interrupts and reads. */
module KeyboardLaws {
  import opened Common
  import opened Keyboard

  datatype Action = Key(code: Byte) | Event | Char

  /** How many pending codes a read takes. */
  function Takes(q: Queue, a: Action): (n: nat)
    ensures n <= |q.pending|
  {
    match a
    case Key(_) => 0
    case Event => if q.pending == [] then 0 else 1
    case Char =>
      var n := FirstTyped(q.pending, q.mods, 0);
      if n < |q.pending| then n + 1 else n
  }

  function Apply(q: Queue, a: Action): Queue {
    if a.Key? then Arrive(q, a.code) else q.(pending := q.pending[Takes(q, a)..])
  }

  function Run(actions: seq<Action>): Queue {
    if actions == [] then EMPTY else Apply(Run(actions[..|actions| - 1]), actions[|actions| - 1])
  }

  // ---------------------------------------------------------------------------------------------
  // First in, first out
  // ---------------------------------------------------------------------------------------------

  predicate IsPlain(a: Action) { a.Key? && !IsModifier(KeyOf(a.code)) }

  /** The codes of a run that are no modifiers. */
  ghost function Arrivals(actions: seq<Action>): seq<Byte> {
    if actions == [] then []
    else
      var last := actions[|actions| - 1];
      Arrivals(actions[..|actions| - 1]) + if IsPlain(last) then [last.code] else []
  }

  /** Those that found room, each with the modifiers at that moment. */
  ghost function Kept(actions: seq<Action>): seq<(Byte, Modifiers)> {
    if actions == [] then []
    else
      var before, last := actions[..|actions| - 1], actions[|actions| - 1];
      Kept(before) + if IsPlain(last) && |Run(before).pending| < CAPACITY then [(last.code, Run(before).mods)] else []
  }

  /** How many came when there was no room. */
  ghost function Lost(actions: seq<Action>): nat {
    if actions == [] then 0
    else
      var before, last := actions[..|actions| - 1], actions[|actions| - 1];
      Lost(before) + if IsPlain(last) && |Run(before).pending| >= CAPACITY then 1 else 0
  }

  /** The codes that reads have taken, in the order of the reads. */
  ghost function Taken(actions: seq<Action>): seq<Byte> {
    if actions == [] then []
    else
      var q, last := Run(actions[..|actions| - 1]), actions[|actions| - 1];
      Taken(actions[..|actions| - 1]) + q.pending[..Takes(q, last)]
  }

  ghost function Codes(kept: seq<(Byte, Modifiers)>): (r: seq<Byte>)
    ensures |r| == |kept|
  {
    seq(|kept|, i requires 0 <= i < |kept| => kept[i].0)
  }

  lemma CodesConcat(a: seq<(Byte, Modifiers)>, b: seq<(Byte, Modifiers)>)
    ensures Codes(a + b) == Codes(a) + Codes(b)
  {}

  /** There is never more pending than there is room for, and never a modifier. */
  lemma {:induction false} RoomKept(actions: seq<Action>)
    ensures |Run(actions).pending| <= CAPACITY
    ensures forall code :: code in Run(actions).pending ==> !IsModifier(KeyOf(code))
  {
    if actions == [] {
    } else {
      RoomKept(actions[..|actions| - 1]);
    }
  }

  /** A key adds the same to what was kept and to what is pending. */
  lemma {:induction false} KeyKept(before: seq<Action>, code: Byte)
    ensures var actions, q := before + [Key(code)], Run(before);
      var more := if IsPlain(Key(code)) && |q.pending| < CAPACITY then [code] else [];
      && Codes(Kept(actions)) == Codes(Kept(before)) + more
      && Taken(actions) == Taken(before) && Run(actions).pending == q.pending + more
  {
    var actions, q := before + [Key(code)], Run(before);
    assert actions[..|before|] == before;
    var more := if IsPlain(Key(code)) && |q.pending| < CAPACITY then [(code, q.mods)] else [];
    assert Kept(actions) == Kept(before) + more;
    CodesConcat(Kept(before), more);
    CodesOne(more);
    hide Codes, ModifiersAfter, IsModifier;
    assert Taken(actions) == Taken(before) + q.pending[..0];
  }

  /** A read moves a first part of what is pending to what was read. */
  lemma {:induction false} ReadTakes(before: seq<Action>, read: Action)
    requires !read.Key?
    ensures var actions, q := before + [read], Run(before); var n := Takes(q, read);
      && Kept(actions) == Kept(before)
      && Taken(actions) == Taken(before) + q.pending[..n] && Run(actions).pending == q.pending[n..]
  {
    hide Takes;
    assert (before + [read])[..|before|] == before;
  }

  /** What was kept is what was read followed by what is pending: nothing out of order, twice or dropped. */
  lemma {:induction false} FirstInFirstOut(actions: seq<Action>)
    ensures Codes(Kept(actions)) == Taken(actions) + Run(actions).pending
  {
    if actions == [] {
    } else {
      var before, last := actions[..|actions| - 1], actions[|actions| - 1];
      FirstInFirstOut(before);
      assert actions == before + [last];
      hide Codes, Kept, Taken, Run, Takes;
      if last.Key? {
        KeyKept(before, last.code);
      } else {
        ReadTakes(before, last);
        var q, n := Run(before), Takes(Run(before), last);
        assert q.pending == q.pending[..n] + q.pending[n..];
      }
    }
  }

  lemma CodesOne(kept: seq<(Byte, Modifiers)>)
    requires |kept| <= 1
    ensures Codes(kept) == if kept == [] then [] else [kept[0].0]
  {}

  /** Every code that is no modifier was kept or lost, and with none lost the kept ones are the arrivals in order. */
  lemma {:induction false} KeptOrLost(actions: seq<Action>)
    ensures |Arrivals(actions)| == |Kept(actions)| + Lost(actions)
    ensures Lost(actions) == 0 ==> Codes(Kept(actions)) == Arrivals(actions)
  {
    if actions == [] {
      CodesOne([]);
    } else {
      var before, last := actions[..|actions| - 1], actions[|actions| - 1];
      KeptOrLost(before);
      hide IsModifier, Codes, Run;
      var more := if IsPlain(last) && |Run(before).pending| < CAPACITY then [(last.code, Run(before).mods)] else [];
      assert Kept(actions) == Kept(before) + more;
      CodesConcat(Kept(before), more);
      CodesOne(more);
    }
  }

  /** At no moment have more than 255 codes arrived that no read has taken. */
  ghost predicate KeepsUp(actions: seq<Action>) {
    forall k :: 0 <= k <= |actions| ==> |Arrivals(actions[..k])| <= |Taken(actions[..k])| + CAPACITY
  }

  lemma {:induction false} KeepsUpStep(actions: seq<Action>)
    requires actions != []
    ensures KeepsUp(actions) <==>
              KeepsUp(actions[..|actions| - 1]) && |Arrivals(actions)| <= |Taken(actions)| + CAPACITY
  {
    var n := |actions| - 1;
    hide Arrivals, Taken;
    assert actions[..n + 1] == actions;
    if KeepsUp(actions) {
      forall k | 0 <= k <= n
        ensures |Arrivals(actions[..n][..k])| <= |Taken(actions[..n][..k])| + CAPACITY
      {
        assert actions[..n][..k] == actions[..k];
      }
    }
    if KeepsUp(actions[..n]) && |Arrivals(actions)| <= |Taken(actions)| + CAPACITY {
      forall k | 0 <= k <= n + 1
        ensures |Arrivals(actions[..k])| <= |Taken(actions[..k])| + CAPACITY
      {
        if k <= n {
          assert actions[..n][..k] == actions[..k];
        }
      }
    }
  }

  /** Codes are lost exactly if the readers fall behind by more than the capacity. */
  lemma {:induction false} LossExactly(actions: seq<Action>)
    ensures Lost(actions) == 0 <==> KeepsUp(actions)
  {
    if actions == [] {
    } else {
      var before, last := actions[..|actions| - 1], actions[|actions| - 1];
      LossExactly(before);
      KeepsUpStep(actions);
      RoomKept(before);
      FirstInFirstOut(before);
      KeptOrLost(before);
      hide Kept, Codes, Run, KeepsUp, IsModifier, Takes;
    }
  }

  /** The A key going down n times with no read between. */
  ghost function Presses(n: nat): (actions: seq<Action>)
    ensures |actions| == n
  {
    if n == 0 then [] else Presses(n - 1) + [Key(0x1E)]
  }

  lemma {:induction false} PressesArrive(n: nat, k: nat)
    requires k <= n
    ensures |Arrivals(Presses(n)[..k])| == k && Taken(Presses(n)[..k]) == []
  {
    hide FirstTyped, Run;
    if k == 0 {
    } else {
      PressesArrive(n, k - 1);
      PressAt(n, k - 1);
      assert Presses(n)[..k][..k - 1] == Presses(n)[..k - 1] && Presses(n)[..k][k - 1] == Key(0x1E);
    }
  }

  lemma {:induction false} PressAt(n: nat, k: nat)
    requires k < n
    ensures Presses(n)[k] == Key(0x1E)
  {
    if k == n - 1 {
    } else {
      PressAt(n - 1, k);
    }
  }

  /** It happens: typing ahead loses something exactly from the 256th press on. */
  lemma {:induction false} TypeAheadLosesExactly(n: nat)
    ensures Lost(Presses(n)) > 0 <==> n > 255
  {
    LossExactly(Presses(n));
    forall k | 0 <= k <= n
      ensures |Arrivals(Presses(n)[..k])| == k && Taken(Presses(n)[..k]) == []
    {
      PressesArrive(n, k);
    }
    hide Arrivals, Taken, Lost, Presses;
    assert |Arrivals(Presses(n)[..n])| == n;
  }

  // ---------------------------------------------------------------------------------------------
  // Modifiers
  // ---------------------------------------------------------------------------------------------

  /** The last code of a run that one of two keys sent. */
  ghost function LastOf(actions: seq<Action>, a: Byte, b: Byte): Option<Byte> {
    if actions == [] then None
    else
      var last := actions[|actions| - 1];
      if last.Key? && (KeyOf(last.code) == a || KeyOf(last.code) == b) then Some(last.code)
      else LastOf(actions[..|actions| - 1], a, b)
  }

  /** The key went down and has not come up. */
  ghost predicate Held(actions: seq<Action>, key: Byte) {
    var last := LastOf(actions, key, key);
    last.Some? && !Released(last.value)
  }

  ghost function CapsPresses(actions: seq<Action>): nat {
    if actions == [] then 0
    else CapsPresses(actions[..|actions| - 1]) + if actions[|actions| - 1] == Key(CAPSLOCK) then 1 else 0
  }

  /** Control and alt say whether their key is held, caps whether its key was pressed an odd number of times. */
  lemma {:induction false} ModifiersFollow(actions: seq<Action>)
    ensures var m := Run(actions).mods;
      && (m.ctrl <==> Held(actions, LCTRL))
      && (m.alt <==> Held(actions, ALT))
      && (m.caps <==> CapsPresses(actions) % 2 == 1)
      && (m.shift <==> var last := LastOf(actions, LSHIFT, RSHIFT); last.Some? && !Released(last.value))
  {
    if actions == [] {
    } else {
      var before, last := actions[..|actions| - 1], actions[|actions| - 1];
      ModifiersFollow(before);
      assert Run(actions).mods == if last.Key? then ModifiersAfter(Run(before).mods, last.code) else Run(before).mods;
      hide Run, KeyOf;
    }
  }

  lemma {:induction false} LastOfTwo(actions: seq<Action>, a: Byte, b: Byte)
    ensures var last := LastOf(actions, a, b);
      match last
      case None => LastOf(actions, a, a) == None && LastOf(actions, b, b) == None
      case Some(code) =>
        || (KeyOf(code) == a && LastOf(actions, a, a) == last)
        || (KeyOf(code) == b && LastOf(actions, b, b) == last)
  {
    if actions == [] {
    } else {
      LastOfTwo(actions[..|actions| - 1], a, b);
    }
  }

  /** The shift that the last shift code did not come from. */
  ghost function OtherShift(code: Byte): Byte {
    if KeyOf(code) == LSHIFT then RSHIFT else LSHIFT
  }

  /**
   * The shift flag says whether a shift is held, except exactly after one shift was let go while the other is
   * held: then the flag is down.
   */
  lemma {:induction false} ShiftExactly(actions: seq<Action>)
    ensures var shift, held := Run(actions).mods.shift, Held(actions, LSHIFT) || Held(actions, RSHIFT);
      var last := LastOf(actions, LSHIFT, RSHIFT);
      && (shift ==> held)
      && ((shift <==> held) <==> (last.Some? && Released(last.value) ==> !Held(actions, OtherShift(last.value))))
  {
    ModifiersFollow(actions);
    LastOfTwo(actions, LSHIFT, RSHIFT);
  }

  /** It happens: both shifts down and the right one let go leaves the flag down under the left one. */
  lemma {:induction false} OneShiftLetGo()
    ensures var actions := [Key(LSHIFT), Key(RSHIFT), Key(RSHIFT + 0x80)];
      Held(actions, LSHIFT) && !Run(actions).mods.shift
  {
    var a, b, c := Key(LSHIFT), Key(RSHIFT), Key(RSHIFT + 0x80);
    assert [a, b, c][..2] == [a, b] && [a, b][..1] == [a] && [a][..0] == [];
    ModifiersFollow([a, b, c]);
    assert LastOf([a], LSHIFT, LSHIFT) == Some(LSHIFT);
    assert LastOf([a, b], LSHIFT, LSHIFT) == Some(LSHIFT);
    assert LastOf([a, b, c], LSHIFT, LSHIFT) == Some(LSHIFT);
    assert LastOf([a, b, c], LSHIFT, RSHIFT) == Some(RSHIFT + 0x80);
  }

  // ---------------------------------------------------------------------------------------------
  // Characters
  // ---------------------------------------------------------------------------------------------

  /** A code means the same under both modifiers: what matters for a letter is shift against caps. */
  predicate Alike(code: Byte, m: Modifiers, m': Modifiers) {
    var key := KeyOf(code);
    || Released(code)
    || (if Letter(key).Some? then (m.shift != m.caps) == (m'.shift != m'.caps)
        else Symbols(key).None? || Symbols(key).value.0 == Symbols(key).value.1 || m.shift == m'.shift)
  }

  /**
   * A press is decoded when it is read, not when the key goes down: the character is the one the key had when
   * it went down exactly if the modifiers of the two moments agree on it.
   */
  lemma {:induction false} TypedAlikeExactly(actions: seq<Action>)
    requires Run(actions).pending != []
    ensures var q, j := Run(actions), |Taken(actions)|;
      && j < |Kept(actions)| && Kept(actions)[j].0 == q.pending[0]
      && var (code, atPress) := Kept(actions)[j];
        Typed(code, q.mods) == Typed(code, atPress) <==> Alike(code, q.mods, atPress)
  {
    FirstInFirstOut(actions);
    var j := |Taken(actions)|;
    assert Codes(Kept(actions))[j] == Run(actions).pending[0];
    DecodesAlikeExactly(Run(actions).pending[0], Run(actions).mods, Kept(actions)[j].1);
  }

  lemma DecodesAlikeExactly(code: Byte, m: Modifiers, m': Modifiers)
    ensures Typed(code, m) == Typed(code, m') <==> Alike(code, m, m')
  {}

  /** Shift down, A, shift up, and then the read gives the small letter. */
  lemma {:induction false} ShiftComesTooLate()
    ensures var actions := [Key(LSHIFT), Key(0x1E), Key(LSHIFT + 0x80)];
      var q := Run(actions);
      && Kept(actions) == [(0x1E, q.mods.(shift := true))] && Typed(0x1E, Kept(actions)[0].1) == Some('A')
      && Takes(q, Char) == 1 && Typed(q.pending[0], q.mods) == Some('a')
  {
    var a, b, c := Key(LSHIFT), Key(0x1E), Key(LSHIFT + 0x80);
    assert [a, b, c][..2] == [a, b] && [a, b][..1] == [a] && [a][..0] == [];
    assert Run([a]) == Queue([], EMPTY.mods.(shift := true));
    assert Run([a, b]) == Queue([0x1E], EMPTY.mods.(shift := true));
    assert Run([a, b, c]) == Queue([0x1E], EMPTY.mods);
    assert Kept([]) == [] && Kept([a]) == [];
    assert Kept([a, b]) == [(0x1E, EMPTY.mods.(shift := true))];
  }

  /** The key of a character that is no letter, and whether it takes shift. */
  function SymbolKeyFor(c: char): Option<(Byte, bool)> {
    match c
    case '1' => Some((0x02, false)) case '!' => Some((0x02, true))
    case '2' => Some((0x03, false)) case '@' => Some((0x03, true))
    case '3' => Some((0x04, false)) case '#' => Some((0x04, true))
    case '4' => Some((0x05, false)) case '$' => Some((0x05, true))
    case '5' => Some((0x06, false)) case '%' => Some((0x06, true))
    case '6' => Some((0x07, false)) case '^' => Some((0x07, true))
    case '7' => Some((0x08, false)) case '&' => Some((0x08, true))
    case '8' => Some((0x09, false)) case '*' => Some((0x09, true))
    case '9' => Some((0x0A, false)) case '(' => Some((0x0A, true))
    case '0' => Some((0x0B, false)) case ')' => Some((0x0B, true))
    case '-' => Some((0x0C, false)) case '_' => Some((0x0C, true))
    case '=' => Some((0x0D, false)) case '+' => Some((0x0D, true))
    case '[' => Some((0x1A, false)) case '{' => Some((0x1A, true))
    case ']' => Some((0x1B, false)) case '}' => Some((0x1B, true))
    case ';' => Some((0x27, false)) case ':' => Some((0x27, true))
    case '\'' => Some((0x28, false)) case '\"' => Some((0x28, true))
    case '`' => Some((0x29, false)) case '~' => Some((0x29, true))
    case '\\' => Some((0x2B, false)) case '|' => Some((0x2B, true))
    case ',' => Some((0x33, false)) case '<' => Some((0x33, true))
    case '.' => Some((0x34, false)) case '>' => Some((0x34, true))
    case '/' => Some((0x35, false)) case '?' => Some((0x35, true))
    case ' ' => Some((0x39, false)) case '\t' => Some((0x0F, false))
    case '\n' => Some((0x1C, false))
    case _ => if c == 8 as char then Some((0x0E, false)) else None
  }

  /** The keys of the letters, in alphabetical order. */
  function LetterKeys(): (r: seq<Byte>)
    ensures |r| == 26
  {
    [0x1E, 0x30, 0x2E, 0x20, 0x12, 0x21, 0x22, 0x23, 0x17, 0x24, 0x25, 0x26, 0x32,
     0x31, 0x18, 0x19, 0x10, 0x13, 0x1F, 0x14, 0x16, 0x2F, 0x11, 0x2D, 0x15, 0x2C]
  }

  /** The key of a character, and whether it takes shift while caps is off. */
  function KeyFor(c: char): Option<(Byte, bool)> {
    if 'a' <= c <= 'z' then Some((LetterKeys()[(c - 'a') as int], false))
    else if 'A' <= c <= 'Z' then Some((LetterKeys()[(c - 'A') as int], true))
    else SymbolKeyFor(c)
  }

  lemma SymbolsBack(key: Byte, shift: bool)
    requires Symbols(key).Some?
    ensures var c := if shift then Symbols(key).value.1 else Symbols(key).value.0;
      SymbolKeyFor(c).Some? && SymbolKeyFor(c).value.0 == key && !('a' <= c <= 'z') && !('A' <= c <= 'Z')
  {}

  lemma LettersBack(key: Byte)
    requires Letter(key).Some?
    ensures 'a' <= Letter(key).value <= 'z' && LetterKeys()[(Letter(key).value - 'a') as int] == key
  {}

  /** No two keys type the same character, under whatever modifiers. */
  lemma {:induction false} OneKeyPerCharacter(key: Byte, shift: bool, caps: bool)
    requires Decode(key, shift, caps).Some?
    ensures KeyFor(Decode(key, shift, caps).value).Some? && KeyFor(Decode(key, shift, caps).value).value.0 == key
  {
    hide Symbols, SymbolKeyFor, Letter, LetterKeys;
    if Letter(key).Some? {
      LettersBack(key);
    } else {
      SymbolsBack(key, shift);
    }
  }

  lemma SymbolsAre(c: char)
    requires !('a' <= c <= 'z') && !('A' <= c <= 'Z')
    ensures SymbolKeyFor(c).Some? <==> ' ' <= c <= '~' || c == '\t' || c == '\n' || c == 8 as char
  {}

  lemma SymbolsForth(c: char)
    requires SymbolKeyFor(c).Some?
    ensures var (key, shift) := SymbolKeyFor(c).value;
        key < 0x80 && Symbols(key).Some? && c == if shift then Symbols(key).value.1 else Symbols(key).value.0
  {}

  lemma NoLetter(key: Byte)
    requires Symbols(key).Some?
    ensures Letter(key).None?
  {}

  lemma LettersForth(c: char)
    requires 'a' <= c <= 'z'
    ensures Letter(LetterKeys()[(c - 'a') as int]) == Some(c) && LetterKeys()[(c - 'a') as int] < 0x80
  {}

  /** Printable ASCII, backspace, tab and newline. */
  predicate Typable(c: char) { ' ' <= c <= '~' || c == '\t' || c == '\n' || c == 8 as char }

  /** Every such character is typed by the key and the shift named for it, with caps off. */
  lemma {:induction false} KeyForTypes(c: char)
    ensures KeyFor(c).Some? <==> Typable(c)
    ensures KeyFor(c).Some? ==>
              KeyFor(c).value.0 < 0x80 && Decode(KeyFor(c).value.0, KeyFor(c).value.1, false) == Some(c)
  {
    hide Symbols, SymbolKeyFor, Letter, LetterKeys;
    if 'a' <= c <= 'z' {
      LettersForth(c);
    } else if 'A' <= c <= 'Z' {
      LettersForth(c - 'A' + 'a');
    } else {
      SymbolsAre(c);
      if SymbolKeyFor(c).Some? {
        SymbolsForth(c);
        NoLetter(SymbolKeyFor(c).value.0);
      }
    }
  }

  ghost predicate Types(code: Byte, m: Modifiers, c: char) { Typed(code, m) == Some(c) }

  /** Some scan code types a character under some modifiers exactly if it is one of these. */
  lemma {:induction false} WhatCanBeTyped(c: char)
    ensures (exists code, m :: Types(code, m, c)) <==> Typable(c)
  {
    hide Decode, KeyFor;
    KeyForTypes(c);
    if Typable(c) {
      var (key, shift) := KeyFor(c).value;
      assert Types(key, Modifiers(shift, false, false, false), c);
    } else {
      forall code: Byte, m: Modifiers
        ensures !Types(code, m, c)
      {
        if Types(code, m, c) {
          OneKeyPerCharacter(KeyOf(code), m.shift, m.caps);
        }
      }
    }
  }

  /** The characters that the reads of a run returned. */
  ghost function Text(actions: seq<Action>): seq<char> {
    if actions == [] then []
    else
      var q, last := Run(actions[..|actions| - 1]), actions[|actions| - 1];
      var n := Takes(q, last);
      Text(actions[..|actions| - 1]) + Written(if n > 0 then Typed(q.pending[n - 1], q.mods) else None)
  }

  /** The characters of the keys that went down, each under the modifiers at that moment; a release has none. */
  ghost function Meant(actions: seq<Action>): seq<char> {
    if actions == [] then []
    else
      var q, last := Run(actions[..|actions| - 1]), actions[|actions| - 1];
      Meant(actions[..|actions| - 1]) + Written(Stroke(last, q.mods))
  }

  /** The character of a press. */
  ghost function Stroke(a: Action, m: Modifiers): Option<char> {
    if a.Key? && a.code < 0x80 && !IsModifier(a.code) then Decode(a.code, m.shift, m.caps) else None
  }

  ghost function Written(c: Option<char>): string {
    match c case None => [] case Some(x) => [x]
  }

  /** A reader that asks after every interrupt. */
  ghost function Eager(codes: seq<Byte>): seq<Action> {
    if codes == [] then [] else Eager(codes[..|codes| - 1]) + [Key(codes[|codes| - 1]), Char]
  }

  lemma {:induction false} TextStep(before: seq<Action>, last: Action)
    ensures var q, actions := Run(before), before + [last]; var n := Takes(q, last);
      && Run(actions) == Apply(q, last)
      && Text(actions) == Text(before) + Written(if n > 0 then Typed(q.pending[n - 1], q.mods) else None)
      && Meant(actions) == Meant(before) + Written(Stroke(last, q.mods))
  {
    assert (before + [last])[..|before|] == before;
  }

  /** With at most one code pending, a read takes it all. */
  lemma TakesTheOne(q: Queue)
    requires |q.pending| <= 1
    ensures Takes(q, Char) == |q.pending|
  {
    hide Typed;
  }

  /** One interrupt and one read, with nothing pending before: what is written is what was meant. */
  lemma {:induction false} EagerStep(before: seq<Action>, code: Byte)
    requires Run(before).pending == []
    ensures var meant := Written(Stroke(Key(code), Run(before).mods));
      var after := before + [Key(code)] + [Char];
      Text(after) == Text(before) + meant && Meant(after) == Meant(before) + meant && Run(after).pending == []
  {
    hide Run, Text, Meant, Arrive, Typed, FirstTyped, IsPlain, Takes, Stroke;
    var q, one := Run(before), before + [Key(code)];
    TextStep(before, Key(code));
    KeyTakesNothing(q, code);
    TextStep(one, Char);
    ArriveAtEmpty(q, code);
    TakesTheOne(Run(one));
    StrokeIs(code, q.mods);
    ReadsAreNoStrokes(Run(one).mods);
  }

  /** A release carries no character, a press the one its key decodes to. */
  lemma TypedIs(code: Byte, m: Modifiers)
    ensures Typed(code, m) == if code < 0x80 then Decode(code, m.shift, m.caps) else None
  {
    hide Decode;
  }

  lemma StrokeIs(code: Byte, m: Modifiers)
    ensures Stroke(Key(code), m) == if IsPlain(Key(code)) then Typed(code, m) else None
  {
    hide Decode;
    TypedIs(code, m);
  }

  lemma ReadsAreNoStrokes(m: Modifiers)
    ensures Stroke(Char, m) == None
  {}

  lemma KeyTakesNothing(q: Queue, code: Byte)
    ensures Takes(q, Key(code)) == 0 && !IsPlain(Char)
  {}

  lemma ArriveAtEmpty(q: Queue, code: Byte)
    requires q.pending == []
    ensures Arrive(q, code).pending == if IsPlain(Key(code)) then [code] else []
    ensures IsPlain(Key(code)) ==> Arrive(q, code).mods == q.mods
  {}

  /** A reader that asks after every interrupt gets exactly the text that was meant. */
  lemma {:induction false} EagerReadsWhatWasMeant(codes: seq<Byte>)
    ensures Text(Eager(codes)) == Meant(Eager(codes)) && Run(Eager(codes)).pending == []
  {
    if codes == [] {
    } else {
      var before, code := Eager(codes[..|codes| - 1]), codes[|codes| - 1];
      EagerReadsWhatWasMeant(codes[..|codes| - 1]);
      assert Eager(codes) == before + [Key(code)] + [Char];
      hide Run, Text, Meant, Eager;
      EagerStep(before, code);
    }
  }

  // ---------------------------------------------------------------------------------------------
  // Scan codes by number
  // ---------------------------------------------------------------------------------------------

  /** The five modifier keys, down and up: what they set, and that they type nothing. */
  lemma {:induction false} ModifierCodes(q: Queue)
    ensures forall code :: code in [0x2A, 0x36] ==> Arrive(q, code) == q.(mods := q.mods.(shift := true))
    ensures forall code :: code in [0xAA, 0xB6] ==> Arrive(q, code) == q.(mods := q.mods.(shift := false))
    ensures Arrive(q, 0x1D) == q.(mods := q.mods.(ctrl := true))
    ensures Arrive(q, 0x9D) == q.(mods := q.mods.(ctrl := false))
    ensures Arrive(q, 0x38) == q.(mods := q.mods.(alt := true))
    ensures Arrive(q, 0xB8) == q.(mods := q.mods.(alt := false))
    ensures Arrive(q, 0x3A) == q.(mods := q.mods.(caps := !q.mods.caps)) && Arrive(q, 0xBA) == q
  {}

  /** No character is on a modifier key. */
  lemma {:induction false} TypableIsPlain(c: char)
    requires Typable(c)
    ensures KeyFor(c).Some? && IsPlain(Key(KeyFor(c).value.0))
  {
    KeyForTypes(c);
    hide Letter, Symbols, Decode, SymbolKeyFor;
    if 'a' <= c <= 'z' {
      LetterIsPlain((c - 'a') as int);
    } else if 'A' <= c <= 'Z' {
      LetterIsPlain((c - 'A') as int);
    } else {
      SymbolIsPlain(c);
    }
  }

  lemma LetterIsPlain(k: nat)
    requires k < 26
    ensures IsPlain(Key(LetterKeys()[k]))
  {}

  lemma SymbolIsPlain(c: char)
    requires SymbolKeyFor(c).Some?
    ensures IsPlain(Key(SymbolKeyFor(c).value.0))
  {}

  /** The strokes for a character when no modifier is down: its key, under the left shift if it takes it. */
  function Strokes(c: char): seq<Action>
    requires KeyFor(c).Some?
  {
    var (key, shift) := KeyFor(c).value;
    if shift then [Key(0x2A), Key(key), Char] else [Key(key), Char]
  }

  /** After any run that has been read up, with shift and caps off, the strokes for a character write it. */
  lemma {:induction false} StrokesWrite(before: seq<Action>, c: char)
    requires Typable(c) && Run(before).pending == [] && !Run(before).mods.shift && !Run(before).mods.caps
    ensures KeyFor(c).Some? && Text(before + Strokes(c)) == Text(before) + [c]
  {
    hide KeyFor, Decode, Typable, Run, Text, IsPlain;
    TypableIsPlain(c);
    KeyForTypes(c);
    var (key, shift) := KeyFor(c).value;
    if shift {
      var shifted := before + [Key(0x2A)];
      assert before + Strokes(c) == shifted + [Key(key)] + [Char];
      ShiftDown(before);
      PlainStroke(shifted, key, c);
    } else {
      assert before + Strokes(c) == before + [Key(key)] + [Char];
      PlainStroke(before, key, c);
    }
  }

  lemma {:induction false} ShiftDown(before: seq<Action>)
    ensures var after := before + [Key(0x2A)];
      Run(after) == Run(before).(mods := Run(before).mods.(shift := true)) && Text(after) == Text(before)
  {
    hide Run, Text, Arrive, Typed, Stroke;
    TextStep(before, Key(0x2A));
    ModifierCodes(Run(before));
    KeyTakesNothing(Run(before), 0x2A);
  }

  lemma {:induction false} PlainStroke(before: seq<Action>, key: Byte, c: char)
    requires Run(before).pending == [] && key < 0x80 && IsPlain(Key(key))
    requires Decode(key, Run(before).mods.shift, Run(before).mods.caps) == Some(c)
    ensures Text(before + [Key(key)] + [Char]) == Text(before) + [c]
  {
    hide Run, Text, Meant, Decode;
    EagerStep(before, key);
  }

  /** Control down and the A key: the letter, and the flag. */
  lemma {:induction false} ControlA()
    ensures Text([Key(0x1D), Key(0x1E), Char]) == ['a'] && Run([Key(0x1D)]).mods.ctrl
  {
    hide Run, Text, Arrive, Typed, Stroke;
    assert [] + [Key(0x1D)] == [Key(0x1D)];
    TextStep([], Key(0x1D));
    assert Run([]) == EMPTY && Text([]) == [] by {
      NothingYet();
    }
    ModifierCodes(EMPTY);
    KeyTakesNothing(EMPTY, 0x1D);
    assert Decode(0x1E, false, false) == Some('a') && IsPlain(Key(0x1E));
    assert [Key(0x1D), Key(0x1E), Char] == [Key(0x1D)] + [Key(0x1E)] + [Char];
    PlainStroke([Key(0x1D)], 0x1E, 'a');
  }

  lemma NothingYet()
    ensures Run([]) == EMPTY && Text([]) == []
  {}
}

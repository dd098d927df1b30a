/** The keyboard's ring buffer and decoder, refining a bounded queue of scan codes. */
module Keyboard {
  import opened Common

  const LCTRL: Byte := 0x1D
  const LSHIFT: Byte := 0x2A
  const RSHIFT: Byte := 0x36
  const ALT: Byte := 0x38
  const CAPSLOCK: Byte := 0x3A

  datatype Modifiers = Modifiers(shift: bool, ctrl: bool, alt: bool, caps: bool)

  datatype KeyEvent = KeyEvent(scanCode: Byte, released: bool, character: Option<char>)

  predicate Released(code: Byte) { code >= 0x80 }

  function KeyOf(code: Byte): Byte { code % 0x80 }

  predicate IsModifier(key: Byte) { key == LSHIFT || key == RSHIFT || key == LCTRL || key == ALT || key == CAPSLOCK }

  /** The letter on a key. */
  function Letter(key: Byte): Option<char> {
    match key
    case 0x10 => Some('q') case 0x11 => Some('w') case 0x12 => Some('e')
    case 0x13 => Some('r') case 0x14 => Some('t')
    case 0x15 => Some('y') case 0x16 => Some('u') case 0x17 => Some('i')
    case 0x18 => Some('o') case 0x19 => Some('p')
    case 0x1E => Some('a') case 0x1F => Some('s') case 0x20 => Some('d')
    case 0x21 => Some('f') case 0x22 => Some('g')
    case 0x23 => Some('h') case 0x24 => Some('j') case 0x25 => Some('k') case 0x26 => Some('l')
    case 0x2C => Some('z') case 0x2D => Some('x') case 0x2E => Some('c')
    case 0x2F => Some('v') case 0x30 => Some('b')
    case 0x31 => Some('n') case 0x32 => Some('m')
    case _ => None
  }

  /** The characters on a key that is no letter, without and with shift. */
  function Symbols(key: Byte): Option<(char, char)> {
    match key
    case 0x02 => Some(('1', '!')) case 0x03 => Some(('2', '@'))
    case 0x04 => Some(('3', '#')) case 0x05 => Some(('4', '$'))
    case 0x06 => Some(('5', '%')) case 0x07 => Some(('6', '^'))
    case 0x08 => Some(('7', '&')) case 0x09 => Some(('8', '*'))
    case 0x0A => Some(('9', '(')) case 0x0B => Some(('0', ')'))
    case 0x0C => Some(('-', '_')) case 0x0D => Some(('=', '+'))
    case 0x0E => Some((8 as char, 8 as char)) case 0x0F => Some(('\t', '\t')) case 0x1C => Some(('\n', '\n'))
    case 0x1A => Some(('[', '{')) case 0x1B => Some((']', '}'))
    case 0x27 => Some((';', ':')) case 0x28 => Some(('\'', '\"'))
    case 0x29 => Some(('`', '~')) case 0x2B => Some(('\\', '|'))
    case 0x33 => Some((',', '<')) case 0x34 => Some(('.', '>'))
    case 0x35 => Some(('/', '?')) case 0x39 => Some((' ', ' '))
    case _ => None
  }

  function ApplyCaps(c: char, shift: bool, caps: bool): char {
    if shift != caps && 'a' <= c <= 'z' then c - 'a' + 'A' else c
  }

  function Decode(key: Byte, shift: bool, caps: bool): Option<char> {
    match Letter(key)
    case Some(c) => Some(ApplyCaps(c, shift, caps))
    case None => match Symbols(key) case None => None case Some(s) => Some(if shift then s.1 else s.0)
  }

  /** What a scan code types under some modifiers; nothing when a key is let go. */
  function Typed(code: Byte, m: Modifiers): Option<char> {
    if Released(code) then None else Decode(KeyOf(code), m.shift, m.caps)
  }

  // ---------------------------------------------------------------------------------------------
  // The operations on a queue
  // ---------------------------------------------------------------------------------------------

  /** The codes not yet read, oldest first, and the modifier flags. */
  datatype Queue = Queue(pending: seq<Byte>, mods: Modifiers)

  const CAPACITY: nat := 255
  const EMPTY: Queue := Queue([], Modifiers(false, false, false, false))

  function ModifiersAfter(m: Modifiers, code: Byte): Modifiers {
    var key := KeyOf(code);
    if key == LSHIFT || key == RSHIFT then m.(shift := !Released(code))
    else if key == LCTRL then m.(ctrl := !Released(code))
    else if key == ALT then m.(alt := !Released(code))
    else if key == CAPSLOCK && !Released(code) then m.(caps := !m.caps)
    else m
  }

  function Arrive(q: Queue, code: Byte): Queue {
    Queue(if IsModifier(KeyOf(code)) || |q.pending| >= CAPACITY then q.pending else q.pending + [code],
          ModifiersAfter(q.mods, code))
  }

  /** How many codes go before the first press, from index i on, that types something. */
  function FirstTyped(codes: seq<Byte>, m: Modifiers, i: nat): (n: nat)
    requires i <= |codes|
    ensures i <= n <= |codes|
    ensures forall k :: i <= k < n ==> Typed(codes[k], m) == None
    ensures n < |codes| ==> Typed(codes[n], m).Some?
    decreases |codes| - i
  {
    if i == |codes| || Typed(codes[i], m).Some? then i else FirstTyped(codes, m, i + 1)
  }

  lemma FirstTypedIs(codes: seq<Byte>, m: Modifiers, i: nat, n: nat)
    requires i <= n <= |codes|
    requires forall k :: i <= k < n ==> Typed(codes[k], m) == None
    requires n < |codes| ==> Typed(codes[n], m).Some?
    ensures FirstTyped(codes, m, i) == n
  {}

  // ---------------------------------------------------------------------------------------------
  // The ring buffer
  // ---------------------------------------------------------------------------------------------

  /** The index after an index, around the ring. */
  function Next(index: Byte): Byte { if index == 255 then 0 else index + 1 }

  /** The bytes from the read index up to the write index, going round. */
  ghost function Ring(buffer: seq<Byte>, read: Byte, write: Byte): (r: seq<Byte>)
    requires |buffer| == 256
    ensures |r| == if read <= write then write - read else 256 - read + write
  {
    if read <= write then buffer[read..write] else buffer[read..] + buffer[..write]
  }

  lemma RingAt(buffer: seq<Byte>, read: Byte, write: Byte, k: nat)
    requires |buffer| == 256 && k < |Ring(buffer, read, write)|
    ensures Ring(buffer, read, write)[k] == buffer[if read + k < 256 then read + k else read + k - 256]
  {}

  lemma {:induction false} RingPush(buffer: seq<Byte>, read: Byte, write: Byte, code: Byte)
    requires |buffer| == 256 && Next(write) != read
    ensures Ring(buffer[write := code], read, Next(write)) == Ring(buffer, read, write) + [code]
  {
    hide Ring;
    var before, after := Ring(buffer, read, write), Ring(buffer[write := code], read, Next(write));
    forall k | 0 <= k < |after|
      ensures after[k] == (before + [code])[k]
    {
      RingAt(buffer[write := code], read, Next(write), k);
      if k < |before| {
        RingAt(buffer, read, write, k);
      }
    }
  }

  lemma {:induction false} RingPop(buffer: seq<Byte>, read: Byte, write: Byte)
    requires |buffer| == 256 && read != write
    ensures Ring(buffer, read, write) == [buffer[read]] + Ring(buffer, Next(read), write)
  {
    hide Ring;
    var before, after := Ring(buffer, read, write), Ring(buffer, Next(read), write);
    forall k | 0 <= k < |before|
      ensures before[k] == ([buffer[read]] + after)[k]
    {
      RingAt(buffer, read, write, k);
      if k > 0 {
        RingAt(buffer, Next(read), write, k - 1);
      }
    }
  }

  class KeyboardBuffer {
    const buffer: array<Byte>
    var writeIndex: Byte
    var readIndex: Byte
    var available: bool
    var shift: bool
    var ctrl: bool
    var alt: bool
    var caps: bool

    ghost predicate Valid()
      reads this
    {
      buffer.Length == 256 && (readIndex != writeIndex ==> available)
    }

    ghost function Pending(): seq<Byte>
      requires Valid()
      reads this, buffer
    {
      Ring(buffer[..], readIndex, writeIndex)
    }

    ghost function State(): Queue
      requires Valid()
      reads this, buffer
    {
      Queue(Pending(), Modifiers(shift, ctrl, alt, caps))
    }

    constructor ()
      ensures Valid() && fresh(buffer) && State() == EMPTY
    {
      buffer := new Byte[256](_ => 0);
      writeIndex, readIndex, available := 0, 0, false;
      shift, ctrl, alt, caps := false, false, false, false;
    }

    method HandleInterrupt(code: Byte)
      requires Valid()
      modifies this, buffer
      ensures Valid() && State() == Arrive(old(State()), code)
    {
      hide Ring;
      var released := code >= 0x80;
      var key := code % 0x80;
      if key == LSHIFT || key == RSHIFT {
        shift := !released;
        return;
      }
      if key == LCTRL {
        ctrl := !released;
        return;
      }
      if key == ALT {
        alt := !released;
        return;
      }
      if key == CAPSLOCK {
        if !released {
          caps := !caps;
        }
        return;
      }
      var next := Next(writeIndex);
      if next != readIndex {
        RingPush(buffer[..], readIndex, writeIndex, code);
        buffer[writeIndex] := code;
        writeIndex := next;
        available := true;
      }
    }

    method ReadEvent() returns (e: Option<KeyEvent>)
      requires Valid()
      modifies this`readIndex
      ensures Valid()
      ensures e.None? <==> old(Pending()) == []
      ensures e.None? ==> Pending() == []
      ensures e.Some? ==>
                var code := old(Pending())[0];
                && Pending() == old(Pending())[1..]
                && e.value == KeyEvent(code, Released(code), Typed(code, old(State()).mods))
                && (code < 0x80 ==> !e.value.released && e.value.character == Decode(code, shift, caps))
                && (code >= 0x80 ==> e.value.released && e.value.character == None)
    {
      hide Decode, Ring;
      if !available || readIndex == writeIndex {
        return None;
      }
      RingPop(buffer[..], readIndex, writeIndex);
      var code := buffer[readIndex];
      readIndex := Next(readIndex);
      var released := code >= 0x80;
      var character := if !released then Decode(code % 0x80, shift, caps) else None;
      return Some(KeyEvent(code, released, character));
    }

    method HasData() returns (r: bool)
      requires Valid()
      ensures r <==> Pending() != []
    {
      return available && readIndex != writeIndex;
    }

    /** Reads up to the first press that types something, or everything. */
    method ReadChar() returns (c: Option<char>)
      requires Valid()
      modifies this`readIndex
      ensures Valid()
      ensures var was, m := old(Pending()), old(State()).mods; var n := FirstTyped(was, m, 0);
        && (if n < |was| then c == Typed(was[n], m) && Pending() == was[n + 1..] else c == None && Pending() == [])
        && (n < |was| ==> was[n] < 0x80 && c == Decode(was[n], shift, caps) && c.Some?)
        && forall k :: 0 <= k < n ==> was[k] >= 0x80 || Decode(was[k], shift, caps) == None
    {
      hide Ring, Decode, FirstTyped;
      ghost var was, m, n := Pending(), State().mods, 0;
      while true
        invariant Valid() && m == State().mods
        invariant n <= |was| && Pending() == was[n..]
        invariant forall k :: 0 <= k < n ==> Typed(was[k], m) == None
        decreases |Pending()|
      {
        var event := ReadEvent();
        if event.Some? {
          if !event.value.released && event.value.character.Some? {
            FirstTypedIs(was, m, 0, n);
            return event.value.character;
          }
          n := n + 1;
        }
        var more := HasData();
        if !more {
          FirstTypedIs(was, m, 0, n);
          return None;
        }
      }
    }
  }
}

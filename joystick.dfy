/**
 * The Master System joypad: one state byte whose low six bits are active-low
 * button lines (bit clear = pressed) and whose top two bits are always set.
 */
module Joystick {

  /** The kinds of digital input a joypad reports; `OtherInput` is every other kind. */
  datatype InputType = Up | Down | Left | Right | Fire | OtherInput

  /** A digital input; `index` tells the fire buttons apart. */
  datatype Input = Input(kind: InputType, index: int)

  const Released: bv8 := 0xFF

  /** The state bit an input drives, or 0 when the joypad ignores it. */
  function InputBit(input: Input): (bit: bv8)
    ensures bit in {0x00, 0x01, 0x02, 0x04, 0x08, 0x10, 0x20}
  {
    match input.kind
    case Up => 0x01
    case Down => 0x02
    case Left => 0x04
    case Right => 0x08
    case Fire => if input.index == 0 then 0x10 else if input.index == 1 then 0x20 else 0x00
    case OtherInput => 0x00
  }

  /**
   * The state after `input` becomes active (pressed) or inactive (released):
   * pressing clears the input's bit and releasing sets it; no other bit
   * changes, and bits 6 and 7 never do.
   */
  function NextState(state: bv8, input: Input, isActive: bool): (r: bv8)
    ensures r & 0xC0 == state & 0xC0
    ensures r & !InputBit(input) == state & !InputBit(input)
    ensures r & InputBit(input) == if isActive then 0 else InputBit(input)
  {
    var bit := InputBit(input);
    InputBitLow(input);
    if bit == 0 then state
    else if isActive then Cleared(state, bit); state & !bit
    else Set(state, bit); state | bit
  }

  lemma InputBitLow(input: Input)
    ensures InputBit(input) & 0xC0 == 0
  {
    match input.kind
    case Up =>
    case Down =>
    case Left =>
    case Right =>
    case Fire =>
    case OtherInput =>
  }

  lemma Cleared(state: bv8, bit: bv8)
    requires bit & 0xC0 == 0
    ensures (state & !bit) & 0xC0 == state & 0xC0
    ensures (state & !bit) & !bit == state & !bit && (state & !bit) & bit == 0
  {
  }

  lemma Set(state: bv8, bit: bv8)
    requires bit & 0xC0 == 0
    ensures (state | bit) & 0xC0 == state & 0xC0
    ensures (state | bit) & !bit == state & !bit && (state | bit) & bit == bit
  {
  }

  /** The state after a sequence of (input, is-active) events from `state`. */
  function Replay(state: bv8, events: seq<(Input, bool)>): bv8
    decreases |events|
  {
    if events == [] then state
    else Replay(NextState(state, events[0].0, events[0].1), events[1..])
  }

  /** Every state a joypad can reach from power-on has bits 6 and 7 set. */
  lemma {:induction false} ReplayKeepsTopBits(state: bv8, events: seq<(Input, bool)>)
    requires state & 0xC0 == 0xC0
    ensures Replay(state, events) & 0xC0 == 0xC0
    decreases |events|
  {
    if events != [] {
      ReplayKeepsTopBits(NextState(state, events[0].0, events[0].1), events[1..]);
    }
  }

  /** Up, Down, Left, Right, Fire 0 and Fire 1 drive bits 0 to 5 in that order. */
  lemma InputBitAssignment(index: int)
    ensures InputBit(Input(Up, index)) == 0x01 && InputBit(Input(Down, index)) == 0x02
    ensures InputBit(Input(Left, index)) == 0x04 && InputBit(Input(Right, index)) == 0x08
    ensures InputBit(Input(Fire, 0)) == 0x10 && InputBit(Input(Fire, 1)) == 0x20
  {
  }

  /** Other kinds of input and fire buttons other than 0 and 1 change nothing. */
  lemma IgnoredInputs(state: bv8, input: Input, isActive: bool)
    requires input.kind == OtherInput || (input.kind == Fire && input.index != 0 && input.index != 1)
    ensures NextState(state, input, isActive) == state
  {
  }

  class Joystick {
    var state: bv8

    ghost predicate Valid()
      reads this
    {
      state & 0xC0 == 0xC0
    }

    constructor ()
      ensures Valid() && state == Released
    {
      state := Released;
    }

    method DidSetInput(input: Input, isActive: bool)
      requires Valid()
      modifies this
      ensures Valid()
      ensures state == NextState(old(state), input, isActive)
    {
      match input.kind {
        case Up => if isActive { state := state & !0x01; } else { state := state | 0x01; }
        case Down => if isActive { state := state & !0x02; } else { state := state | 0x02; }
        case Left => if isActive { state := state & !0x04; } else { state := state | 0x04; }
        case Right => if isActive { state := state & !0x08; } else { state := state | 0x08; }
        case Fire =>
          if input.index == 0 {
            if isActive { state := state & !0x10; } else { state := state | 0x10; }
          } else if input.index == 1 {
            if isActive { state := state & !0x20; } else { state := state | 0x20; }
          }
        case OtherInput =>
      }
    }

    function GetState(): (r: bv8)
      requires Valid()
      reads this
      ensures r & 0xC0 == 0xC0
    {
      state
    }
  }
}

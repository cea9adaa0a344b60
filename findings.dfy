/**
 * Two places where the machine as written departs from what it evidently
 * intends. Each is shown on a concrete input, next to the corrected definition
 * with the intended property proved about it. The rest of the model follows
 * the code as written: port 0xDC reads `ControlPortAAsWritten`, and power-on
 * pads with `PadCartridgeAsWritten` for the images `PaddingKeepsKilobytes`
 * admits.
 */
module Findings {
  import opened Wrappers
  import opened Bits
  import opened Paging
  import opened Bus
  import Joystick

  // ---------------------------------------------------------------- port 0xDC

  /**
   * As written, port 0xDC never shows pad 2's Up and Down: every state pad 1
   * reaches from power-on has bits 6 and 7 set, and the OR keeps them set.
   */
  lemma ControlPortAHidesPad2(pad1Events: seq<(Joystick.Input, bool)>, pad2: bv8)
    ensures ControlPortAAsWritten(Joystick.Replay(Joystick.Released, pad1Events), pad2) & 0xC0 == 0xC0
  {
    var pad1 := Joystick.Replay(Joystick.Released, pad1Events);
    Joystick.ReplayKeepsTopBits(Joystick.Released, pad1Events);
    assert (pad1 | (pad2 << 6)) & 0xC0 == (pad1 & 0xC0) | ((pad2 << 6) & 0xC0);
  }

  /** With pad 1 released and Up held on pad 2, the port as written reads 0xFF; corrected, bit 6 is clear. */
  lemma ControlPortAExample()
    ensures ControlPortAAsWritten(Joystick.Released, 0xFE) == 0xFF
    ensures ControlPortA(Joystick.Released, 0xFE) == 0xBF
  {
  }

  /**
   * Corrected, port 0xDC shows pad 2's Up and Down lines for every pair of
   * reachable joypad states, and it differs from the port as written exactly
   * when Up or Down is held on pad 2.
   */
  lemma ControlPortAShowsPad2(pad1Events: seq<(Joystick.Input, bool)>, pad2Events: seq<(Joystick.Input, bool)>)
    ensures var pad1 := Joystick.Replay(Joystick.Released, pad1Events);
      var pad2 := Joystick.Replay(Joystick.Released, pad2Events);
      ControlPortA(pad1, pad2) >> 6 == pad2 & 0x03 &&
      (ControlPortA(pad1, pad2) == ControlPortAAsWritten(pad1, pad2) <==> pad2 & 0x03 == 0x03)
  {
    var pad1 := Joystick.Replay(Joystick.Released, pad1Events);
    var pad2 := Joystick.Replay(Joystick.Released, pad2Events);
    Joystick.ReplayKeepsTopBits(Joystick.Released, pad1Events);
    var corrected, written := ControlPortA(pad1, pad2), ControlPortAAsWritten(pad1, pad2);
    assert corrected == (corrected & 0x3F) | ((corrected >> 6) << 6);
    assert written == (written & 0x3F) | ((written >> 6) << 6);
  }

  // ---------------------------------------------------------------- cartridges of part kilobytes

  /**
   * As written, a 0x10200-byte cartridge keeps its own size. Under the Sega
   * scheme a write to 0xFFFF selects paging register 2; with bank 4 there, the
   * re-paged slot 32 points 0x10000 bytes in, whatever the table held before, so
   * a read of 0x83FF reaches offset 0x103FF, past the end.
   */
  lemma PartialKilobyteOutOfBounds(image: seq<bv8>, table: seq<Entry>, registers: seq<bv8>, config: Config)
    requires |image| == 0x10200 && |table| == SlotCount && |registers| == 3 && registers[2] == 4
    requires config.scheme == Sega
    ensures |PadCartridgeAsWritten(image)| == 0x10200
    ensures BankSelectRegister(Sega, |PadCartridgeAsWritten(image)|, 0xFFFF) == Some(2)
    ensures var size := |PadCartridgeAsWritten(image)|;
      var entry := PagedReadTable(table, size, registers, 0, config)[32];
      entry == Some(Pointer(Cartridge, 0x10000)) && !EntryInBounds(entry, size) &&
      entry.value.offset + 0x83FF % 0x400 >= size
  {
    WindowSlotExample(table, 0x10200, registers, config);
  }

  /** Corrected, the same image is padded to 0x10400 bytes, and the same slot stays inside the cartridge. */
  lemma PaddedCartridgeInBounds(image: seq<bv8>, table: seq<Entry>, registers: seq<bv8>, config: Config)
    requires |image| == 0x10200 && |table| == SlotCount && |registers| == 3 && registers[2] == 4
    requires config.scheme == Sega
    ensures |PadCartridge(image)| == 0x10400
    ensures var size := |PadCartridge(image)|;
      var entry := PagedReadTable(table, size, registers, 0, config)[32];
      entry == Some(Pointer(Cartridge, 0x10000)) && EntryInBounds(entry, size)
  {
    WindowSlotExample(table, 0x10400, registers, config);
  }

  /** Bank 4 of a cartridge a little over 64 KB starts at 0x10000, and slot 32 shows it from there. */
  lemma WindowSlotExample(table: seq<Entry>, size: nat, registers: seq<bv8>, config: Config)
    requires |table| == SlotCount && size in {0x10200, 0x10400} && |registers| == 3 && registers[2] == 4
    requires config.scheme == Sega
    ensures PagedReadTable(table, size, registers, 0, config)[32] == Some(Pointer(Cartridge, 0x10000))
  {
    DivModUnique(4 * 0x4000, size, 0, 4 * 0x4000);
    assert WindowStart(4, size) == 0x10000;
    assert BitAnd(0, WindowLength(4, size) - 1) == 0;
    PagedReadTableSlot(table, size, registers, 0, config, 32);
  }
}

/**
 * The machine object: the RAM and the page tables are arrays written in place,
 * the registers and clocks are fields, and each method is proved to do to them
 * what the functions of `Bus` say, so that everything proved about `Step`
 * holds of `PerformMachineCycle`.
 */
module MasterSystem {
  import opened Wrappers
  import opened Paging
  import opened Bus
  import PowerOn
  import Joystick

  class ConcreteMachine {
    const config: Config
    const cartridge: seq<bv8>
    const bios: seq<bv8>
    const ram: array<bv8>
    const readPointers: array<Entry>
    const writePointers: array<Entry>
    const pagingRegisters: array<bv8>
    var memoryControl: bv8
    var ioPortControl: bv8
    var timeSinceVdpUpdate: int
    var timeSinceSn76489Update: int
    var timeUntilInterrupt: int
    /** The calls made on the VDP, the SN76489 and the Z80 so far. */
    var calls: seq<Event>
    const joypad1: Joystick.Joystick
    const joypad2: Joystick.Joystick

    /** The machine's state as a value. */
    ghost function Snapshot(): State
      reads this, ram, readPointers, writePointers, pagingRegisters, joypad1, joypad2
    {
      State(Memory(config, cartridge, bios, ram[..], readPointers[..], writePointers[..], pagingRegisters[..],
                   memoryControl),
            ioPortControl, joypad1.state, joypad2.state,
            Clocks(timeSinceVdpUpdate, timeSinceSn76489Update, timeUntilInterrupt, calls))
    }

    ghost predicate Valid()
      reads this, ram, readPointers, writePointers, pagingRegisters, joypad1, joypad2
    {
      readPointers != writePointers && ram != pagingRegisters && joypad1 != joypad2 &&
      joypad1.Valid() && joypad2.Valid() && Wellformed(Snapshot())
    }

    /** The machine at power-on, as `PowerOn.Initial` describes it. */
    constructor (config: Config, image: seq<bv8>, biosRom: seq<bv8>, u: PowerOn.Indeterminate)
      requires PowerOn.IndeterminateOk(u) && PaddingKeepsKilobytes(|image|)
      ensures Valid()
      ensures Snapshot() == PowerOn.Initial(config, image, biosRom, u)
    {
      this.config := config;
      joypad1 := new Joystick.Joystick();
      joypad2 := new Joystick.Joystick();
      PadCartridgeAsWrittenOk(image);
      cartridge := PadCartridgeAsWritten(image);
      bios := if HasBios(config) then PowerOn.LoadBios(biosRom) else u.bios;
      ram := new bv8[RamBytes](i requires 0 <= i < RamBytes => u.ram[i]);
      readPointers := new Entry[SlotCount](i requires 0 <= i < SlotCount => u.readTable[i]);
      writePointers := new Entry[SlotCount](i requires 0 <= i < SlotCount => u.writeTable[i]);
      pagingRegisters := new bv8[] [0, 1, 2];
      memoryControl := 0;
      ioPortControl := 0x0F;
      timeSinceVdpUpdate, timeSinceSn76489Update, timeUntilInterrupt := 0, 0, 0;
      calls := [];
      new;
      assert ram[..] == u.ram && readPointers[..] == u.readTable && writePointers[..] == u.writeTable;
      PowerOnTables();
      PowerOn.InitialState(config, image, biosRom, u, Snapshot());
    }

    /** The constructor's paging: both tables cleared, the cartridge paged in, then RAM mapped. */
    method PowerOnTables()
      requires readPointers.Length == SlotCount && writePointers.Length == SlotCount && readPointers != writePointers
      requires CartridgeSizeOk(|cartridge|) && pagingRegisters.Length == 3 && memoryControl == 0
      requires pagingRegisters[..] == InitialPagingRegisters(Sega)
      modifies readPointers, writePointers, pagingRegisters
      ensures readPointers[..] == PowerOn.InitialReadTable(config, |cartridge|, old(readPointers[..]))
      ensures writePointers[..] == PowerOn.InitialWriteTable(config.model, old(writePointers[..]))
      ensures pagingRegisters[..] == InitialPagingRegisters(config.scheme)
    {
      ghost var read0 := readPointers[..];
      ghost var write0 := writePointers[..];
      Map(readPointers, None, 0x10000, 0, 0);
      ghost var cleared := readPointers[..];
      assert cleared == ClearTable(read0);
      Map(writePointers, None, 0x10000, 0, 0);
      assert writePointers[..] == ClearTable(write0);
      InitialPaging();
      PageCartridge();
      ghost var paged := readPointers[..];
      assert paged == PagedReadTable(cleared, |cartridge|, InitialPagingRegisters(config.scheme), 0, config);
      MapRam();
    }

    /** The Codemasters mapper starts with bank 0 in the third window as well. */
    method InitialPaging()
      requires pagingRegisters.Length == 3 && pagingRegisters[..] == InitialPagingRegisters(Sega)
      modifies pagingRegisters
      ensures pagingRegisters[..] == InitialPagingRegisters(config.scheme)
    {
      if config.scheme == Codemasters {
        pagingRegisters[2] := 0;
      }
    }

    /** The constructor's RAM mapping: 8 KB mirrored over 0xC000-0xFFFF on a Master System, 1 KB on an SG-1000. */
    method MapRam()
      requires readPointers.Length == SlotCount && writePointers.Length == SlotCount && readPointers != writePointers
      modifies readPointers, writePointers
      ensures readPointers[..] == Paging.MapRam(old(readPointers[..]), config.model)
      ensures writePointers[..] == Paging.MapRam(old(writePointers[..]), config.model)
    {
      var size := if config.model == MasterSystem then 8 * 1024 else 1024;
      assert size == RamMirror(config.model);
      Map(readPointers, Some(Pointer(Ram, 0)), size, 0xC000, 0x10000);
      Map(writePointers, Some(Pointer(Ram, 0)), size, 0xC000, 0x10000);
    }

    /** `map`: one slot per kilobyte from `start` to the end, each the source advanced by `(address - start) & (size - 1)`. */
    static method Map(target: array<Entry>, source: Entry, size: nat, start: nat, end: nat)
      requires target.Length == SlotCount && MapEnd(size, start, end) <= AddressSpace
      modifies target
      ensures target[..] == Paging.Map(old(target[..]), source, size, start, end)
    {
      var endAddress := if end == 0 then start + size else end;
      assert endAddress == MapEnd(size, start, end);
      ghost var goal := Paging.Map(target[..], source, size, start, end);
      var address := start;
      while address < endAddress
        invariant start <= address && endAddress <= AddressSpace
        invariant MapFrom(target[..], source, size, start, address, endAddress) == goal
        decreases endAddress - address
      {
        ghost var before := target[..];
        var slot := address / 0x400;
        var entry := MapEntry(source, size, start, address);
        MapFromStep(before, source, size, start, address, endAddress);
        target[slot] := entry;
        address := address + 0x400;
      }
    }

    /** `page_cartridge`: the read table rebuilt from the paging registers, the memory control and the region. */
    method PageCartridge()
      requires readPointers.Length == SlotCount && |cartridge| > 0 && pagingRegisters.Length == 3
      modifies readPointers
      ensures readPointers[..]
           == PagedReadTable(old(readPointers[..]), |cartridge|, pagingRegisters[..], memoryControl, config)
    {
      ghost var table := readPointers[..];
      if memoryControl & 0x40 == 0 || config.region == Japan {
        var c := 0;
        while c < 3
          invariant 0 <= c <= 3
          invariant readPointers[..] == MapWindows(table, |cartridge|, pagingRegisters[..], c)
        {
          var startAddress := (pagingRegisters[c] as int * 0x4000) % |cartridge|;
          Map(readPointers, Some(Pointer(Cartridge, startAddress)), Min(0x4000, |cartridge| - startAddress), c * 0x4000, 0);
          c := c + 1;
        }
        if config.scheme == Sega {
          Map(readPointers, Some(Pointer(Cartridge, 0)), 0x400, 0x0000, 0);
        }
      } else {
        Map(readPointers, None, 0xC000, 0x0000, 0);
      }
      if HasBios(config) && memoryControl & 0x08 == 0 {
        Map(readPointers, Some(Pointer(Bios, 0)), 8 * 1024, 0, 0);
      }
    }

    /** `update_video`. */
    method UpdateVideo()
      modifies this
      ensures Snapshot() == old(Snapshot()).(clocks := Bus.UpdateVideo(old(Snapshot()).clocks))
    {
      calls := calls + [VdpRunFor(timeSinceVdpUpdate)];
      timeSinceVdpUpdate := 0;
    }

    /** `update_audio`. */
    method UpdateAudio(remainder: int)
      modifies this
      ensures Snapshot() == old(Snapshot()).(clocks := Bus.UpdateAudio(old(Snapshot()).clocks, remainder))
    {
      calls := calls + [AudioAdvanced(timeSinceSn76489Update - remainder)];
      timeSinceSn76489Update := remainder;
    }

    /** A terminal read or opcode fetch. */
    method ReadAt(address: Address) returns (value: bv8)
      requires Valid()
      ensures value == ReadByte(Snapshot().memory, address)
    {
      match readPointers[address / 0x400] {
        case None => value := 0xFF;
        case Some(p) =>
          var index := p.offset + address % 0x400;
          match p.buffer {
            case Cartridge => value := cartridge[index];
            case Ram => value := ram[index];
            case Bios => value := bios[index];
          }
      }
    }

    /** A terminal write: bank selection, then the byte stored through the write table. */
    method WriteAt(address: Address, value: bv8)
      requires Valid()
      modifies ram, readPointers, pagingRegisters
      ensures Valid()
      ensures Snapshot() == old(Snapshot()).(memory := WriteMemory(old(Snapshot()).memory, address, value))
    {
      SelectBank(address, value);
      ghost var banked := Snapshot();
      Store(address, value);
      assert Snapshot().memory == banked.memory.(ram := StoreByte(banked.memory.writeTable, banked.memory.ram, address, value));
    }

    /** The bank-select half of a write, for the Sega and the Codemasters schemes. */
    method SelectBank(address: Address, value: bv8)
      requires Valid()
      modifies readPointers, pagingRegisters
      ensures Valid()
      ensures Snapshot() == old(Snapshot()).(memory := BankSelect(old(Snapshot()).memory, address, value))
    {
      if config.scheme == Sega {
        if address >= 0xFFFD && |cartridge| > 48 * 1024 {
          SetPagingRegister(address - 0xFFFD, value);
        }
      } else {
        if address % 0x4000 == 0 && address < 0xC000 {
          SetPagingRegister(address / 0x4000, value);
        }
      }
    }

    /** The byte stored through the write table, or dropped when the slot is unmapped. */
    method Store(address: Address, value: bv8)
      requires WriteTableOk(writePointers[..]) && ram.Length == RamBytes
      modifies ram
      ensures ram[..] == StoreByte(writePointers[..], old(ram[..]), address, value)
    {
      match writePointers[address / 0x400] {
        case Some(p) => ram[p.offset + address % 0x400] := value;
        case None =>
      }
    }

    /** A bank-select write: the register changes, and the cartridge is re-paged, only when the value differs. */
    method SetPagingRegister(i: nat, value: bv8)
      requires Valid() && i < 3
      modifies readPointers, pagingRegisters
      ensures Valid()
      ensures Snapshot() == old(Snapshot()).(memory :=
        var m := old(Snapshot()).memory;
        if m.pagingRegisters[i] == value then m else Bus.PageCartridge(m.(pagingRegisters := m.pagingRegisters[i := value])))
    {
      if pagingRegisters[i] != value {
        ghost var m := Snapshot().memory.(pagingRegisters := Snapshot().memory.pagingRegisters[i := value]);
        assert MemoryOk(m);
        pagingRegisters[i] := value;
        assert Snapshot().memory == m;
        PageCartridge();
        assert Snapshot().memory == Bus.PageCartridge(m);
      }
    }

    /** A terminal input cycle, decoded on `address & 0xC1`. */
    method InputAt(address: Address, view: View) returns (value: bv8)
      requires Valid()
      modifies this
      ensures Valid()
      ensures value == InputPort(old(Snapshot()), address, view).value
      ensures Snapshot() == old(Snapshot()).(clocks := InputPort(old(Snapshot()), address, view).clocks)
    {
      var group := PortGroup(address);
      if group == 0x00 || group == 0x01 {
        value := 0xFF;
      } else if group == 0x40 {
        UpdateVideo();
        value := view.currentLine;
      } else if group == 0x41 {
        value := view.latchedHorizontalCounter;
      } else if group == 0x80 || group == 0x81 {
        AccessVdp(VdpGetRegister(address), view);
        value := view.register;
      } else if group == 0xC0 {
        value := ControlPortAAsWritten(joypad1.GetState(), joypad2.GetState());
      } else {
        value := ControlPortB(joypad2.GetState(), ioPortControl);
      }
    }

    /** A VDP register access: the VDP is run up to the present, accessed, and its interrupt state passed on. */
    method AccessVdp(access: Event, view: View)
      modifies this
      ensures Snapshot() == old(Snapshot()).(clocks := Bus.VdpAccess(old(Snapshot()).clocks, access, view))
    {
      UpdateVideo();
      calls := calls + [access];
      calls := calls + [InterruptLine(view.interruptLine)];
      timeUntilInterrupt := view.timeUntilInterrupt;
    }

    /** A terminal output cycle, decoded on `address & 0xC1`. */
    method OutputAt(address: Address, value: bv8, view: View)
      requires Valid()
      modifies this, readPointers
      ensures Valid()
      ensures Snapshot() == OutputPort(old(Snapshot()), address, value, view)
    {
      var group := PortGroup(address);
      if group == 0x00 {
        MemoryControlOut(value);
      } else if group == 0x01 {
        IoControlOut(value);
      } else if group == 0x40 || group == 0x41 {
        UpdateAudio(view.sn76489Remainder);
        calls := calls + [Sn76489SetRegister(value)];
      } else if group == 0x80 || group == 0x81 {
        AccessVdp(VdpSetRegister(address, value), view);
      }
    }

    /** An output to port group 0x00. */
    method MemoryControlOut(value: bv8)
      requires Valid()
      modifies this, readPointers
      ensures Valid()
      ensures Snapshot() == old(Snapshot()).(memory := MemoryControlWrite(old(Snapshot()).memory, value))
    {
      if config.model == MasterSystem {
        ghost var m := Snapshot().memory.(memoryControl := value);
        assert MemoryOk(m);
        memoryControl := value;
        assert Snapshot().memory == m;
        PageCartridge();
        assert Snapshot().memory == Bus.PageCartridge(m);
      }
    }

    /** An output to port group 0x01. */
    method IoControlOut(value: bv8)
      requires Valid()
      modifies this
      ensures Valid()
      ensures Snapshot() == IoControlWrite(old(Snapshot()), value)
    {
      var previousThs := ThValues(ioPortControl);
      ioPortControl := value;
      var newThs := ThValues(ioPortControl);
      if (newThs ^ previousThs) & newThs != 0 {
        UpdateVideo();
        calls := calls + [VdpLatchHorizontalCounter];
      }
    }

    /** The interrupt countdown at the end of every cycle. */
    method CountDown(length: int)
      requires Valid()
      modifies this
      ensures Valid()
      ensures Snapshot() == old(Snapshot()).(clocks := Bus.CountDown(old(Snapshot()).clocks, length))
    {
      if timeUntilInterrupt > 0 {
        timeUntilInterrupt := timeUntilInterrupt - length;
        if timeUntilInterrupt <= 0 {
          calls := calls + [InterruptLineAt(true, timeUntilInterrupt)];
        }
      }
    }

    /** `perform_machine_cycle`: it does what `Step` says and always asks for no extra delay. */
    method PerformMachineCycle(cycle: Cycle, view: View) returns (value: Option<bv8>, delay: int)
      requires Valid()
      modifies this, ram, readPointers, pagingRegisters
      ensures Valid()
      ensures Outcome(Snapshot(), value) == Step(old(Snapshot()), cycle, view)
      ensures delay == 0
    {
      timeSinceVdpUpdate := timeSinceVdpUpdate + cycle.length;
      timeSinceSn76489Update := timeSinceSn76489Update + cycle.length;
      ghost var timed := Snapshot();
      assert timed == old(Snapshot()).(clocks := Advance(old(Snapshot()).clocks, cycle.length));
      value := None;
      if cycle.isTerminal {
        value := Serve(cycle, view);
      }
      assert Outcome(Snapshot(), value) == Served(timed, cycle, view);
      CountDown(cycle.length);
      delay := 0;
    }

    /** The terminal part of a cycle, by operation. */
    method Serve(cycle: Cycle, view: View) returns (value: Option<bv8>)
      requires Valid()
      modifies this, ram, readPointers, pagingRegisters
      ensures Valid()
      ensures Outcome(Snapshot(), value) == Service(old(Snapshot()), cycle, view)
    {
      var address := cycle.address.GetOr(0);
      match cycle.operation {
        case ReadOpcode =>
          var v := ReadAt(address);
          value := Some(v);
        case Read =>
          var v := ReadAt(address);
          value := Some(v);
        case Write =>
          WriteAt(address, cycle.value);
          value := None;
        case Input =>
          var v := InputAt(address, view);
          value := Some(v);
        case Output =>
          OutputAt(address, cycle.value, view);
          value := None;
        case Interrupt => value := Some(0xFF);
        case OtherOperation => value := None;
      }
    }
  }
}

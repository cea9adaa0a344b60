/** Properties of one bus cycle. */
module BusProperties {
  import opened Wrappers
  import opened Bits
  import opened Paging
  import opened Bus

  // ---------------------------------------------------------------- the trace

  /**
   * `r` extends `c`'s trace without changing the VDP's time, the SN76489's
   * time or the interrupt assertions, and keeps flushes before uses.
   */
  predicate TraceKept(c: Clocks, r: Clocks)
  {
    c.events <= r.events && VideoTime(r) == VideoTime(c) && AudioTime(r) == AudioTime(c) &&
    AssertionsIn(r.events) == AssertionsIn(c.events) &&
    (FlushOrdered(c.events) ==> FlushOrdered(r.events))
  }

  lemma EmitFacts(c: Clocks, e: Event)
    ensures Emit(c, e).events == c.events + [e]
    ensures VideoTime(Emit(c, e)) == VideoTime(c) + VideoTimeOf(e)
    ensures AudioTime(Emit(c, e)) == AudioTime(c) + AudioTimeOf(e)
    ensures AssertionsIn(Emit(c, e).events) == AssertionsIn(c.events) + (if e.InterruptLineAt? then [e.offset] else [])
    ensures FlushOrdered(Emit(c, e).events) <==> FlushOrdered(c.events) && FollowsFlush(c.events, e)
  {
    AppendEvent(c.events, e);
  }

  lemma UpdateVideoKeepsTrace(c: Clocks)
    ensures TraceKept(c, UpdateVideo(c))
  {
    EmitFacts(c.(timeSinceVdpUpdate := 0), VdpRunFor(c.timeSinceVdpUpdate));
  }

  /** A VDP access is flushed first and followed by the interrupt line update. */
  lemma VdpAccessKeepsTrace(c: Clocks, access: Event, view: View)
    requires NeedsVideoFlush(access)
    ensures TraceKept(c, VdpAccess(c, access, view))
  {
    var v := UpdateVideo(c);
    UpdateVideoKeepsTrace(c);
    EmitFacts(v, access);
    EmitFacts(Emit(v, access), InterruptLine(view.interruptLine));
  }

  /** An SN76489 write is preceded by the audio update. */
  lemma PsgWriteKeepsTrace(c: Clocks, value: bv8, remainder: int)
    ensures TraceKept(c, PsgWrite(c, value, remainder))
  {
    var used := AudioAdvanced(c.timeSinceSn76489Update - remainder);
    EmitFacts(c.(timeSinceSn76489Update := remainder), used);
    EmitFacts(UpdateAudio(c, remainder), Sn76489SetRegister(value));
  }

  lemma IoControlKeepsTrace(s: State, value: bv8)
    ensures TraceKept(s.clocks, IoControlWrite(s, value).clocks)
  {
    if LatchesHorizontalCounter(ThValues(s.ioPortControl), ThValues(value)) {
      UpdateVideoKeepsTrace(s.clocks);
      EmitFacts(UpdateVideo(s.clocks), VdpLatchHorizontalCounter);
    }
  }

  lemma InputKeepsTrace(s: State, address: Address, view: View)
    ensures TraceKept(s.clocks, InputPort(s, address, view).clocks)
  {
    var group := PortGroup(address);
    if group == 0x40 {
      UpdateVideoKeepsTrace(s.clocks);
    } else if group == 0x80 || group == 0x81 {
      VdpAccessKeepsTrace(s.clocks, VdpGetRegister(address), view);
    }
  }

  lemma OutputKeepsTrace(s: State, address: Address, value: bv8, view: View)
    requires Wellformed(s)
    ensures TraceKept(s.clocks, OutputPort(s, address, value, view).clocks)
  {
    var group := PortGroup(address);
    if group == 0x01 {
      IoControlKeepsTrace(s, value);
    } else if group == 0x40 || group == 0x41 {
      PsgWriteKeepsTrace(s.clocks, value, view.sn76489Remainder);
    } else if group == 0x80 || group == 0x81 {
      VdpAccessKeepsTrace(s.clocks, VdpSetRegister(address, value), view);
    }
  }

  lemma ServiceKeepsTrace(s: State, cycle: Cycle, view: View)
    requires Wellformed(s)
    ensures TraceKept(s.clocks, Service(s, cycle, view).state.clocks)
  {
    var address := cycle.address.GetOr(0);
    match cycle.operation
    case Input => InputKeepsTrace(s, address, view);
    case Output => OutputKeepsTrace(s, address, cycle.value, view);
    case _ =>
  }

  /** Whether a cycle accesses the VDP's ports 0x80/0x81, after which the countdown is re-read from the VDP. */
  predicate AccessesVdpRegister(cycle: Cycle)
  {
    cycle.isTerminal && (cycle.operation == Input || cycle.operation == Output) &&
    (PortGroup(cycle.address.GetOr(0)) == 0x80 || PortGroup(cycle.address.GetOr(0)) == 0x81)
  }

  /** The countdown a cycle starts its count from: the VDP's after a VDP access, the machine's otherwise. */
  function CountdownBefore(s: State, cycle: Cycle, view: View): int
  {
    if AccessesVdpRegister(cycle) then view.timeUntilInterrupt else s.clocks.timeUntilInterrupt
  }

  lemma ServedCountdown(s: State, cycle: Cycle, view: View)
    requires Wellformed(s)
    ensures Served(s, cycle, view).state.clocks.timeUntilInterrupt == CountdownBefore(s, cycle, view)
  {
    if cycle.isTerminal {
      var address := cycle.address.GetOr(0);
      match cycle.operation {
        case Input => InputCountdown(s, address, view);
        case Output => OutputCountdown(s, address, cycle.value, view);
        case Write => assert Service(s, cycle, view).state.clocks == s.clocks;
        case _ =>
      }
    }
  }

  /** The cycle is a terminal output to port group 0x40/0x41, which brings the SN76489 up to date. */
  predicate WritesSn76489(cycle: Cycle)
  {
    cycle.isTerminal && cycle.operation == Output && PortGroup(cycle.address.GetOr(0)) in {0x40, 0x41}
  }

  /** Before the countdown, the time owed to the SN76489 is its update's remainder after a write to it, and unchanged otherwise. */
  lemma ServedAudio(s: State, cycle: Cycle, view: View)
    requires Wellformed(s)
    ensures Served(s, cycle, view).state.clocks.timeSinceSn76489Update
         == if WritesSn76489(cycle) then view.sn76489Remainder else s.clocks.timeSinceSn76489Update
  {
    if cycle.isTerminal {
      var address := cycle.address.GetOr(0);
      match cycle.operation {
        case Output => OutputAudio(s, address, cycle.value, view);
        case Write => assert Service(s, cycle, view).state.clocks == s.clocks;
        case _ =>
      }
    }
  }

  lemma OutputAudio(s: State, address: Address, value: bv8, view: View)
    requires Wellformed(s)
    ensures OutputPort(s, address, value, view).clocks.timeSinceSn76489Update
         == if PortGroup(address) in {0x40, 0x41} then view.sn76489Remainder else s.clocks.timeSinceSn76489Update
  {
    var group := PortGroup(address);
    if group == 0x00 {
      assert OutputPort(s, address, value, view).clocks == s.clocks;
    }
  }

  lemma InputCountdown(s: State, address: Address, view: View)
    ensures InputPort(s, address, view).clocks.timeUntilInterrupt
         == if PortGroup(address) in {0x80, 0x81} then view.timeUntilInterrupt else s.clocks.timeUntilInterrupt
  {
  }

  lemma OutputCountdown(s: State, address: Address, value: bv8, view: View)
    requires Wellformed(s)
    ensures OutputPort(s, address, value, view).clocks.timeUntilInterrupt
         == if PortGroup(address) in {0x80, 0x81} then view.timeUntilInterrupt else s.clocks.timeUntilInterrupt
  {
    var group := PortGroup(address);
    if group == 0x00 {
      assert OutputPort(s, address, value, view).clocks == s.clocks;
    } else if group == 0x01 {
      assert IoControlWrite(s, value).clocks.timeUntilInterrupt == s.clocks.timeUntilInterrupt;
    }
  }

  lemma CountDownFacts(c: Clocks, length: int)
    ensures TraceKept(c, CountDown(c, length)) || (0 < c.timeUntilInterrupt <= length)
    ensures c.events <= CountDown(c, length).events
    ensures VideoTime(CountDown(c, length)) == VideoTime(c)
    ensures CountDown(c, length).timeSinceSn76489Update == c.timeSinceSn76489Update
    ensures AudioTime(CountDown(c, length)) == AudioTime(c)
    ensures AssertionsIn(CountDown(c, length).events)
         == AssertionsIn(c.events) + if 0 < c.timeUntilInterrupt <= length then [c.timeUntilInterrupt - length] else []
    ensures FlushOrdered(c.events) ==> FlushOrdered(CountDown(c, length).events)
  {
    var t := c.timeUntilInterrupt - length;
    EmitFacts(c.(timeUntilInterrupt := t), InterruptLineAt(true, t));
  }

  /**
   * Every cycle adds its length to the VDP's time and to the SN76489's time.
   * The time owed to the SN76489 grows by the length, except after a write
   * to it, which leaves only the remainder of its update owed.
   */
  lemma StepTiming(s: State, cycle: Cycle, view: View)
    requires Wellformed(s)
    ensures VideoTime(Step(s, cycle, view).state.clocks) == VideoTime(s.clocks) + cycle.length
    ensures AudioTime(Step(s, cycle, view).state.clocks) == AudioTime(s.clocks) + cycle.length
    ensures Step(s, cycle, view).state.clocks.timeSinceSn76489Update
         == if WritesSn76489(cycle) then view.sn76489Remainder else s.clocks.timeSinceSn76489Update + cycle.length
  {
    var timed := s.(clocks := Advance(s.clocks, cycle.length));
    var served := Served(timed, cycle, view);
    if cycle.isTerminal { ServiceKeepsTrace(timed, cycle, view); }
    ServedAudio(timed, cycle, view);
    CountDownFacts(served.state.clocks, cycle.length);
  }

  /** A cycle only appends to the trace, and every VDP access and SN76489 write in it follows its flush. */
  lemma StepKeepsFlushOrder(s: State, cycle: Cycle, view: View)
    requires Wellformed(s)
    ensures s.clocks.events <= Step(s, cycle, view).state.clocks.events
    ensures FlushOrdered(s.clocks.events) ==> FlushOrdered(Step(s, cycle, view).state.clocks.events)
  {
    var timed := s.(clocks := Advance(s.clocks, cycle.length));
    var served := Served(timed, cycle, view);
    if cycle.isTerminal { ServiceKeepsTrace(timed, cycle, view); }
    CountDownFacts(served.state.clocks, cycle.length);
  }

  /**
   * The countdown runs down only while positive, and the interrupt line is
   * asserted exactly when it goes from positive to zero or below, with the
   * residual, which lies in `(-length, 0]`, as the offset.
   */
  lemma StepInterrupt(s: State, cycle: Cycle, view: View)
    requires Wellformed(s)
    ensures var c := CountdownBefore(s, cycle, view);
      Step(s, cycle, view).state.clocks.timeUntilInterrupt == (if c > 0 then c - cycle.length else c) &&
      AssertionsIn(Step(s, cycle, view).state.clocks.events)
        == AssertionsIn(s.clocks.events) + (if 0 < c <= cycle.length then [c - cycle.length] else [])
  {
    var timed := s.(clocks := Advance(s.clocks, cycle.length));
    var served := Served(timed, cycle, view);
    if cycle.isTerminal { ServiceKeepsTrace(timed, cycle, view); }
    ServedCountdown(timed, cycle, view);
    CountDownFacts(served.state.clocks, cycle.length);
  }

  /** A non-terminal cycle touches neither memory nor I/O: only the clocks move, and nothing is handed back. */
  lemma StepNonTerminal(s: State, cycle: Cycle, view: View)
    requires Wellformed(s) && !cycle.isTerminal
    ensures Step(s, cycle, view).value == None
    ensures Step(s, cycle, view).state == s.(clocks := CountDown(Advance(s.clocks, cycle.length), cycle.length))
  {
  }

  // ---------------------------------------------------------------- memory reads and writes

  /**
   * A memory write: the paging registers become `SelectedRegisters`, the read
   * table is re-paged exactly when they changed, RAM takes the byte at its
   * mirrored index when the address is 0xC000 or above and is otherwise
   * unchanged, and nothing else changes.
   */
  lemma WriteMemoryFacts(m: Memory, address: Address, value: bv8)
    requires MemoryOk(m)
    ensures var r := WriteMemory(m, address, value);
      var registers := SelectedRegisters(m, address, value);
      r.pagingRegisters == registers &&
      r.readTable == (if registers == m.pagingRegisters then m.readTable
                      else PagedReadTable(m.readTable, |m.cartridge|, registers, m.memoryControl, m.config)) &&
      r.ram == (if address >= 0xC000 then m.ram[RamIndex(m.config.model, address - 0xC000) := value] else m.ram) &&
      r.(pagingRegisters := m.pagingRegisters, readTable := m.readTable, ram := m.ram) == m
  {
    var b := BankSelect(m, address, value);
    match BankSelectRegister(m.config.scheme, |m.cartridge|, address) {
      case Some(i) =>
        if m.pagingRegisters[i] != value {
          assert m.pagingRegisters[i := value][i] != m.pagingRegisters[i];
        } else {
          assert m.pagingRegisters[i := value] == m.pagingRegisters;
        }
      case None =>
    }
    StoreByteMirrorsRam(b.writeTable, b.config.model, b.ram, address, value);
  }

  /** Writing the value a paging register already holds changes no register and no page-table entry. */
  lemma BankSelectSameValue(m: Memory, address: Address, value: bv8)
    requires MemoryOk(m)
    requires BankSelectRegister(m.config.scheme, |m.cartridge|, address).Some?
    requires m.pagingRegisters[BankSelectRegister(m.config.scheme, |m.cartridge|, address).value] == value
    ensures WriteMemory(m, address, value).pagingRegisters == m.pagingRegisters
    ensures WriteMemory(m, address, value).readTable == m.readTable
  {
    WriteMemoryFacts(m, address, value);
    var i := BankSelectRegister(m.config.scheme, |m.cartridge|, address).value;
    assert m.pagingRegisters[i := value] == m.pagingRegisters;
  }

  /** A write below 0xC000 leaves every buffer's contents as they were. */
  lemma WriteBelowRamKeepsContents(m: Memory, address: Address, value: bv8)
    requires MemoryOk(m) && address < 0xC000
    ensures WriteMemory(m, address, value).ram == m.ram
    ensures WriteMemory(m, address, value).cartridge == m.cartridge
    ensures WriteMemory(m, address, value).bios == m.bios
  {
    WriteMemoryFacts(m, address, value);
  }

  /**
   * A byte written at 0xC000 or above is read back at every address that
   * mirrors it, and every address that does not mirror it reads as before.
   */
  lemma WriteThenRead(m: Memory, address: Address, value: bv8, other: Address)
    requires MemoryOk(m) && address >= 0xC000 && other >= 0xC000
    ensures var model := m.config.model;
      ReadByte(WriteMemory(m, address, value), other)
        == if RamIndex(model, other - 0xC000) == RamIndex(model, address - 0xC000) then value
           else ReadByte(m, other)
  {
    WriteMemoryFacts(m, address, value);
  }

  /**
   * An output to port group 0x00: on a Master System the memory-control byte
   * becomes `value` and the read table is re-paged with it; an SG-1000 ignores it.
   */
  lemma MemoryControlWriteFacts(m: Memory, value: bv8)
    requires MemoryOk(m)
    ensures m.config.model == MasterSystem ==>
      MemoryControlWrite(m, value).memoryControl == value &&
      MemoryControlWrite(m, value).readTable == PagedReadTable(m.readTable, |m.cartridge|, m.pagingRegisters, value, m.config) &&
      MemoryControlWrite(m, value).(memoryControl := m.memoryControl, readTable := m.readTable) == m
    ensures m.config.model == SG1000 ==> MemoryControlWrite(m, value) == m
  {
  }

  // ---------------------------------------------------------------- reads after re-paging

  /**
   * What a read of `address` below 0xC000 sees right after `page_cartridge`:
   * the BIOS in the first 8 KB when it is visible, 0xFF when the cartridge is
   * hidden, cartridge offset `address` in the first kilobyte under the Sega
   * scheme, and otherwise, when the selected bank fills its window, the bank's
   * start plus `address mod 16 KB`.
   */
  predicate PagedReadIs(m: Memory, address: Address, b: bv8)
    requires CartridgeSizeOk(|m.cartridge|) && |m.bios| == BiosBytes && |m.pagingRegisters| == 3
    requires address < 0xC000
  {
    var size := |m.cartridge|;
    var start := WindowStart(m.pagingRegisters[address / 0x4000], size);
    if BiosVisible(m.config, m.memoryControl) && address < 0x2000 then b == m.bios[address]
    else if !CartridgeVisible(m.config, m.memoryControl) then b == Unmapped
    else if m.config.scheme == Sega && address < 0x400 then b == m.cartridge[address]
    else start + 0x4000 <= size ==> b == m.cartridge[start + address % 0x4000]
  }

  /** Slot `address / 1024` is slot `j` of window `address / 16384`, and `j` kilobytes plus `address & 1023` is `address mod 16 KB`. */
  lemma WindowOfSlot(address: Address)
    ensures (address / 0x400) / 16 == address / 0x4000
    ensures ((address / 0x400) % 16) * 0x400 + address % 0x400 == address % 0x4000
  {
    var q, r := address / 0x4000, address % 0x4000;
    var j, k := r / 0x400, r % 0x400;
    assert address == 0x400 * (16 * q + j) + k;
    DivModUnique(address, 0x400, 16 * q + j, k);
    DivModUnique(16 * q + j, 16, q, j);
  }

  /** A read through a slot `page_cartridge` has just set, by the slot's `PagedSlot` entry. */
  lemma ReadPagedSlot(m: Memory, previous: Entry, address: Address)
    requires MemoryOk(m) && address < 0xC000
    requires m.readTable[address / 0x400]
          == PagedSlot(previous, |m.cartridge|, m.pagingRegisters, m.memoryControl, m.config, address / 0x400)
    ensures PagedReadIs(m, address, ReadByte(m, address))
  {
    var size := |m.cartridge|;
    var slot := address / 0x400;
    var j := slot % 16;
    WindowOfSlot(address);
    var bank := m.pagingRegisters[address / 0x4000];
    if BiosVisible(m.config, m.memoryControl) && address < 0x2000 {
      ReadMemoryAt(m.readTable, m.cartridge, m.bios, m.ram, address, Pointer(Bios, slot * 0x400));
    } else if !CartridgeVisible(m.config, m.memoryControl) {
    } else if m.config.scheme == Sega && address < 0x400 {
      ReadMemoryAt(m.readTable, m.cartridge, m.bios, m.ram, address, Pointer(Cartridge, 0));
    } else if WindowStart(bank, size) + 0x4000 <= size {
      FullWindowSlot(previous, size, bank, j);
      ReadMemoryAt(m.readTable, m.cartridge, m.bios, m.ram, address,
                   Pointer(Cartridge, WindowStart(bank, size) + j * 0x400));
    }
  }

  /** Whatever the read table held before, a read below 0xC000 from a memory just re-paged is `PagedReadIs`. */
  lemma ReadPagedMemory(m: Memory, previous: seq<Entry>, address: Address)
    requires MemoryOk(m) && |previous| == SlotCount && address < 0xC000
    requires m.readTable == PagedReadTable(previous, |m.cartridge|, m.pagingRegisters, m.memoryControl, m.config)
    ensures PagedReadIs(m, address, ReadByte(m, address))
  {
    PagedReadTableSlot(previous, |m.cartridge|, m.pagingRegisters, m.memoryControl, m.config, address / 0x400);
    ReadPagedSlot(m, previous[address / 0x400], address);
  }

  /**
   * After a write that changes a paging register, a read below 0xC000 sees
   * the newly selected banks, as `PagedReadIs` says of the new registers.
   */
  lemma ReadAfterBankSwitch(m: Memory, address: Address, value: bv8, other: Address)
    requires MemoryOk(m) && other < 0xC000
    requires SelectedRegisters(m, address, value) != m.pagingRegisters
    ensures WriteMemory(m, address, value).pagingRegisters == SelectedRegisters(m, address, value)
    ensures PagedReadIs(WriteMemory(m, address, value), other, ReadByte(WriteMemory(m, address, value), other))
  {
    WriteMemoryFacts(m, address, value);
    ReadPagedMemory(WriteMemory(m, address, value), m.readTable, other);
  }

  /** After an output to port group 0x00 on a Master System, a read below 0xC000 follows the new memory control. */
  lemma ReadAfterMemoryControl(m: Memory, value: bv8, other: Address)
    requires MemoryOk(m) && m.config.model == MasterSystem && other < 0xC000
    ensures MemoryControlWrite(m, value).memoryControl == value
    ensures PagedReadIs(MemoryControlWrite(m, value), other, ReadByte(MemoryControlWrite(m, value), other))
  {
    MemoryControlWriteFacts(m, value);
    ReadPagedMemory(MemoryControlWrite(m, value), m.readTable, other);
  }

  // ---------------------------------------------------------------- whole cycles

  /** A terminal read or opcode fetch hands back the byte the read table maps, and changes only the clocks. */
  lemma StepRead(s: State, cycle: Cycle, view: View)
    requires Wellformed(s) && cycle.isTerminal && (cycle.operation == Read || cycle.operation == ReadOpcode)
    ensures Step(s, cycle, view).value == Some(ReadByte(s.memory, cycle.address.GetOr(0)))
    ensures Step(s, cycle, view).state.(clocks := s.clocks) == s
  {
  }

  /** A terminal write cycle goes through `WriteMemory`, changes no I/O state and hands back nothing. */
  lemma StepWrite(s: State, cycle: Cycle, view: View)
    requires Wellformed(s) && cycle.isTerminal && cycle.operation == Write
    ensures Step(s, cycle, view).value == None
    ensures Step(s, cycle, view).state.memory == WriteMemory(s.memory, cycle.address.GetOr(0), cycle.value)
    ensures Step(s, cycle, view).state.(memory := s.memory, clocks := s.clocks) == s
  {
  }

  /** A terminal input cycle hands back the port's byte and changes at most the clocks. */
  lemma StepInput(s: State, cycle: Cycle, view: View)
    requires Wellformed(s) && cycle.isTerminal && cycle.operation == Input
    ensures Step(s, cycle, view).value == Some(InputPort(s, cycle.address.GetOr(0), view).value)
    ensures Step(s, cycle, view).state.(clocks := s.clocks) == s
  {
  }

  /**
   * A terminal output cycle hands back nothing. Only port group 0x00 changes
   * the memory, only 0x01 the I/O control byte, the pads never change, and
   * an output to 0xC0/0xC1 changes nothing but the time.
   */
  lemma StepOutput(s: State, cycle: Cycle, view: View)
    requires Wellformed(s) && cycle.isTerminal && cycle.operation == Output
    ensures Step(s, cycle, view).value == None
    ensures var group := PortGroup(cycle.address.GetOr(0));
      Step(s, cycle, view).state.memory == (if group == 0x00 then MemoryControlWrite(s.memory, cycle.value) else s.memory)
    ensures var group := PortGroup(cycle.address.GetOr(0));
      Step(s, cycle, view).state.ioPortControl == (if group == 0x01 then cycle.value else s.ioPortControl)
    ensures Step(s, cycle, view).state.pad1 == s.pad1 && Step(s, cycle, view).state.pad2 == s.pad2
    ensures PortGroup(cycle.address.GetOr(0)) in {0xC0, 0xC1} ==>
      Step(s, cycle, view).state == s.(clocks := CountDown(Advance(s.clocks, cycle.length), cycle.length))
  {
    var timed := s.(clocks := Advance(s.clocks, cycle.length));
    var o := OutputPort(timed, cycle.address.GetOr(0), cycle.value, view);
    assert Step(s, cycle, view) == Outcome(o.(clocks := CountDown(o.clocks, cycle.length)), None);
  }

  /** An interrupt acknowledge puts 0xFF on the bus. */
  lemma StepInterruptAcknowledge(s: State, cycle: Cycle, view: View)
    requires Wellformed(s) && cycle.isTerminal && cycle.operation == Interrupt
    ensures Step(s, cycle, view).value == Some(0xFF)
    ensures Step(s, cycle, view).state.(clocks := s.clocks) == s
  {
  }
}

/**
 * One Z80 bus cycle of the Master System: time accounting, memory reads and
 * writes through the page tables, bank-select writes, the I/O ports decoded on
 * `address & 0xC1`, and the interrupt countdown.
 *
 * The VDP, the SN76489 and the Z80 itself are collaborators outside the model.
 * What they answer is a `View` supplied with each cycle; every call the
 * machine makes on a collaborator that changes it is appended to a trace of
 * `Event`s.
 */
module Bus {
  import opened Wrappers
  import opened Bits
  import opened Paging
  import Joystick

  // ---------------------------------------------------------------- cycles and collaborators

  /** The kinds of partial machine cycle the bus distinguishes; `OtherOperation` covers the rest. */
  datatype Operation = ReadOpcode | Read | Write | Input | Output | Interrupt | OtherOperation

  /**
   * A partial machine cycle: its operation, whether it is the terminal part of
   * that operation, its address (absent for some cycles, then read as 0), the
   * byte the Z80 drives for writes and outputs, and its length in half cycles.
   */
  datatype Cycle = Cycle(operation: Operation, isTerminal: bool, address: Option<Address>, value: bv8, length: int)

  /**
   * What the collaborators answer when asked during the cycle: the VDP's
   * current line, latched horizontal counter, register, interrupt line and
   * time until its next interrupt, and the time still owed to the SN76489
   * after `update_audio` has divided the owed time into whole audio cycles.
   */
  datatype View = View(currentLine: bv8, latchedHorizontalCounter: bv8, register: bv8,
                       interruptLine: bool, timeUntilInterrupt: int, sn76489Remainder: int)

  /** A call the machine makes on the VDP, the SN76489 or the Z80. */
  datatype Event =
    | VdpRunFor(duration: int)
    | VdpLatchHorizontalCounter
    | VdpGetRegister(port: Address)
    | VdpSetRegister(port: Address, value: bv8)
    | AudioAdvanced(used: int)
    | Sn76489SetRegister(value: bv8)
    | InterruptLine(level: bool)
    | InterruptLineAt(level: bool, offset: int)

  // ---------------------------------------------------------------- traces

  /** The half cycles one event runs the VDP for. */
  function VideoTimeOf(e: Event): int
  {
    if e.VdpRunFor? then e.duration else 0
  }

  /** The half cycles the VDP has been run for over a trace. */
  function VideoTimeIn(events: seq<Event>): int
    decreases |events|
  {
    if events == [] then 0
    else VideoTimeIn(events[..|events| - 1]) + VideoTimeOf(events[|events| - 1])
  }

  /** The half cycles one event advances the speaker by. */
  function AudioTimeOf(e: Event): int
  {
    if e.AudioAdvanced? then e.used else 0
  }

  /** The half cycles the speaker has been advanced by over a trace. */
  function AudioTimeIn(events: seq<Event>): int
    decreases |events|
  {
    if events == [] then 0
    else AudioTimeIn(events[..|events| - 1]) + AudioTimeOf(events[|events| - 1])
  }

  /** The offsets of the timed interrupt assertions in a trace, in order. */
  function AssertionsIn(events: seq<Event>): seq<int>
    decreases |events|
  {
    if events == [] then []
    else
      var e := events[|events| - 1];
      AssertionsIn(events[..|events| - 1]) + (if e.InterruptLineAt? then [e.offset] else [])
  }

  /** Calls that need the VDP run up to the present first. */
  predicate NeedsVideoFlush(e: Event)
  {
    e.VdpLatchHorizontalCounter? || e.VdpGetRegister? || e.VdpSetRegister?
  }

  /** `e` may follow `previous`: a VDP access right after a VDP run, an SN76489 write right after an audio update. */
  predicate FollowsFlush(previous: seq<Event>, e: Event)
  {
    (NeedsVideoFlush(e) ==> |previous| > 0 && previous[|previous| - 1].VdpRunFor?) &&
    (e.Sn76489SetRegister? ==> |previous| > 0 && previous[|previous| - 1].AudioAdvanced?)
  }

  /** Every event of the trace follows the flush it needs. */
  predicate FlushOrdered(events: seq<Event>)
    decreases |events|
  {
    events == [] || (FlushOrdered(events[..|events| - 1]) && FollowsFlush(events[..|events| - 1], events[|events| - 1]))
  }

  /** `FlushOrdered` means: at every position, the event follows the flush it needs. */
  lemma {:induction false} FlushOrderedMeans(events: seq<Event>)
    ensures FlushOrdered(events) <==> forall i :: 0 <= i < |events| ==> FollowsFlush(events[..i], events[i])
    decreases |events|
  {
    if events != [] {
      var n := |events| - 1;
      var front := events[..n];
      FlushOrderedMeans(front);
      assert forall i :: 0 <= i < n ==> front[..i] == events[..i] && front[i] == events[i];
    }
  }

  /** Appending one event adds its VDP time, its audio time, its interrupt assertion and its flush obligation. */
  lemma AppendEvent(events: seq<Event>, e: Event)
    ensures VideoTimeIn(events + [e]) == VideoTimeIn(events) + VideoTimeOf(e)
    ensures AudioTimeIn(events + [e]) == AudioTimeIn(events) + AudioTimeOf(e)
    ensures AssertionsIn(events + [e]) == AssertionsIn(events) + (if e.InterruptLineAt? then [e.offset] else [])
    ensures FlushOrdered(events + [e]) <==> FlushOrdered(events) && FollowsFlush(events, e)
  {
    assert (events + [e])[..|events|] == events;
  }

  // ---------------------------------------------------------------- I/O port helpers

  /** `address & 0xC1`: which of the eight port groups an I/O address falls in. */
  function PortGroup(address: Address): (g: nat)
    ensures g == BitAnd(address, 0xC1)
    ensures g in {0x00, 0x01, 0x40, 0x41, 0x80, 0x81, 0xC0, 0xC1}
  {
    PortMask(address);
    var low, high := address % 2, (address / 64) % 4;
    assert low == 0 || low == 1;
    assert high == 0 || high == 1 || high == 2 || high == 3;
    low + 64 * high
  }

  /** The levels the two TH lines show, in bits 6 and 7 of port 0xDD. */
  function ThValues(ioPortControl: bv8): (r: bv8)
    ensures r & 0x3F == 0
    ensures r & 0x40 != 0 <==> ioPortControl & 0x22 != 0
    ensures r & 0x80 != 0 <==> ioPortControl & 0x88 != 0
  {
    ((ioPortControl & 0x02) << 5) | ((ioPortControl & 0x20) << 1) |
    ((ioPortControl & 0x08) << 4) | (ioPortControl & 0x80)
  }

  /** TH line A is high when bit 1 or bit 5 of the I/O port control is set. */
  predicate ThA(ioPortControl: bv8) { ioPortControl & 0x22 != 0 }

  /** TH line B is high when bit 3 or bit 7 of the I/O port control is set. */
  predicate ThB(ioPortControl: bv8) { ioPortControl & 0x88 != 0 }

  /** Either TH line goes from low to high between two I/O port control bytes. */
  predicate ThRises(previous: bv8, next: bv8)
  {
    (!ThA(previous) && ThA(next)) || (!ThB(previous) && ThB(next))
  }

  /** The test the machine makes on the TH values before and after a control write: `(new ^ old) & new`. */
  predicate LatchesHorizontalCounter(previousThs: bv8, newThs: bv8)
  {
    (newThs ^ previousThs) & newThs != 0
  }

  /** The machine latches the horizontal counter exactly when a TH line rises. */
  lemma LatchExactlyOnRise(previous: bv8, next: bv8)
    ensures LatchesHorizontalCounter(ThValues(previous), ThValues(next)) <==> ThRises(previous, next)
  {
    var p := ThValues(previous);
    var n := ThValues(next);
    assert (n ^ p) & n == (n & 0x40 & !(p & 0x40)) | (n & 0x80 & !(p & 0x80));
  }

  /**
   * Port 0xDC as the machine computes it: `pad1 | (pad2 << 6)` truncated to
   * eight bits. Bits 0-5 are pad 1's lines; bits 6-7 are pad 1's top bits ORed
   * with pad 2's Up and Down, so they are set whenever pad 1's are.
   */
  function ControlPortAAsWritten(pad1: bv8, pad2: bv8): (r: bv8)
    ensures r & 0x3F == pad1 & 0x3F
    ensures r >> 6 == (pad1 >> 6) | (pad2 & 0x03)
    ensures pad1 & 0xC0 == 0xC0 ==> r & 0xC0 == 0xC0
  {
    pad1 | (pad2 << 6)
  }

  /** Port 0xDC as evidently intended, with pad 1's top bits masked: pad 1's six lines, then pad 2's Up and Down. */
  function ControlPortA(pad1: bv8, pad2: bv8): (r: bv8)
    ensures r & 0x3F == pad1 & 0x3F
    ensures r >> 6 == pad2 & 0x03
  {
    (pad1 & 0x3F) | (pad2 << 6)
  }

  /** Port 0xDD: pad 2's Left, Right and fire lines, two set bits, and the TH levels. */
  function ControlPortB(pad2: bv8, ioPortControl: bv8): (r: bv8)
    ensures r & 0x0F == (pad2 >> 2) & 0x0F
    ensures r & 0x30 == 0x30
    ensures r & 0xC0 == ThValues(ioPortControl)
  {
    (pad2 >> 2) | 0x30 | ThValues(ioPortControl)
  }

  // ---------------------------------------------------------------- memory

  /**
   * The memory side of the machine: the configuration, the three buffers, the
   * two page tables, the paging registers and the memory-control byte.
   */
  datatype Memory = Memory(
    config: Config,
    cartridge: seq<bv8>,
    bios: seq<bv8>,
    ram: seq<bv8>,
    readTable: seq<Entry>,
    writeTable: seq<Entry>,
    pagingRegisters: seq<bv8>,
    memoryControl: bv8)

  /**
   * What holds of the memory in every state the machine reaches: buffer
   * sizes, a cartridge of whole kilobytes, a read table in bounds whose slots
   * 48-63 agree with the write table, a write table mapping the RAM mirror, and
   * three paging registers.
   */
  predicate MemoryOk(m: Memory)
  {
    CartridgeSizeOk(|m.cartridge|) && |m.bios| == BiosBytes && |m.ram| == RamBytes &&
    |m.readTable| == SlotCount && TableInBounds(m.readTable, |m.cartridge|) &&
    MirrorsRam(m.writeTable, m.config.model) && WriteTableOk(m.writeTable) &&
    m.readTable[48..] == m.writeTable[48..] &&
    |m.pagingRegisters| == 3
  }

  /** `page_cartridge` on the memory's own registers; it keeps the memory well formed. */
  function PageCartridge(m: Memory): (r: Memory)
    requires MemoryOk(m)
    ensures MemoryOk(r)
  {
    PagedReadTableInBounds(m.readTable, |m.cartridge|, m.pagingRegisters, m.memoryControl, m.config);
    PagedReadTableKeepsRam(m.readTable, |m.cartridge|, m.pagingRegisters, m.memoryControl, m.config);
    m.(readTable := PagedReadTable(m.readTable, |m.cartridge|, m.pagingRegisters, m.memoryControl, m.config))
  }

  /** The read table's slots 48-63 map the RAM mirror the write table maps. */
  lemma ReadTableMirrorsRam(m: Memory, slot: nat)
    requires MemoryOk(m) && 48 <= slot < SlotCount
    ensures m.readTable[slot] == RamSlot(m.config.model, slot)
  {
    assert m.readTable[slot] == m.readTable[48..][slot - 48];
    assert m.writeTable[slot] == m.writeTable[48..][slot - 48];
  }

  /**
   * A terminal read or opcode fetch: 0xFF from an unmapped slot, and from
   * 0xC000 up the RAM at `(address - 0xC000) mod RamMirror(model)`.
   */
  function ReadByte(m: Memory, address: Address): (r: bv8)
    requires MemoryOk(m)
    ensures m.readTable[address / 0x400].None? ==> r == Unmapped
    ensures address >= 0xC000 ==> r == m.ram[RamIndex(m.config.model, address - 0xC000)]
  {
    if address >= 0xC000 then
      ReadTableMirrorsRam(m, address / 0x400);
      ReadMemoryMirrorsRam(m.readTable, m.config.model, m.cartridge, m.bios, m.ram, address);
      ReadMemory(m.readTable, m.cartridge, m.bios, m.ram, address)
    else
      ReadMemory(m.readTable, m.cartridge, m.bios, m.ram, address)
  }

  /** The paging registers after a write of `value` to `address`. */
  function SelectedRegisters(m: Memory, address: Address, value: bv8): (r: seq<bv8>)
    requires |m.pagingRegisters| == 3
    ensures |r| == 3
  {
    match BankSelectRegister(m.config.scheme, |m.cartridge|, address)
    case None => m.pagingRegisters
    case Some(i) => m.pagingRegisters[i := value]
  }

  /** The bank-select half of a memory write: a changed register re-pages the cartridge. */
  function BankSelect(m: Memory, address: Address, value: bv8): (r: Memory)
    requires MemoryOk(m)
    ensures MemoryOk(r)
  {
    match BankSelectRegister(m.config.scheme, |m.cartridge|, address)
    case None => m
    case Some(i) =>
      if m.pagingRegisters[i] == value then m
      else PageCartridge(m.(pagingRegisters := m.pagingRegisters[i := value]))
  }

  /** A terminal write cycle: bank selection, then the byte stored through the write table. */
  function WriteMemory(m: Memory, address: Address, value: bv8): (r: Memory)
    requires MemoryOk(m)
    ensures MemoryOk(r)
  {
    var b := BankSelect(m, address, value);
    b.(ram := StoreByte(b.writeTable, b.ram, address, value))
  }

  /** An output to port group 0x00: on a Master System, a new memory-control byte and a re-paging. */
  function MemoryControlWrite(m: Memory, value: bv8): (r: Memory)
    requires MemoryOk(m)
    ensures MemoryOk(r)
  {
    if m.config.model == MasterSystem then PageCartridge(m.(memoryControl := value)) else m
  }

  // ---------------------------------------------------------------- clocks and the trace

  /**
   * The machine's time accounting, all in half cycles, and the trace of calls
   * made on the collaborators so far.
   */
  datatype Clocks = Clocks(timeSinceVdpUpdate: int, timeSinceSn76489Update: int, timeUntilInterrupt: int,
                           events: seq<Event>)

  /** The VDP's time: what it has been run for plus what is still owed to it. */
  function VideoTime(c: Clocks): int
  {
    c.timeSinceVdpUpdate + VideoTimeIn(c.events)
  }

  /** The SN76489's time: what the speaker has been advanced by plus what is still owed to it. */
  function AudioTime(c: Clocks): int
  {
    c.timeSinceSn76489Update + AudioTimeIn(c.events)
  }

  /** One more call on a collaborator. */
  function Emit(c: Clocks, e: Event): Clocks
  {
    c.(events := c.events + [e])
  }

  /** The start of every cycle: its length is owed to the VDP and to the SN76489. */
  function Advance(c: Clocks, length: int): Clocks
  {
    c.(timeSinceVdpUpdate := c.timeSinceVdpUpdate + length,
       timeSinceSn76489Update := c.timeSinceSn76489Update + length)
  }

  /** `update_video`: the VDP is run for the time owed to it, which drops to zero. */
  function UpdateVideo(c: Clocks): (r: Clocks)
    ensures r.timeSinceVdpUpdate == 0 && VideoTime(r) == VideoTime(c)
    ensures r.events == c.events + [VdpRunFor(c.timeSinceVdpUpdate)]
    ensures r.timeSinceSn76489Update == c.timeSinceSn76489Update && r.timeUntilInterrupt == c.timeUntilInterrupt
  {
    Emit(c.(timeSinceVdpUpdate := 0), VdpRunFor(c.timeSinceVdpUpdate))
  }

  /**
   * `update_audio`: the speaker is advanced by the owed time less the
   * `remainder` the division into whole audio cycles leaves, and that
   * remainder stays owed, so the SN76489's time is unchanged.
   */
  function UpdateAudio(c: Clocks, remainder: int): (r: Clocks)
    ensures r.events == c.events + [AudioAdvanced(c.timeSinceSn76489Update - remainder)]
    ensures r.timeSinceSn76489Update == remainder && AudioTime(r) == AudioTime(c)
    ensures r.(events := c.events, timeSinceSn76489Update := c.timeSinceSn76489Update) == c
  {
    AppendEvent(c.events, AudioAdvanced(c.timeSinceSn76489Update - remainder));
    Emit(c.(timeSinceSn76489Update := remainder), AudioAdvanced(c.timeSinceSn76489Update - remainder))
  }

  /**
   * A VDP register access on ports 0x80/0x81: the VDP is run up to the present,
   * accessed, and its interrupt line passed to the Z80; the countdown is
   * reloaded from the VDP and the SN76489's time is untouched.
   */
  function VdpAccess(c: Clocks, access: Event, view: View): (r: Clocks)
    ensures r.events == c.events + [VdpRunFor(c.timeSinceVdpUpdate), access, InterruptLine(view.interruptLine)]
    ensures r.timeSinceVdpUpdate == 0 && VideoTime(r) == VideoTime(c) + VideoTimeOf(access)
    ensures r.timeUntilInterrupt == view.timeUntilInterrupt
    ensures r.timeSinceSn76489Update == c.timeSinceSn76489Update
  {
    AppendEvent(c.events, VdpRunFor(c.timeSinceVdpUpdate));
    AppendEvent(c.events + [VdpRunFor(c.timeSinceVdpUpdate)], access);
    AppendEvent(c.events + [VdpRunFor(c.timeSinceVdpUpdate), access], InterruptLine(view.interruptLine));
    assert c.events + [VdpRunFor(c.timeSinceVdpUpdate)] + [access] == c.events + [VdpRunFor(c.timeSinceVdpUpdate), access];
    assert c.events + [VdpRunFor(c.timeSinceVdpUpdate), access] + [InterruptLine(view.interruptLine)]
        == c.events + [VdpRunFor(c.timeSinceVdpUpdate), access, InterruptLine(view.interruptLine)];
    Emit(Emit(UpdateVideo(c), access), InterruptLine(view.interruptLine)).(timeUntilInterrupt := view.timeUntilInterrupt)
  }

  /**
   * An output to port group 0x40/0x41: the SN76489 is brought up to date,
   * leaving `remainder` owed, then written. Its total time and every other
   * clock are unchanged.
   */
  function PsgWrite(c: Clocks, value: bv8, remainder: int): (r: Clocks)
    ensures r.events == c.events + [AudioAdvanced(c.timeSinceSn76489Update - remainder), Sn76489SetRegister(value)]
    ensures r.timeSinceSn76489Update == remainder && AudioTime(r) == AudioTime(c)
    ensures r.(events := c.events, timeSinceSn76489Update := c.timeSinceSn76489Update) == c
  {
    var updated := UpdateAudio(c, remainder);
    AppendEvent(updated.events, Sn76489SetRegister(value));
    Emit(updated, Sn76489SetRegister(value))
  }

  /**
   * The interrupt countdown: it runs down by the cycle's length only while it
   * is positive, and the line is asserted, with the residual as its offset,
   * exactly when it goes from positive to zero or below.
   */
  function CountDown(c: Clocks, length: int): (r: Clocks)
    ensures r.timeUntilInterrupt == if c.timeUntilInterrupt > 0 then c.timeUntilInterrupt - length else c.timeUntilInterrupt
    ensures r.events == c.events + if 0 < c.timeUntilInterrupt <= length
                                   then [InterruptLineAt(true, c.timeUntilInterrupt - length)] else []
    ensures r.(events := c.events, timeUntilInterrupt := c.timeUntilInterrupt) == c
  {
    if c.timeUntilInterrupt > 0 then
      var t := c.timeUntilInterrupt - length;
      var r := c.(timeUntilInterrupt := t);
      if t <= 0 then Emit(r, InterruptLineAt(true, t)) else r
    else c
  }

  // ---------------------------------------------------------------- one cycle

  /**
   * The machine's state as the bus sees it: memory, the I/O port control byte,
   * the two joypads' state bytes and the clocks.
   */
  datatype State = State(memory: Memory, ioPortControl: bv8, pad1: bv8, pad2: bv8, clocks: Clocks)

  predicate Wellformed(s: State)
  {
    MemoryOk(s.memory)
  }

  /** A cycle's effect: the new state and the byte handed back to the Z80, if any. */
  datatype Outcome = Outcome(state: State, value: Option<bv8>)

  /** What a terminal input cycle hands back, and the clocks after it. */
  datatype Answer = Answer(clocks: Clocks, value: bv8)

  /**
   * A terminal input cycle. Port groups 0x00 and 0x01 read as 0xFF; 0x40 the
   * VDP's current line, after a flush; 0x41 its latched horizontal counter;
   * 0x80/0x81 a VDP register; 0xC0 pad 1's six lines with its top bits ORed
   * with pad 2's Up and Down; 0xC1 pad 2's other four lines, two set bits and
   * the TH levels.
   */
  function InputPort(s: State, address: Address, view: View): (r: Answer)
    ensures PortGroup(address) in {0x00, 0x01} ==> r.value == 0xFF
    ensures PortGroup(address) == 0x40 ==> r.value == view.currentLine
    ensures PortGroup(address) == 0x41 ==> r.value == view.latchedHorizontalCounter
    ensures PortGroup(address) in {0x80, 0x81} ==> r.value == view.register
    ensures PortGroup(address) == 0xC0 ==>
      r.value == s.pad1 | (s.pad2 << 6) && r.value & 0x3F == s.pad1 & 0x3F &&
      (s.pad1 & 0xC0 == 0xC0 ==> r.value & 0xC0 == 0xC0)
    ensures PortGroup(address) == 0xC1 ==>
      r.value & 0x0F == (s.pad2 >> 2) & 0x0F && r.value & 0x30 == 0x30 && r.value & 0xC0 == ThValues(s.ioPortControl)
  {
    var group := PortGroup(address);
    if group == 0x00 || group == 0x01 then Answer(s.clocks, 0xFF)
    else if group == 0x40 then Answer(UpdateVideo(s.clocks), view.currentLine)
    else if group == 0x41 then Answer(s.clocks, view.latchedHorizontalCounter)
    else if group == 0x80 || group == 0x81 then Answer(VdpAccess(s.clocks, VdpGetRegister(address), view), view.register)
    else if group == 0xC0 then Answer(s.clocks, ControlPortAAsWritten(s.pad1, s.pad2))
    else Answer(s.clocks, ControlPortB(s.pad2, s.ioPortControl))
  }

  /**
   * An output to port group 0x01: the control byte becomes `value`, and the
   * VDP is run up to the present and latches its horizontal counter if and
   * only if a TH line rises; nothing else changes.
   */
  function IoControlWrite(s: State, value: bv8): (r: State)
    ensures r.ioPortControl == value
    ensures r.clocks.events
         == s.clocks.events + if ThRises(s.ioPortControl, value)
                              then [VdpRunFor(s.clocks.timeSinceVdpUpdate), VdpLatchHorizontalCounter] else []
    ensures r.clocks.timeSinceVdpUpdate == if ThRises(s.ioPortControl, value) then 0 else s.clocks.timeSinceVdpUpdate
    ensures r.clocks.(events := s.clocks.events, timeSinceVdpUpdate := s.clocks.timeSinceVdpUpdate) == s.clocks
    ensures r.(ioPortControl := s.ioPortControl, clocks := s.clocks) == s
  {
    LatchExactlyOnRise(s.ioPortControl, value);
    var latch := LatchesHorizontalCounter(ThValues(s.ioPortControl), ThValues(value));
    s.(ioPortControl := value,
       clocks := if latch then Emit(UpdateVideo(s.clocks), VdpLatchHorizontalCounter) else s.clocks)
  }

  /** A terminal output cycle. */
  function OutputPort(s: State, address: Address, value: bv8, view: View): (r: State)
    requires Wellformed(s)
    ensures Wellformed(r)
  {
    var group := PortGroup(address);
    if group == 0x00 then s.(memory := MemoryControlWrite(s.memory, value))
    else if group == 0x01 then IoControlWrite(s, value)
    else if group == 0x40 || group == 0x41 then s.(clocks := PsgWrite(s.clocks, value, view.sn76489Remainder))
    else if group == 0x80 || group == 0x81 then s.(clocks := VdpAccess(s.clocks, VdpSetRegister(address, value), view))
    else s
  }

  /** The terminal part of a cycle, by operation. */
  function Service(s: State, cycle: Cycle, view: View): (r: Outcome)
    requires Wellformed(s)
    ensures Wellformed(r.state)
  {
    var address := cycle.address.GetOr(0);
    match cycle.operation
    case ReadOpcode => Outcome(s, Some(ReadByte(s.memory, address)))
    case Read => Outcome(s, Some(ReadByte(s.memory, address)))
    case Write => Outcome(s.(memory := WriteMemory(s.memory, address, cycle.value)), None)
    case Input =>
      var answer := InputPort(s, address, view);
      Outcome(s.(clocks := answer.clocks), Some(answer.value))
    case Output => Outcome(OutputPort(s, address, cycle.value, view), None)
    case Interrupt => Outcome(s, Some(0xFF))
    case OtherOperation => Outcome(s, None)
  }

  /** A cycle once its length is accounted for: served if terminal, untouched otherwise. */
  function Served(s: State, cycle: Cycle, view: View): (r: Outcome)
    requires Wellformed(s)
    ensures Wellformed(r.state)
  {
    if cycle.isTerminal then Service(s, cycle, view) else Outcome(s, None)
  }

  /**
   * `perform_machine_cycle`: time accounting, the terminal part if any, then
   * the countdown. Every cycle keeps the state well formed, so every read stays
   * inside its buffer.
   */
  function Step(s: State, cycle: Cycle, view: View): (r: Outcome)
    requires Wellformed(s)
    ensures Wellformed(r.state)
  {
    var served := Served(s.(clocks := Advance(s.clocks, cycle.length)), cycle, view);
    Outcome(served.state.(clocks := CountDown(served.state.clocks, cycle.length)), served.value)
  }
}

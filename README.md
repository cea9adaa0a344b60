# Sega Master System bus, in Dafny

This project models the cycle-level bus logic of the Sega Master System and SG-1000 emulation in
`Machines/MasterSystem/MasterSystem.cpp`. It covers the following parts and proves properties about each.

- **Joypad.** The joypad's state byte holds six active-low button lines. Bits 6 and 7 are always set
  (`joystick.dfy`).
- **Memory map.** The 64-slot read and write page tables each cover one kilobyte per slot.
  - `map` fills the tables.
  - `page_cartridge` rebuilds the read table. It uses the three paging registers, the memory-control byte, the
    region and whether the machine has a BIOS.
  - The RAM is mirrored over 0xC000-0xFFFF (`paging.dfy`).
- **Bus cycle.** `perform_machine_cycle` handles one partial machine cycle (`bus.dfy`, `bus_properties.dfy`):
  - the time owed to the VDP and to the SN76489;
  - memory reads and writes through the page tables;
  - bank-select writes for the Sega and the Codemasters paging schemes;
  - the I/O ports decoded on `address & 0xC1`;
  - the latch of the VDP's horizontal counter when a TH line rises;
  - the interrupt countdown.
- **Power-on.** The constructor pads the cartridge, clears both tables, pages the cartridge in with the initial
  registers, loads the BIOS and maps the RAM (`power_on.dfy`).
- **Machine object.** `ConcreteMachine` keeps the RAM and both page tables as arrays updated in place, and the
  registers and clocks as fields (`machine.dfy`).
  - Each method is proved to do to that state what the functions of `Bus` say.
  - So every property proved about `Bus.Step` holds of `PerformMachineCycle`.

The VDP, the SN76489, the speaker and the Z80 are collaborators outside the model.
- What the collaborators answer during a cycle is a `View` supplied with that cycle. From the VDP it holds the
  current line, the latched horizontal counter, the register read, the interrupt line and the time until the next
  interrupt. From the SN76489's clock it holds the time still owed after `update_audio` has taken the whole
  audio cycles out of the owed time.
- The time owed to a collaborator plus the time already passed to it is that collaborator's total time
  (`VideoTime`, `AudioTime`). A flush moves time from the first part to the second.
- Every call the machine makes that changes a collaborator is appended to a trace of `Event`s.
- The trace lets the model state that each VDP access and each SN76489 write comes right after the matching flush.

Times are half cycles, as unbounded integers. Bytes are `bv8`. A page-table entry is
`Option<Pointer>`, where a pointer is a buffer (cartridge, RAM or BIOS) plus an offset. The contents of RAM, of an
unloaded BIOS buffer and of the tables before they are first cleared are not fixed by the program. They are the
`PowerOn.Indeterminate` parameter of the constructor.

Points where the code's behaviour is easy to misread:
- A Codemasters cartridge starts with paging registers {0, 1, 0}, so its third window shows bank 0.
- A cartridge shorter than 48 KB is padded to exactly 48 KB with 0xFF. A longer one keeps
  its size, so a longer image that is not whole kilobytes keeps a partial last kilobyte (see "## Findings").
- Port 0xDC ORs pad 2's state shifted left by 6 into pad 1's state without masking pad 1's top bits (see
  "## Findings"). The model reads the port as written.
- When a bank's window is shorter than 16 KB, `map` writes only the slots its loop reaches. The window's other
  slots keep their previous entries.
- `page_cartridge` runs before the BIOS is loaded, but it maps the BIOS buffer itself, so later reads see the
  loaded bytes.

## Model

| member | source | states |
|---|---|---|
| Joystick.NextState | Machines/MasterSystem/MasterSystem.cpp:48-64 | pressing an input clears exactly its bit and releasing sets it; no other bit changes, and bits 6-7 never do |
| Joystick.InputBitAssignment | Machines/MasterSystem/MasterSystem.cpp:52-60 | Up, Down, Left, Right, Fire 0 and Fire 1 drive bits 0x01, 0x02, 0x04, 0x08, 0x10 and 0x20 |
| Joystick.IgnoredInputs | Machines/MasterSystem/MasterSystem.cpp:49-61 | other input kinds and fire buttons other than 0 and 1 leave the state unchanged |
| Joystick.ReplayKeepsTopBits | Machines/MasterSystem/MasterSystem.cpp:48-71 | every state reached from a state with bits 6-7 set, by any sequence of inputs, has bits 6-7 set |
| Joystick.Joystick.constructor | Machines/MasterSystem/MasterSystem.cpp:71 | the state starts at 0xFF |
| Joystick.Joystick.DidSetInput | Machines/MasterSystem/MasterSystem.cpp:48-64 | the field becomes `NextState` of its old value, and bits 6-7 stay set |
| Joystick.Joystick.GetState | Machines/MasterSystem/MasterSystem.cpp:66-68 | the byte returned has bits 6-7 set |
| Paging.MapSlot | Machines/MasterSystem/MasterSystem.cpp:368-373 | after `map`, each slot the loop reaches from `start` to the end (`start + size` when the end is 0) holds the source advanced by `(address - start) & (size - 1)`, or null for a null source; every other slot keeps its entry |
| Paging.MapAtAddress | Machines/MasterSystem/MasterSystem.cpp:370-371 | every address `start + i * 1024` below the end sets slot `address >> 10` to its entry |
| Paging.Map | Machines/MasterSystem/MasterSystem.cpp:368-373 | `map` on a table keeps its 64 slots; what each slot then holds is the contract of `Paging.MapSlot` |
| MasterSystem.ConcreteMachine.Map | Machines/MasterSystem/MasterSystem.cpp:368-373 | the loop over the array leaves it equal to `Paging.Map` of its old contents |
| Paging.WindowStart | Machines/MasterSystem/MasterSystem.cpp:382 | a bank's start offset `(bank * 0x4000) % size` lies inside the cartridge |
| Paging.WindowLength | Machines/MasterSystem/MasterSystem.cpp:386 | a window maps between 1 byte and 16 KB, and never past the cartridge's end |
| Paging.MapWindowSlot | Machines/MasterSystem/MasterSystem.cpp:381-388 | window `c` changes only slots `16c .. 16c+15`, each to `WindowSlot` of its bank |
| Paging.MapWindowsSlot | Machines/MasterSystem/MasterSystem.cpp:381-388 | after the first `count` windows, slot `s` is `WindowSlot` of register `s / 16` when `s / 16 < count`, else unchanged |
| Paging.FullWindowSlot | Machines/MasterSystem/MasterSystem.cpp:381-388 | when a bank fills its whole window, slot `j` of the window is the bank's start plus `j` kilobytes |
| Paging.SegaPinSlot | Machines/MasterSystem/MasterSystem.cpp:390-393 | the Sega scheme's extra mapping sets slot 0 to cartridge offset 0 and nothing else |
| Paging.HiddenSlot | Machines/MasterSystem/MasterSystem.cpp:394-396 | a hidden cartridge makes slots 0-47 null and leaves 48-63 alone |
| Paging.BiosMapSlot | Machines/MasterSystem/MasterSystem.cpp:398-401 | the BIOS mapping sets slot `s < 8` to BIOS offset `s * 1024` and nothing else |
| Paging.PagedReadTable | Machines/MasterSystem/MasterSystem.cpp:377-402 | `page_cartridge` on a table keeps its 64 slots; what each slot then holds is the contract of `Paging.PagedReadTableSlot` |
| Paging.PagedReadTableSlot | Machines/MasterSystem/MasterSystem.cpp:377-405 | `page_cartridge` leaves every slot as `PagedSlot` says: the BIOS in slots 0-7 exactly when the machine has one (Master System outside Japan) and bit 3 of memory control is clear; otherwise the windows, with slot 0 pinned under Sega, when bit 6 is clear or the region is Japan; otherwise null; slots 48-63 untouched |
| Paging.PagedReadTableKeepsRam | Machines/MasterSystem/MasterSystem.cpp:377-402 | `page_cartridge` never changes read slots 48-63 |
| Paging.WindowSlotInBounds | Machines/MasterSystem/MasterSystem.cpp:382-387 | for a cartridge of whole kilobytes, every slot a window maps points at a whole kilobyte inside the cartridge |
| Paging.PagedReadTableInBounds | Machines/MasterSystem/MasterSystem.cpp:377-402 | `page_cartridge` keeps every read entry's kilobyte inside its buffer when the cartridge is whole kilobytes |
| MasterSystem.ConcreteMachine.PageCartridge | Machines/MasterSystem/MasterSystem.cpp:377-402 | the array becomes `PagedReadTable` of its old contents |
| Paging.PadCartridgeAsWritten | Machines/MasterSystem/MasterSystem.cpp:105-110 | an image shorter than 48 KB becomes exactly 48 KB, its bytes kept and the new tail all 0xFF; a longer image is unchanged |
| Paging.PadCartridgeAsWrittenOk | Machines/MasterSystem/MasterSystem.cpp:105-110 | the padded cartridge is at least 48 KB of whole kilobytes exactly when the image is shorter than 48 KB or already whole kilobytes, and for those images the padding as written equals the corrected one |
| Paging.PadCartridge | Machines/MasterSystem/MasterSystem.cpp:105-110 | the corrected padding: as written, then rounded up to a whole kilobyte with 0xFF; the image's bytes are kept |
| Paging.InitialPagingRegisters | Machines/MasterSystem/MasterSystem.cpp:112-117 | the registers start at {0, 1, 2}, or {0, 1, 0} under Codemasters |
| Paging.ClearTableSlot | Machines/MasterSystem/MasterSystem.cpp:100-102 | clearing the map leaves every slot null |
| Paging.MapRam | Machines/MasterSystem/MasterSystem.cpp:131-138 | the constructor's RAM mapping keeps a table's 64 slots; what each slot then holds is the contract of `Paging.MapRamSlot` |
| Paging.MapRamSlot | Machines/MasterSystem/MasterSystem.cpp:131-138 | slot `s >= 48` maps RAM offset `((s - 48) * 1024) mod M`, with M = 8 KB on a Master System and 1 KB on an SG-1000; slots below 48 are untouched |
| Paging.MirrorsRamOk | Machines/MasterSystem/MasterSystem.cpp:131-138 | a write table mapping the RAM mirror points only into RAM, each kilobyte in bounds |
| Paging.MapRamInBounds | Machines/MasterSystem/MasterSystem.cpp:131-138 | mapping the RAM mirror keeps a table in bounds |
| Paging.ReadMemory | Machines/MasterSystem/MasterSystem.cpp:181 | a read through a null slot is 0xFF, and a read through a mapped slot stays inside the slot's buffer |
| Paging.ReadMemoryAt | Machines/MasterSystem/MasterSystem.cpp:181 | a read through a mapped slot is the byte `address & 1023` past its pointer, inside the buffer |
| Paging.ReadMemoryMirrorsRam | Machines/MasterSystem/MasterSystem.cpp:179-182 | a read at 0xC000 or above through the RAM mirror sees RAM at `(address - 0xC000) mod M` |
| Paging.StoreByte | Machines/MasterSystem/MasterSystem.cpp:202-203 | a write through a null slot changes nothing; through a mapped slot it stores the value `address & 1023` past the pointer, inside RAM, and no other RAM byte changes |
| Paging.StoreByteMirrorsRam | Machines/MasterSystem/MasterSystem.cpp:202-203 | through the RAM write table, a write at 0xC000 or above stores at `(address - 0xC000) mod M`, and a lower write changes nothing |
| Paging.BankSelectRegister | Machines/MasterSystem/MasterSystem.cpp:185-200 | under Sega, addresses 0xFFFD-0xFFFF select register `address - 0xFFFD` exactly when the cartridge exceeds 48 KB; under Codemasters, exactly 0x0000, 0x4000 and 0x8000 select register `address >> 14` |
| Bus.PortGroup | Machines/MasterSystem/MasterSystem.cpp:207-246 | the group is `address & 0xC1` and is one of the eight values the switch names, so its default branch is unreachable |
| Bus.ThValues | Machines/MasterSystem/MasterSystem.cpp:324-333 | the TH byte has bits 0-5 clear; bit 6 is set exactly when control bit 1 or 5 is, and bit 7 exactly when bit 3 or 7 is |
| Bus.LatchExactlyOnRise | Machines/MasterSystem/MasterSystem.cpp:262-270 | the test `(new ^ old) & new` holds exactly when a TH line goes from low to high |
| Bus.ControlPortAAsWritten | Machines/MasterSystem/MasterSystem.cpp:229-233 | port 0xDC as computed: bits 0-5 are pad 1's lines, bits 6-7 are pad 1's top bits ORed with pad 2's Up and Down, so they are set whenever pad 1's are |
| Bus.ControlPortA | Machines/MasterSystem/MasterSystem.cpp:229-233 | the corrected port 0xDC: bits 0-5 are pad 1's lines and bits 6-7 pad 2's Up and Down |
| Bus.ControlPortB | Machines/MasterSystem/MasterSystem.cpp:234-241 | port 0xDD: bits 0-3 are pad 2's state shifted right by 2, bits 4-5 are set, bits 6-7 are the TH levels |
| Bus.ReadTableMirrorsRam | Machines/MasterSystem/MasterSystem.cpp:131-138 | read slots 48-63 map the RAM mirror, in every well-formed state |
| Bus.ReadByte | Machines/MasterSystem/MasterSystem.cpp:179-182 | a terminal read is 0xFF through a null slot, and at 0xC000 or above it sees RAM at `(address - 0xC000) mod M` |
| Bus.PageCartridge | Machines/MasterSystem/MasterSystem.cpp:377-402 | re-paging keeps the memory well formed: every read entry in bounds, slots 48-63 unchanged |
| Bus.BankSelect | Machines/MasterSystem/MasterSystem.cpp:185-200 | a bank-select write keeps the memory well formed |
| Bus.WriteMemory | Machines/MasterSystem/MasterSystem.cpp:184-204 | a terminal write keeps the memory well formed |
| Bus.MemoryControlWrite | Machines/MasterSystem/MasterSystem.cpp:251-257 | an output to port group 0x00 keeps the memory well formed |
| Bus.UpdateVideo | Machines/MasterSystem/MasterSystem.cpp:338-340 | the VDP is run for the owed time, which drops to 0, so the VDP's total time is unchanged; nothing else changes |
| Bus.UpdateAudio | Machines/MasterSystem/MasterSystem.cpp:335-337 | the owed time drops to the remainder the clock divider leaves, the time taken out is passed to an audio-advanced event, so the SN76489's total time is unchanged; nothing else changes |
| Bus.VdpAccess | Machines/MasterSystem/MasterSystem.cpp:223-227 | a VDP register access appends a video flush, the access and the interrupt line, leaves nothing owed to the VDP, reloads the countdown from the VDP, and leaves the SN76489's owed time alone |
| Bus.PsgWrite | Machines/MasterSystem/MasterSystem.cpp:272-275 | an output to port group 0x40/0x41 appends an audio update and the register write, leaves the divider's remainder owed to the SN76489, keeps its total time, and changes nothing else |
| Bus.CountDown | Machines/MasterSystem/MasterSystem.cpp:303-308 | the countdown drops by the cycle length only while positive, the line is asserted with the residual exactly when it goes from positive to 0 or below, and nothing else changes |
| Bus.InputPort | Machines/MasterSystem/MasterSystem.cpp:206-247 | the byte each port group reads: 0xFF for groups 0x00/0x01, the VDP's line, counter or register, port 0xDC as written (pad 1's lines, bits 6-7 set whenever pad 1's are), and port 0xDD |
| Bus.IoControlWrite | Machines/MasterSystem/MasterSystem.cpp:258-271 | the control byte becomes the value, and the VDP is flushed and latches its horizontal counter exactly when a TH line rises; nothing else changes |
| Bus.OutputPort | Machines/MasterSystem/MasterSystem.cpp:249-293 | every output keeps the state well formed |
| Bus.Service | Machines/MasterSystem/MasterSystem.cpp:176-300 | every terminal cycle keeps the state well formed |
| Bus.Served | Machines/MasterSystem/MasterSystem.cpp:176-301 | every cycle's terminal part keeps the state well formed |
| Bus.Step | Machines/MasterSystem/MasterSystem.cpp:172-311 | every cycle keeps the state well formed, so every read and write stays inside its buffer |
| BusProperties.UpdateVideoKeepsTrace | Machines/MasterSystem/MasterSystem.cpp:338-340 | a video flush extends the trace and keeps the VDP's time, the audio time, the interrupt assertions and the flush order |
| BusProperties.VdpAccessKeepsTrace | Machines/MasterSystem/MasterSystem.cpp:223-227 | a VDP register access follows a video flush and keeps the VDP's and the SN76489's total time and the flush order |
| BusProperties.PsgWriteKeepsTrace | Machines/MasterSystem/MasterSystem.cpp:272-275 | an SN76489 write follows an audio update, and keeps the VDP's and the SN76489's total time and the flush order |
| BusProperties.IoControlKeepsTrace | Machines/MasterSystem/MasterSystem.cpp:258-271 | a control write's latch follows a video flush |
| BusProperties.InputKeepsTrace | Machines/MasterSystem/MasterSystem.cpp:206-247 | no input changes the VDP's or the SN76489's total time or breaks the flush order |
| BusProperties.OutputKeepsTrace | Machines/MasterSystem/MasterSystem.cpp:249-293 | no output changes the VDP's or the SN76489's total time or breaks the flush order |
| BusProperties.ServiceKeepsTrace | Machines/MasterSystem/MasterSystem.cpp:176-300 | no terminal cycle changes the VDP's or the SN76489's total time or breaks the flush order |
| BusProperties.InputCountdown | Machines/MasterSystem/MasterSystem.cpp:223-227 | an input reloads the countdown from the VDP exactly for port groups 0x80/0x81 |
| BusProperties.OutputCountdown | Machines/MasterSystem/MasterSystem.cpp:276-281 | an output reloads the countdown from the VDP exactly for port groups 0x80/0x81 |
| BusProperties.ServedCountdown | Machines/MasterSystem/MasterSystem.cpp:176-301 | before the countdown, the time until interrupt is the VDP's after a VDP register access and unchanged otherwise |
| BusProperties.CountDownFacts | Machines/MasterSystem/MasterSystem.cpp:303-308 | the countdown only appends to the trace, keeps the VDP's and the SN76489's time and the flush order, and adds the residual to the interrupt assertions exactly when it crosses to 0 or below |
| BusProperties.StepTiming | Machines/MasterSystem/MasterSystem.cpp:173-174 | every cycle adds its length to the VDP's and to the SN76489's total time; the SN76489's owed time grows by the length, except after a write to port group 0x40/0x41, which leaves the divider's remainder |
| BusProperties.ServedAudio | Machines/MasterSystem/MasterSystem.cpp:176-301 | a cycle's terminal part sets the SN76489's owed time to the divider's remainder exactly for an output to port group 0x40/0x41, and otherwise leaves it alone |
| BusProperties.OutputAudio | Machines/MasterSystem/MasterSystem.cpp:249-293 | an output sets the SN76489's owed time to the divider's remainder exactly for port groups 0x40/0x41 |
| BusProperties.StepKeepsFlushOrder | Machines/MasterSystem/MasterSystem.cpp:172-311 | a cycle only appends to the trace, and every VDP access and SN76489 write in it follows its flush |
| BusProperties.StepInterrupt | Machines/MasterSystem/MasterSystem.cpp:303-308 | across a whole cycle, the countdown runs down only while positive, and an assertion with offset in `(-length, 0]` is added exactly when it crosses to 0 or below |
| BusProperties.StepNonTerminal | Machines/MasterSystem/MasterSystem.cpp:176 | a non-terminal cycle touches neither memory nor I/O, hands back nothing, and only moves the clocks |
| BusProperties.WriteMemoryFacts | Machines/MasterSystem/MasterSystem.cpp:184-204 | a write sets the selected register, re-pages exactly when a register changed, stores at the RAM mirror index at 0xC000 and above, and changes nothing else |
| BusProperties.BankSelectSameValue | Machines/MasterSystem/MasterSystem.cpp:185-200 | writing a register's own value changes no register and no read entry |
| BusProperties.WriteBelowRamKeepsContents | Machines/MasterSystem/MasterSystem.cpp:202-203 | writes below 0xC000 change no buffer's contents |
| BusProperties.WriteThenRead | Machines/MasterSystem/MasterSystem.cpp:181-203 | a byte written at 0xC000 or above reads back at every mirror of its address, and other RAM addresses read as before |
| BusProperties.MemoryControlWriteFacts | Machines/MasterSystem/MasterSystem.cpp:251-257 | on a Master System the memory-control byte is set and the cartridge re-paged with it; an SG-1000 ignores the write |
| BusProperties.WindowOfSlot | Machines/MasterSystem/MasterSystem.cpp:382-387 | a slot's window is its address's 16 KB window, and its kilobyte plus the offset in it is the offset in the window |
| BusProperties.ReadPagedSlot | Machines/MasterSystem/MasterSystem.cpp:377-402 | a read below 0xC000 through a slot `page_cartridge` set sees the BIOS in the first 8 KB when it is visible, else 0xFF when the cartridge is hidden, else the cartridge's own first kilobyte under Sega, else the selected bank's byte when the bank lies inside the cartridge |
| BusProperties.ReadPagedMemory | Machines/MasterSystem/MasterSystem.cpp:377-402 | the same for every address below 0xC000 after `page_cartridge` of any table |
| BusProperties.ReadAfterBankSwitch | Machines/MasterSystem/MasterSystem.cpp:184-200 | after a write that changes a paging register, the registers are the selected ones and every read below 0xC000 is as `ReadPagedSlot` says of them |
| BusProperties.ReadAfterMemoryControl | Machines/MasterSystem/MasterSystem.cpp:251-257 | after a memory-control output on a Master System, the byte is stored and every read below 0xC000 is as `ReadPagedSlot` says of it |
| BusProperties.StepRead | Machines/MasterSystem/MasterSystem.cpp:179-182 | a terminal read or opcode fetch hands back the mapped byte (0xFF when unmapped) and changes only the clocks |
| BusProperties.StepWrite | Machines/MasterSystem/MasterSystem.cpp:184-204 | a terminal write goes through `WriteMemory`, changes no I/O state and hands back nothing |
| BusProperties.StepInput | Machines/MasterSystem/MasterSystem.cpp:206-247 | a terminal input hands back the port's byte and changes at most the clocks |
| BusProperties.StepOutput | Machines/MasterSystem/MasterSystem.cpp:249-293 | a terminal output hands back nothing; the memory becomes `MemoryControlWrite` only for port group 0x00, the I/O control byte becomes the value only for 0x01, the pads never change, and an output to 0xC0/0xC1 changes nothing but the time |
| BusProperties.StepInterruptAcknowledge | Machines/MasterSystem/MasterSystem.cpp:295-297 | an interrupt acknowledge hands back 0xFF and changes only the clocks |
| PowerOn.InitialState | Machines/MasterSystem/MasterSystem.cpp:100-138 | a state whose every field is what the constructor sets is `Initial` and is well formed |
| PowerOn.LoadBios | Machines/MasterSystem/MasterSystem.cpp:127-128 | the BIOS buffer holds 8 KB: the image's bytes, cut or extended with zeros |
| PowerOn.Initial | Machines/MasterSystem/MasterSystem.cpp:100-138 | the power-on state, with the cartridge padded as written, is well formed |
| PowerOn.InitialMemory | Machines/MasterSystem/MasterSystem.cpp:100-138 | the constructor's memory is well formed |
| PowerOn.InitialReadTableSlot | Machines/MasterSystem/MasterSystem.cpp:100-138 | the constructor's read table is the RAM mirror from slot 48, and below that what `page_cartridge` gives for a cleared table, the initial registers and memory control 0 |
| PowerOn.InitialReadTableInBounds | Machines/MasterSystem/MasterSystem.cpp:100-138 | every entry of the constructor's read table is in bounds |
| PowerOn.InitialWriteTableMirrors | Machines/MasterSystem/MasterSystem.cpp:131-138 | the constructor's write table maps exactly the RAM mirror, whatever it held before |
| PowerOn.InitialMemoryOk | Machines/MasterSystem/MasterSystem.cpp:100-138 | the constructor's memory is well formed for every configuration and padded cartridge |
| PowerOn.InitialWindow | Machines/MasterSystem/MasterSystem.cpp:112-118 | at power-on, window `c` starts at `c * 16 KB`, or at 0 for the third Codemasters window, and is full |
| PowerOn.InitialWindowSlot | Machines/MasterSystem/MasterSystem.cpp:112-118 | at power-on, a window slot maps its own address, or bank 0 again from 0x8000 under Codemasters |
| PowerOn.InitialSlot | Machines/MasterSystem/MasterSystem.cpp:100-138 | at power-on, slots 0-47 hold the BIOS in slots 0-7 when the machine has one, else the cartridge (slot 0 pinned under Sega) |
| PowerOn.PagedMemoryReads | Machines/MasterSystem/MasterSystem.cpp:181 | a well-formed memory holding the power-on entries reads as `InitialMemoryReads` says |
| PowerOn.InitialMemoryReads | Machines/MasterSystem/MasterSystem.cpp:100-138 | at power-on, reads below 0xC000 see the BIOS in the first 8 KB when the machine has one, else the cartridge at its own address, with bank 0 repeated from 0x8000 under Codemasters |
| PowerOn.PowerOnReads | Machines/MasterSystem/MasterSystem.cpp:100-138 | the same for the state built from a cartridge image and a BIOS image |
| Findings.ControlPortAHidesPad2 | Machines/MasterSystem/MasterSystem.cpp:232 | as written, port 0xDC has bits 6-7 set for every reachable pad 1 state, whatever pad 2 holds |
| Findings.ControlPortAExample | Machines/MasterSystem/MasterSystem.cpp:232 | with pad 1 released and pad 2 Up held, the port reads 0xFF as written and 0xBF corrected |
| Findings.ControlPortAShowsPad2 | Machines/MasterSystem/MasterSystem.cpp:232 | for every pair of reachable joypad states, the corrected port shows pad 2's Up and Down, and it differs from the port as written exactly when pad 2 holds Up or Down |
| Findings.PartialKilobyteOutOfBounds | Machines/MasterSystem/MasterSystem.cpp:105-110 | as written, a 0x10200-byte image keeps its size, and bank 4 in window 2 maps slot 32 so that reading 0x83FF goes past the cartridge's end |
| Findings.PaddedCartridgeInBounds | Machines/MasterSystem/MasterSystem.cpp:105-110 | corrected, the same image is padded to 0x10400 bytes and the same slot stays inside it |
| Findings.WindowSlotExample | Machines/MasterSystem/MasterSystem.cpp:382-387 | bank 4 of a cartridge a little over 64 KB maps slot 32 to cartridge offset 0x10000 |
| MasterSystem.ConcreteMachine.constructor | Machines/MasterSystem/MasterSystem.cpp:81-138 | the new machine is well formed and its state is `PowerOn.Initial` |
| MasterSystem.ConcreteMachine.PowerOnTables | Machines/MasterSystem/MasterSystem.cpp:100-138 | both tables are cleared, the cartridge is paged with the scheme's registers, and the RAM is mapped |
| MasterSystem.ConcreteMachine.InitialPaging | Machines/MasterSystem/MasterSystem.cpp:112-117 | the registers become the scheme's initial registers |
| MasterSystem.ConcreteMachine.MapRam | Machines/MasterSystem/MasterSystem.cpp:131-138 | both tables get the RAM mirror of the machine's model |
| MasterSystem.ConcreteMachine.UpdateVideo | Machines/MasterSystem/MasterSystem.cpp:338-340 | the machine's clocks become `Bus.UpdateVideo` of the old ones |
| MasterSystem.ConcreteMachine.UpdateAudio | Machines/MasterSystem/MasterSystem.cpp:335-337 | the machine's clocks become `Bus.UpdateAudio` of the old ones |
| MasterSystem.ConcreteMachine.AccessVdp | Machines/MasterSystem/MasterSystem.cpp:223-227 | the machine's clocks become `Bus.VdpAccess` of the old ones |
| MasterSystem.ConcreteMachine.ReadAt | Machines/MasterSystem/MasterSystem.cpp:179-182 | the byte read is `ReadByte` of the machine's memory |
| MasterSystem.ConcreteMachine.WriteAt | Machines/MasterSystem/MasterSystem.cpp:184-204 | the memory becomes `WriteMemory` of the old one |
| MasterSystem.ConcreteMachine.SelectBank | Machines/MasterSystem/MasterSystem.cpp:185-200 | the memory becomes `BankSelect` of the old one |
| MasterSystem.ConcreteMachine.Store | Machines/MasterSystem/MasterSystem.cpp:202-203 | the RAM becomes `StoreByte` of the old RAM |
| MasterSystem.ConcreteMachine.SetPagingRegister | Machines/MasterSystem/MasterSystem.cpp:187-190 | a register changes, and the cartridge is re-paged, only when the value differs |
| MasterSystem.ConcreteMachine.InputAt | Machines/MasterSystem/MasterSystem.cpp:206-247 | the byte and the new clocks are those of `InputPort` |
| MasterSystem.ConcreteMachine.OutputAt | Machines/MasterSystem/MasterSystem.cpp:249-293 | the new state is `OutputPort` of the old one |
| MasterSystem.ConcreteMachine.MemoryControlOut | Machines/MasterSystem/MasterSystem.cpp:251-257 | the memory becomes `MemoryControlWrite` of the old one |
| MasterSystem.ConcreteMachine.IoControlOut | Machines/MasterSystem/MasterSystem.cpp:258-271 | the new state is `IoControlWrite` of the old one |
| MasterSystem.ConcreteMachine.CountDown | Machines/MasterSystem/MasterSystem.cpp:303-308 | the clocks become `Bus.CountDown` of the old ones |
| MasterSystem.ConcreteMachine.Serve | Machines/MasterSystem/MasterSystem.cpp:176-301 | the new state and the byte handed back are `Service` of the old state |
| MasterSystem.ConcreteMachine.PerformMachineCycle | Machines/MasterSystem/MasterSystem.cpp:172-311 | the new state and the byte handed back are `Step` of the old state, and the extra delay is always 0 |

## Left out

- The audio task queue, `flush` and the deferred `perform` (MasterSystem.cpp:145, 313-317) are the concurrency seam and are not modelled.
- Bus.UpdateAudio: does not compute the division of the owed time by the SN76489 divider. `divide_cycles` is in a header that is not part of this model, so the remainder it keeps is `View.sn76489Remainder`, supplied with the cycle, and the audio-advanced event carries the half cycles taken out rather than the whole audio cycles the speaker is given.
- Bus.PsgWrite, BusProperties.StepTiming: for the same reason, they state the SN76489's owed time after a write in terms of the supplied remainder, and do not bound it by the divider.
- The floating-point clock rate, the speaker's input rate and its filter cutoff (MasterSystem.cpp:92-94, 141) are not modelled; they are floating point and configure collaborators.
- The missing-BIOS error thrown when the ROM fetch fails (MasterSystem.cpp:122-125) is file I/O. The model takes the fetched BIOS image as a parameter and keeps only its resize to 8 KB.
- The factory's `dynamic_cast` (MasterSystem.cpp:413-417) and the `LOG` and `ERROR` diagnostics are left out, because they have no effect on the machine's state.
- The VDP, the SN76489 and the Z80 are opaque collaborators. A `View` stands for their answers during a cycle, and the calls on them are recorded as events. Their internals and the Z80's partial-cycle sequencing are not modelled.
- PowerOn.Initial: requires an image shorter than 48 KB or of whole kilobytes (`PaddingKeepsKilobytes`). For a longer image with a partial last kilobyte the code's reads run past the cartridge buffer (see "## Findings"), and the model does not describe what such a read returns.
- MasterSystem.ConcreteMachine.constructor: has the same requirement on the image as `PowerOn.Initial`, for the same reason.
- Bus.Step: every property proved about a cycle assumes a well-formed state, and so does not cover machines built from images that `PaddingKeepsKilobytes` excludes.
- Paging.Map, Paging.PagedReadTable, Paging.MapRam: their own contracts give only the table's size; each slot's entry is the contract of a separate lemma, so that the many proofs using these functions stay small.
- The memory-control byte's RAM-enable bit is not obeyed by the source, and the model does not obey it either.
- The uninitialised contents of RAM, of an unloaded BIOS buffer and of the tables before their first clearing are the `PowerOn.Indeterminate` parameter.
- SDL front end, the Oric static analyser declaration and the Electron tape header are outside the Master System bus and are not modelled.

## Findings

| source | as written | input that shows it | evidently intended | confidence | as-written member | corrected member |
|---|---|---|---|---|---|---|
| Machines/MasterSystem/MasterSystem.cpp:232 | port 0xDC reads `pad1 \| (pad2 << 6)` truncated to 8 bits; pad 1's state always has bits 6-7 set, so the OR hides pad 2's Up and Down | pad 1 released (0xFF), pad 2 with Up held (0xFE): the port reads 0xFF, not 0xBF | bits 0-5 from pad 1 and bits 6-7 from pad 2's Up and Down, i.e. `(pad1 & 0x3F) \| (pad2 << 6)` | not executed | Bus.ControlPortAAsWritten, Findings.ControlPortAHidesPad2, Findings.ControlPortAExample | Bus.ControlPortA, Findings.ControlPortAShowsPad2 |
| Machines/MasterSystem/MasterSystem.cpp:105-110 | only images shorter than 48 KB are padded, so a longer image that is not whole kilobytes keeps a partial last kilobyte, while each slot maps a full kilobyte | a 0x10200-byte image under the Sega scheme with bank 4 selected for window 2: slot 32 points at offset 0x10000, and reading 0x83FF reaches offset 0x103FF, past the end | every mapped kilobyte lies inside the cartridge, e.g. by padding the image up to a whole kilobyte with 0xFF | not executed | Paging.PadCartridgeAsWritten, Findings.PartialKilobyteOutOfBounds | Paging.PadCartridge, Findings.PaddedCartridgeInBounds |

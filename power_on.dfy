/**
 * The machine as the constructor leaves it: the cartridge padded, both page
 * tables cleared, the cartridge paged in with the scheme's initial registers,
 * the BIOS loaded when the machine has one, and RAM mapped at 0xC000-0xFFFF.
 */
module PowerOn {
  import opened Wrappers
  import opened Bits
  import opened Paging
  import opened Bus
  import Joystick

  /** The BIOS image resized to 8 KB, as a byte vector is resized: cut, or extended with zeros. */
  function LoadBios(rom: seq<bv8>): (r: seq<bv8>)
    ensures |r| == BiosBytes
    ensures forall i :: 0 <= i < BiosBytes ==> r[i] == if i < |rom| then rom[i] else 0
  {
    if |rom| >= BiosBytes then rom[..BiosBytes] else rom + seq(BiosBytes - |rom|, _ => 0)
  }

  /**
   * What the machine's buffers and page tables hold before the constructor
   * sets them: RAM and a BIOS buffer that is never loaded keep these bytes,
   * and the two tables are cleared before use.
   */
  datatype Indeterminate = Indeterminate(ram: seq<bv8>, bios: seq<bv8>, readTable: seq<Entry>, writeTable: seq<Entry>)

  predicate IndeterminateOk(u: Indeterminate)
  {
    |u.ram| == RamBytes && |u.bios| == BiosBytes && |u.readTable| == SlotCount && |u.writeTable| == SlotCount
  }

  /** The constructor's read table: cleared, paged with the initial registers and memory control 0, then RAM. */
  function InitialReadTable(config: Config, cartridgeSize: nat, table: seq<Entry>): (r: seq<Entry>)
    requires cartridgeSize > 0 && |table| == SlotCount
    ensures |r| == SlotCount
  {
    MapRam(PagedReadTable(ClearTable(table), cartridgeSize, InitialPagingRegisters(config.scheme), 0, config),
           config.model)
  }

  /** The constructor's write table: cleared, then RAM. */
  function InitialWriteTable(model: Model, table: seq<Entry>): (r: seq<Entry>)
    requires |table| == SlotCount
    ensures |r| == SlotCount
  {
    MapRam(ClearTable(table), model)
  }

  /**
   * The state after construction. `image` is the cartridge image and `biosRom`
   * the BIOS image fetched for machines that have one.
   */
  function Initial(config: Config, image: seq<bv8>, biosRom: seq<bv8>, u: Indeterminate): (r: State)
    requires IndeterminateOk(u) && PaddingKeepsKilobytes(|image|)
    ensures Wellformed(r)
  {
    PadCartridgeAsWrittenOk(image);
    var cartridge := PadCartridgeAsWritten(image);
    var bios := if HasBios(config) then LoadBios(biosRom) else u.bios;
    State(InitialMemory(config, cartridge, bios, u), 0x0F, Joystick.Released, Joystick.Released,
          Clocks(0, 0, 0, []))
  }

  /** The constructor's memory for a padded cartridge and a BIOS buffer. */
  function InitialMemory(config: Config, cartridge: seq<bv8>, bios: seq<bv8>, u: Indeterminate): (r: Memory)
    requires CartridgeSizeOk(|cartridge|) && |bios| == BiosBytes && IndeterminateOk(u)
    ensures MemoryOk(r)
  {
    InitialMemoryOk(config, cartridge, bios, u);
    Memory(config, cartridge, bios, u.ram, InitialReadTable(config, |cartridge|, u.readTable),
           InitialWriteTable(config.model, u.writeTable), InitialPagingRegisters(config.scheme), 0)
  }

  /**
   * A state whose fields are those the constructor sets, one by one, is the
   * power-on state, and so is well formed.
   */
  lemma InitialState(config: Config, image: seq<bv8>, biosRom: seq<bv8>, u: Indeterminate, s: State)
    requires IndeterminateOk(u) && PaddingKeepsKilobytes(|image|)
    requires s.memory.config == config && s.memory.cartridge == PadCartridgeAsWritten(image)
    requires s.memory.bios == (if HasBios(config) then LoadBios(biosRom) else u.bios) && s.memory.ram == u.ram
    requires s.memory.readTable == InitialReadTable(config, |PadCartridgeAsWritten(image)|, u.readTable)
    requires s.memory.writeTable == InitialWriteTable(config.model, u.writeTable)
    requires s.memory.pagingRegisters == InitialPagingRegisters(config.scheme) && s.memory.memoryControl == 0
    requires s.ioPortControl == 0x0F && s.pad1 == Joystick.Released && s.pad2 == Joystick.Released
    requires s.clocks == Clocks(0, 0, 0, [])
    ensures s == Initial(config, image, biosRom, u) && Wellformed(s)
  {
    PadCartridgeAsWrittenOk(image);
    InitialMemoryFields(config, s.memory.cartridge, s.memory.bios, u, s.memory);
  }

  /** A memory with the constructor's fields is the constructor's memory. */
  lemma InitialMemoryFields(config: Config, cartridge: seq<bv8>, bios: seq<bv8>, u: Indeterminate, m: Memory)
    requires CartridgeSizeOk(|cartridge|) && |bios| == BiosBytes && IndeterminateOk(u)
    requires m.config == config && m.cartridge == cartridge && m.bios == bios && m.ram == u.ram
    requires m.readTable == InitialReadTable(config, |cartridge|, u.readTable)
    requires m.writeTable == InitialWriteTable(config.model, u.writeTable)
    requires m.pagingRegisters == InitialPagingRegisters(config.scheme) && m.memoryControl == 0
    ensures m == InitialMemory(config, cartridge, bios, u) && MemoryOk(m)
  {
  }

  /** Slot by slot, the constructor's read table: `page_cartridge` below 0xC000, the RAM mirror above. */
  lemma InitialReadTableSlot(config: Config, cartridgeSize: nat, table: seq<Entry>, slot: nat)
    requires cartridgeSize > 0 && |table| == SlotCount && slot < SlotCount
    ensures InitialReadTable(config, cartridgeSize, table)[slot]
         == if slot >= 48 then RamSlot(config.model, slot)
            else PagedSlot(None, cartridgeSize, InitialPagingRegisters(config.scheme), 0, config, slot)
  {
    var cleared := ClearTable(table);
    var paged := PagedReadTable(cleared, cartridgeSize, InitialPagingRegisters(config.scheme), 0, config);
    ClearTableSlot(table, slot);
    PagedReadTableSlot(cleared, cartridgeSize, InitialPagingRegisters(config.scheme), 0, config, slot);
    MapRamSlot(paged, config.model, slot);
  }

  lemma InitialReadTableInBounds(config: Config, cartridgeSize: nat, table: seq<Entry>)
    requires CartridgeSizeOk(cartridgeSize) && |table| == SlotCount
    ensures TableInBounds(InitialReadTable(config, cartridgeSize, table), cartridgeSize)
  {
    var cleared := ClearTable(table);
    ClearTableInBounds(table, cartridgeSize);
    PagedReadTableInBounds(cleared, cartridgeSize, InitialPagingRegisters(config.scheme), 0, config);
    MapRamInBounds(PagedReadTable(cleared, cartridgeSize, InitialPagingRegisters(config.scheme), 0, config),
                   cartridgeSize, config.model);
  }

  /** The constructor's write table maps the RAM mirror, whatever the table held before. */
  lemma InitialWriteTableMirrors(model: Model, table: seq<Entry>)
    requires |table| == SlotCount
    ensures MirrorsRam(InitialWriteTable(model, table), model)
  {
    forall slot | 0 <= slot < SlotCount
      ensures InitialWriteTable(model, table)[slot] == RamSlot(model, slot)
    {
      ClearTableSlot(table, slot);
      MapRamSlot(ClearTable(table), model, slot);
    }
  }

  /** The constructor leaves the memory well formed, whatever the configuration and a padded cartridge. */
  lemma InitialMemoryOk(config: Config, cartridge: seq<bv8>, bios: seq<bv8>, u: Indeterminate)
    requires CartridgeSizeOk(|cartridge|) && |bios| == BiosBytes && IndeterminateOk(u)
    ensures MemoryOk(Memory(config, cartridge, bios, u.ram, InitialReadTable(config, |cartridge|, u.readTable),
                            InitialWriteTable(config.model, u.writeTable), InitialPagingRegisters(config.scheme), 0))
  {
    var m := Memory(config, cartridge, bios, u.ram, InitialReadTable(config, |cartridge|, u.readTable),
                    InitialWriteTable(config.model, u.writeTable), InitialPagingRegisters(config.scheme), 0);
    InitialReadTableInBounds(config, |cartridge|, u.readTable);
    InitialWriteTableMirrors(config.model, u.writeTable);
    forall slot | 48 <= slot < SlotCount
      ensures m.readTable[slot] == m.writeTable[slot]
    {
      InitialReadTableSlot(config, |cartridge|, u.readTable, slot);
    }
    TablesMemoryOk(m);
  }

  /** The table facts that make a freshly built memory well formed. */
  lemma TablesMemoryOk(m: Memory)
    requires CartridgeSizeOk(|m.cartridge|) && |m.bios| == BiosBytes && |m.ram| == RamBytes
    requires |m.readTable| == SlotCount && TableInBounds(m.readTable, |m.cartridge|)
    requires MirrorsRam(m.writeTable, m.config.model) && |m.pagingRegisters| == 3
    requires forall slot :: 48 <= slot < SlotCount ==> m.readTable[slot] == m.writeTable[slot]
    ensures MemoryOk(m)
  {
    MirrorsRamOk(m.writeTable, m.config.model);
    assert m.readTable[48..] == m.writeTable[48..];
  }

  /** The cartridge offset a power-on read below 0xC000 sees: the address, or bank 0 again from 0x8000 under Codemasters. */
  function PowerOnOffset(scheme: PagingScheme, address: Address): nat
    requires address < 0xC000
  {
    if scheme == Codemasters && address >= 0x8000 then address - 0x8000 else address
  }

  /** Window `c` at power-on starts at `c * 16 KB`, or at 0 for a Codemasters cartridge's third window, and is full. */
  lemma InitialWindow(scheme: PagingScheme, cartridgeSize: nat, c: nat)
    requires CartridgeSizeOk(cartridgeSize) && c < 3
    ensures WindowStart(InitialPagingRegisters(scheme)[c], cartridgeSize)
         == if scheme == Codemasters && c == 2 then 0 else c * 0x4000
    ensures WindowStart(InitialPagingRegisters(scheme)[c], cartridgeSize) + 0x4000 <= cartridgeSize
  {
    var bank := InitialPagingRegisters(scheme)[c];
    var k := if scheme == Codemasters && c == 2 then 0 else c;
    assert bank as int == k;
    assert k * 0x4000 < cartridgeSize;
    DivModUnique(k * 0x4000, cartridgeSize, 0, k * 0x4000);
  }

  /** A full window's slot `slot % 16` at power-on, as cartridge offset. */
  lemma InitialWindowSlot(config: Config, cartridgeSize: nat, slot: nat)
    requires CartridgeSizeOk(cartridgeSize) && slot < 48
    ensures WindowSlot(None, cartridgeSize, InitialPagingRegisters(config.scheme)[slot / 16], slot % 16)
         == Some(Pointer(Cartridge, PowerOnOffset(config.scheme, slot * 0x400)))
  {
    var c := slot / 16;
    var j := slot % 16;
    var bank := InitialPagingRegisters(config.scheme)[c];
    InitialWindow(config.scheme, cartridgeSize, c);
    FullWindowSlot(None, cartridgeSize, bank, j);
    assert slot * 0x400 == c * 0x4000 + j * 0x400;
  }

  /** Slots 0-47 at power-on: the BIOS in slots 0-7 when the machine has one, else the cartridge whole kilobytes. */
  lemma InitialSlot(config: Config, cartridgeSize: nat, table: seq<Entry>, slot: nat)
    requires CartridgeSizeOk(cartridgeSize) && |table| == SlotCount && slot < 48
    ensures InitialReadTable(config, cartridgeSize, table)[slot] == PowerOnEntry(config, slot)
  {
    InitialReadTableSlot(config, cartridgeSize, table, slot);
    assert BiosVisible(config, 0) == HasBios(config) && CartridgeVisible(config, 0);
    if !(HasBios(config) && slot < 8) && !(config.scheme == Sega && slot == 0) {
      InitialWindowSlot(config, cartridgeSize, slot);
    }
  }

  /**
   * At power-on, below 0xC000: the BIOS in the first 8 KB when the machine has
   * one, otherwise the cartridge at its own address, except that a Codemasters
   * cartridge shows its first bank again from 0x8000.
   */
  lemma InitialMemoryReads(config: Config, cartridge: seq<bv8>, bios: seq<bv8>, u: Indeterminate, address: Address)
    requires CartridgeSizeOk(|cartridge|) && |bios| == BiosBytes && IndeterminateOk(u) && address < 0xC000
    ensures ReadByte(InitialMemory(config, cartridge, bios, u), address)
        == if HasBios(config) && address < 0x2000 then bios[address]
           else cartridge[PowerOnOffset(config.scheme, address)]
  {
    var m := InitialMemory(config, cartridge, bios, u);
    forall slot | 0 <= slot < 48
      ensures m.readTable[slot] == PowerOnEntry(config, slot)
    {
      InitialSlot(config, |cartridge|, u.readTable, slot);
    }
    PagedMemoryReads(m, address);
  }

  /** The entry slot `slot` below 0xC000 holds at power-on. */
  function PowerOnEntry(config: Config, slot: nat): Entry
    requires slot < 48
  {
    if HasBios(config) && slot < 8 then Some(Pointer(Bios, slot * 0x400))
    else Some(Pointer(Cartridge, PowerOnOffset(config.scheme, slot * 0x400)))
  }

  /** `InitialMemoryReads` for any well-formed memory whose slots below 0xC000 hold the power-on entries. */
  lemma PagedMemoryReads(m: Memory, address: Address)
    requires MemoryOk(m) && address < 0xC000
    requires forall slot :: 0 <= slot < 48 ==> m.readTable[slot] == PowerOnEntry(m.config, slot)
    ensures ReadByte(m, address)
        == if HasBios(m.config) && address < 0x2000 then m.bios[address]
           else m.cartridge[PowerOnOffset(m.config.scheme, address)]
  {
    var slot, j := address / 0x400, address % 0x400;
    assert address == slot * 0x400 + j && j < 0x400;
    assert slot < 8 <==> address < 0x2000;
    assert slot < 32 <==> address < 0x8000;
    assert m.readTable[slot] == PowerOnEntry(m.config, slot);
    if HasBios(m.config) && slot < 8 {
      ReadMemoryAt(m.readTable, m.cartridge, m.bios, m.ram, address, Pointer(Bios, slot * 0x400));
    } else {
      var offset := PowerOnOffset(m.config.scheme, slot * 0x400);
      ReadMemoryAt(m.readTable, m.cartridge, m.bios, m.ram, address, Pointer(Cartridge, offset));
      assert offset + j == PowerOnOffset(m.config.scheme, address);
    }
  }

  /** The same, for the state the constructor builds from a cartridge image and a BIOS image. */
  lemma PowerOnReads(config: Config, image: seq<bv8>, biosRom: seq<bv8>, u: Indeterminate, address: Address)
    requires IndeterminateOk(u) && PaddingKeepsKilobytes(|image|) && address < 0xC000
    ensures var s := Initial(config, image, biosRom, u);
      ReadByte(s.memory, address)
        == if HasBios(config) && address < 0x2000 then LoadBios(biosRom)[address]
           else PadCartridgeAsWritten(image)[PowerOnOffset(config.scheme, address)]
  {
    PadCartridgeAsWrittenOk(image);
    var cartridge := PadCartridgeAsWritten(image);
    var bios := if HasBios(config) then LoadBios(biosRom) else u.bios;
    InitialMemoryReads(config, cartridge, bios, u, address);
  }
}

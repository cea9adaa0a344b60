/**
 * The Master System memory map: 64 one-kilobyte slots, each either unmapped
 * or pointing at an offset in one of the machine's buffers, and the paging
 * logic that fills them from the cartridge bank registers.
 */
module Paging {
  import opened Wrappers
  import opened Bits

  const SlotCount: nat := 64
  const AddressSpace: nat := 0x10000
  /** Cartridges shorter than 48 KB are padded to 48 KB. */
  const MinimumCartridgeSize: nat := 0xC000
  const RamBytes: nat := 0x2000
  const BiosBytes: nat := 0x2000
  /** The byte an unmapped read yields and the byte cartridge padding holds. */
  const Unmapped: bv8 := 0xFF

  datatype Model = SG1000 | MasterSystem
  datatype Region = Japan | USA | Europe | Brazil
  datatype PagingScheme = Sega | Codemasters
  datatype Config = Config(model: Model, region: Region, scheme: PagingScheme)

  /** The buffers a page-table entry can point into; the machine owns all three. */
  datatype BufferId = Cartridge | Ram | Bios
  /** A non-owning pointer: a buffer and an offset into it. */
  datatype Pointer = Pointer(buffer: BufferId, offset: nat)
  /** A page-table entry; `None` is the null pointer. */
  type Entry = Option<Pointer>

  type Address = a: int | 0 <= a < 0x10000

  function Min(a: int, b: int): int { if a <= b then a else b }

  // ---------------------------------------------------------------- map

  /** `size - 1` computed in `size_t`: a size of 0 wraps to all ones. */
  function SizeMask(size: nat): nat
  {
    if size == 0 then 0xFFFF_FFFF_FFFF_FFFF else size - 1
  }

  /** An `end_address` of 0 stands for `start_address + size`. */
  function MapEnd(size: nat, start: nat, end: nat): nat
  {
    if end == 0 then start + size else end
  }

  /** What `map` stores for `address`: the source advanced by `(address - start) & (size - 1)`. */
  function MapEntry(source: Entry, size: nat, start: nat, address: nat): Entry
    requires start <= address
  {
    match source
    case None => None
    case Some(p) => Some(Pointer(p.buffer, p.offset + BitAnd(address - start, SizeMask(size))))
  }

  /** The loop of `map` from `address` on: slot `address >> 10` is set, then the next kilobyte. */
  function MapFrom(table: seq<Entry>, source: Entry, size: nat, start: nat, address: nat, end: nat): (r: seq<Entry>)
    requires |table| == SlotCount && start <= address && end <= AddressSpace
    ensures |r| == SlotCount
    decreases end - address
  {
    if address >= end then table
    else MapFrom(table[address / 0x400 := MapEntry(source, size, start, address)], source, size, start, address + 0x400, end)
  }

  /** One iteration of the `map` loop: slot `address >> 10` set, then the rest of the loop. */
  lemma MapFromStep(table: seq<Entry>, source: Entry, size: nat, start: nat, address: nat, end: nat)
    requires |table| == SlotCount && start <= address < end <= AddressSpace
    ensures address / 0x400 < SlotCount
    ensures MapFrom(table, source, size, start, address, end)
         == MapFrom(table[address / 0x400 := MapEntry(source, size, start, address)],
                    source, size, start, address + 0x400, end)
  {
  }

  /** `map(target, source, size, start, end)` applied to the table `table`. */
  function Map(table: seq<Entry>, source: Entry, size: nat, start: nat, end: nat): (r: seq<Entry>)
    requires |table| == SlotCount && MapEnd(size, start, end) <= AddressSpace
    ensures |r| == SlotCount
  {
    MapFrom(table, source, size, start, start, MapEnd(size, start, end))
  }

  /** The address whose iteration of the `map` loop writes `slot`, counting from `start`. */
  function SlotAddress(start: nat, slot: nat): int
  {
    start + (slot - start / 0x400) * 0x400
  }

  /** Whether an iteration of the loop from `start` to `end` writes `slot`. */
  predicate Covers(start: nat, end: nat, slot: nat)
  {
    start / 0x400 <= slot && SlotAddress(start, slot) < end
  }

  lemma {:induction false} MapFromSlot(table: seq<Entry>, source: Entry, size: nat, start: nat,
                                       address: nat, end: nat, slot: nat)
    requires |table| == SlotCount && start <= address && end <= AddressSpace && slot < SlotCount
    ensures MapFrom(table, source, size, start, address, end)[slot]
         == if Covers(address, end, slot) then MapEntry(source, size, start, SlotAddress(address, slot))
            else table[slot]
    decreases end - address
  {
    if address < end {
      var next := table[address / 0x400 := MapEntry(source, size, start, address)];
      MapFromSlot(next, source, size, start, address + 0x400, end, slot);
      assert (address + 0x400) / 0x400 == address / 0x400 + 1;
      if slot > address / 0x400 {
        assert SlotAddress(address + 0x400, slot) == SlotAddress(address, slot);
      }
    }
  }

  /**
   * `map` sets every slot its loop reaches, and only those: slot `s` becomes the
   * entry for address `start + (s - start/1024) * 1024` when that address is below
   * the end, and keeps its previous entry otherwise.
   */
  lemma MapSlot(table: seq<Entry>, source: Entry, size: nat, start: nat, end: nat, slot: nat)
    requires |table| == SlotCount && MapEnd(size, start, end) <= AddressSpace && slot < SlotCount
    ensures Map(table, source, size, start, end)[slot]
         == if Covers(start, MapEnd(size, start, end), slot)
            then MapEntry(source, size, start, SlotAddress(start, slot))
            else table[slot]
  {
    MapFromSlot(table, source, size, start, start, MapEnd(size, start, end), slot);
  }

  /** Each address the loop visits, `start` plus a multiple of 1 KB below the end, sets slot `address >> 10`. */
  lemma MapAtAddress(table: seq<Entry>, source: Entry, size: nat, start: nat, end: nat, i: nat)
    requires |table| == SlotCount && MapEnd(size, start, end) <= AddressSpace
    requires start + i * 0x400 < MapEnd(size, start, end)
    ensures Map(table, source, size, start, end)[(start + i * 0x400) / 0x400]
         == MapEntry(source, size, start, start + i * 0x400)
  {
    var slot := (start + i * 0x400) / 0x400;
    assert slot == start / 0x400 + i;
    MapSlot(table, source, size, start, end, slot);
  }

  // ---------------------------------------------------------------- page_cartridge

  /** Whether the machine has a BIOS: a Master System outside Japan. */
  predicate HasBios(config: Config)
  {
    config.model == MasterSystem && config.region != Japan
  }

  /** Bit 6 of the memory-control byte hides the cartridge, except on Japanese machines. */
  predicate CartridgeVisible(config: Config, memoryControl: bv8)
  {
    memoryControl & 0x40 == 0 || config.region == Japan
  }

  /** Bit 3 of the memory-control byte disables the BIOS. */
  predicate BiosVisible(config: Config, memoryControl: bv8)
  {
    HasBios(config) && memoryControl & 0x08 == 0
  }

  /** The cartridge offset a bank register selects: `(bank * 0x4000) % size`. */
  function WindowStart(bank: bv8, cartridgeSize: nat): (r: nat)
    requires cartridgeSize > 0
    ensures r < cartridgeSize
  {
    (bank as int * 0x4000) % cartridgeSize
  }

  /** How many bytes of a 16 KB window the cartridge can fill from the window's start. */
  function WindowLength(bank: bv8, cartridgeSize: nat): (r: nat)
    requires cartridgeSize > 0
    ensures 1 <= r <= 0x4000 && WindowStart(bank, cartridgeSize) + r <= cartridgeSize
  {
    Min(0x4000, cartridgeSize - WindowStart(bank, cartridgeSize))
  }

  /** Window `c` of the loop in `page_cartridge`: bank `registers[c]` mapped at `c * 0x4000`. */
  function MapWindow(table: seq<Entry>, cartridgeSize: nat, registers: seq<bv8>, c: nat): (r: seq<Entry>)
    requires |table| == SlotCount && cartridgeSize > 0 && |registers| == 3 && c < 3
    ensures |r| == SlotCount
  {
    Map(table, Some(Pointer(Cartridge, WindowStart(registers[c], cartridgeSize))),
        WindowLength(registers[c], cartridgeSize), c * 0x4000, 0)
  }

  /** Windows `0 .. count - 1` mapped in order. */
  function MapWindows(table: seq<Entry>, cartridgeSize: nat, registers: seq<bv8>, count: nat): (r: seq<Entry>)
    requires |table| == SlotCount && cartridgeSize > 0 && |registers| == 3 && count <= 3
    ensures |r| == SlotCount
  {
    if count == 0 then table
    else MapWindow(MapWindows(table, cartridgeSize, registers, count - 1), cartridgeSize, registers, count - 1)
  }

  /** The read table after `page_cartridge`, from the read table before it. */
  function PagedReadTable(table: seq<Entry>, cartridgeSize: nat, registers: seq<bv8>,
                          memoryControl: bv8, config: Config): (r: seq<Entry>)
    requires |table| == SlotCount && cartridgeSize > 0 && |registers| == 3
    ensures |r| == SlotCount
  {
    var paged :=
      if CartridgeVisible(config, memoryControl) then
        var windows := MapWindows(table, cartridgeSize, registers, 3);
        if config.scheme == Sega then Map(windows, Some(Pointer(Cartridge, 0)), 0x400, 0, 0) else windows
      else Map(table, None, 0xC000, 0, 0);
    if BiosVisible(config, memoryControl) then Map(paged, Some(Pointer(Bios, 0)), BiosBytes, 0, 0) else paged
  }

  /**
   * Slot `j` of a window showing `bank`: the bank's start, advanced by
   * `(j * 1024) & (length - 1)`, when the window's loop reaches it; otherwise
   * the slot keeps its previous entry.
   */
  function WindowSlot(previous: Entry, cartridgeSize: nat, bank: bv8, j: nat): Entry
    requires cartridgeSize > 0
  {
    var length := WindowLength(bank, cartridgeSize);
    if j * 0x400 < length
    then Some(Pointer(Cartridge, WindowStart(bank, cartridgeSize) + BitAnd(j * 0x400, length - 1)))
    else previous
  }

  /** Slot by slot, what `page_cartridge` leaves in the read table: an independent statement of it. */
  function PagedSlot(previous: Entry, cartridgeSize: nat, registers: seq<bv8>, memoryControl: bv8,
                     config: Config, slot: nat): Entry
    requires cartridgeSize > 0 && |registers| == 3
  {
    if slot >= 48 then previous
    else if BiosVisible(config, memoryControl) && slot < 8 then Some(Pointer(Bios, slot * 0x400))
    else if !CartridgeVisible(config, memoryControl) then None
    else if config.scheme == Sega && slot == 0 then Some(Pointer(Cartridge, 0))
    else WindowSlot(previous, cartridgeSize, registers[slot / 16], slot % 16)
  }

  lemma MapWindowSlot(table: seq<Entry>, cartridgeSize: nat, registers: seq<bv8>, c: nat, slot: nat)
    requires |table| == SlotCount && cartridgeSize > 0 && |registers| == 3 && c < 3 && slot < SlotCount
    ensures MapWindow(table, cartridgeSize, registers, c)[slot]
         == if slot / 16 == c then WindowSlot(table[slot], cartridgeSize, registers[c], slot % 16) else table[slot]
  {
    MapWindowAt(table, WindowStart(registers[c], cartridgeSize), WindowLength(registers[c], cartridgeSize), c, slot);
  }

  /** Window `c` of `length` bytes from cartridge offset `start`, slot by slot. */
  lemma MapWindowAt(table: seq<Entry>, start: nat, length: nat, c: nat, slot: nat)
    requires |table| == SlotCount && 1 <= length <= 0x4000 && c < 3 && slot < SlotCount
    ensures Map(table, Some(Pointer(Cartridge, start)), length, c * 0x4000, 0)[slot]
         == if slot / 16 == c && (slot % 16) * 0x400 < length
            then Some(Pointer(Cartridge, start + BitAnd((slot % 16) * 0x400, length - 1)))
            else table[slot]
  {
    var source := Some(Pointer(Cartridge, start));
    assert MapEnd(length, c * 0x4000, 0) == c * 0x4000 + length;
    MapSlot(table, source, length, c * 0x4000, 0, slot);
    DivModUnique(c * 0x4000, 0x400, c * 16, 0);
    var q, j := slot / 16, slot % 16;
    assert slot == 16 * q + j;
    var address := SlotAddress(c * 0x4000, slot);
    assert address == c * 0x4000 + (slot - c * 16) * 0x400;
    if q == c {
      assert address - c * 0x4000 == j * 0x400;
      assert Covers(c * 0x4000, c * 0x4000 + length, slot) <==> j * 0x400 < length;
      assert SizeMask(length) == length - 1;
    } else if q < c {
      assert !Covers(c * 0x4000, c * 0x4000 + length, slot);
    } else {
      assert slot - c * 16 >= 16;
      assert !Covers(c * 0x4000, c * 0x4000 + length, slot);
    }
  }

  lemma {:induction false} MapWindowsSlot(table: seq<Entry>, cartridgeSize: nat, registers: seq<bv8>,
                                          count: nat, slot: nat)
    requires |table| == SlotCount && cartridgeSize > 0 && |registers| == 3 && count <= 3 && slot < SlotCount
    ensures MapWindows(table, cartridgeSize, registers, count)[slot]
         == if slot / 16 < count then WindowSlot(table[slot], cartridgeSize, registers[slot / 16], slot % 16)
            else table[slot]
  {
    if count > 0 {
      MapWindowsSlot(table, cartridgeSize, registers, count - 1, slot);
      MapWindowSlot(MapWindows(table, cartridgeSize, registers, count - 1), cartridgeSize, registers, count - 1, slot);
    }
  }

  lemma MaskBelow(x: nat, mask: nat, k: nat)
    requires mask == Pow2(k) - 1 && x <= mask
    ensures BitAnd(x, mask) == x
  {
    BitAndLowMask(x, k);
    DivModUnique(x, Pow2(k), 0, x);
  }

  /** The BIOS mapping covers slots 0-7, slot `s` at BIOS offset `s * 1024`. */
  lemma BiosMapSlot(table: seq<Entry>, slot: nat)
    requires |table| == SlotCount && slot < SlotCount
    ensures Map(table, Some(Pointer(Bios, 0)), BiosBytes, 0, 0)[slot]
         == if slot < 8 then Some(Pointer(Bios, slot * 0x400)) else table[slot]
  {
    MapSlot(table, Some(Pointer(Bios, 0)), BiosBytes, 0, 0, slot);
    if slot < 8 {
      var x := slot * 0x400;
      assert SlotAddress(0, slot) == x && x <= 0x1FFF;
      assert SizeMask(BiosBytes) == 0x1FFF;
      assert Pow2(13) - 1 == 0x1FFF by { Pow2Values(); }
      MaskBelow(x, 0x1FFF, 13);
    }
  }

  /** The Sega scheme's fixed first kilobyte: slot 0 at cartridge offset 0. */
  lemma SegaPinSlot(table: seq<Entry>, slot: nat)
    requires |table| == SlotCount && slot < SlotCount
    ensures Map(table, Some(Pointer(Cartridge, 0)), 0x400, 0, 0)[slot]
         == if slot == 0 then Some(Pointer(Cartridge, 0)) else table[slot]
  {
    MapSlot(table, Some(Pointer(Cartridge, 0)), 0x400, 0, 0, slot);
    if slot == 0 {
      assert SlotAddress(0, slot) - 0 == 0;
      assert BitAnd(0, 0x3FF) == 0;
    }
  }

  /** Hiding the cartridge unmaps slots 0-47. */
  lemma HiddenSlot(table: seq<Entry>, slot: nat)
    requires |table| == SlotCount && slot < SlotCount
    ensures Map(table, None, 0xC000, 0, 0)[slot] == if slot < 48 then None else table[slot]
  {
    MapSlot(table, None, 0xC000, 0, 0, slot);
  }

  /**
   * `page_cartridge` agrees with `PagedSlot` in every slot: the BIOS on top in
   * slots 0-7 when visible, otherwise the cartridge windows (slot 0 pinned to
   * offset 0 under the Sega scheme) or nothing when the cartridge is hidden,
   * and slots 48-63 untouched.
   */
  lemma PagedReadTableSlot(table: seq<Entry>, cartridgeSize: nat, registers: seq<bv8>,
                           memoryControl: bv8, config: Config, slot: nat)
    requires |table| == SlotCount && cartridgeSize > 0 && |registers| == 3 && slot < SlotCount
    ensures PagedReadTable(table, cartridgeSize, registers, memoryControl, config)[slot]
         == PagedSlot(table[slot], cartridgeSize, registers, memoryControl, config, slot)
  {
    var windows := MapWindows(table, cartridgeSize, registers, 3);
    var paged :=
      if CartridgeVisible(config, memoryControl) then
        if config.scheme == Sega then Map(windows, Some(Pointer(Cartridge, 0)), 0x400, 0, 0) else windows
      else Map(table, None, 0xC000, 0, 0);
    assert paged[slot] == (if slot >= 48 then table[slot]
                           else if !CartridgeVisible(config, memoryControl) then None
                           else if config.scheme == Sega && slot == 0 then Some(Pointer(Cartridge, 0))
                           else WindowSlot(table[slot], cartridgeSize, registers[slot / 16], slot % 16)) by {
      MapWindowsSlot(table, cartridgeSize, registers, 3, slot);
      if CartridgeVisible(config, memoryControl) {
        if config.scheme == Sega { SegaPinSlot(windows, slot); }
      } else {
        HiddenSlot(table, slot);
      }
    }
    if BiosVisible(config, memoryControl) {
      BiosMapSlot(paged, slot);
    }
  }

  /** `page_cartridge` never touches the RAM slots 48-63. */
  lemma PagedReadTableKeepsRam(table: seq<Entry>, cartridgeSize: nat, registers: seq<bv8>,
                               memoryControl: bv8, config: Config)
    requires |table| == SlotCount && cartridgeSize > 0 && |registers| == 3
    ensures PagedReadTable(table, cartridgeSize, registers, memoryControl, config)[48..] == table[48..]
  {
    var r := PagedReadTable(table, cartridgeSize, registers, memoryControl, config);
    forall s | 48 <= s < SlotCount
      ensures r[s] == table[s]
    {
      PagedReadTableSlot(table, cartridgeSize, registers, memoryControl, config, s);
    }
  }

  /** When the bank fills its whole window, slot `j` is the bank's start plus `j` kilobytes. */
  lemma FullWindowSlot(previous: Entry, cartridgeSize: nat, bank: bv8, j: nat)
    requires cartridgeSize > 0 && j < 16
    requires WindowStart(bank, cartridgeSize) + 0x4000 <= cartridgeSize
    ensures WindowSlot(previous, cartridgeSize, bank, j)
         == Some(Pointer(Cartridge, WindowStart(bank, cartridgeSize) + j * 0x400))
  {
    assert WindowLength(bank, cartridgeSize) - 1 == 0x3FFF;
    Pow2Values();
    MaskBelow(j * 0x400, 0x3FFF, 14);
  }

  // ---------------------------------------------------------------- cartridge and buffers

  /** The constructor's padding as the source writes it: short images grow to 48 KB of 0xFF. */
  function PadCartridgeAsWritten(cartridge: seq<bv8>): (r: seq<bv8>)
    ensures |r| == if |cartridge| < MinimumCartridgeSize then MinimumCartridgeSize else |cartridge|
    ensures r[..|cartridge|] == cartridge
    ensures forall i :: |cartridge| <= i < |r| ==> r[i] == Unmapped
  {
    if |cartridge| < MinimumCartridgeSize then FillTo(cartridge, MinimumCartridgeSize) else cartridge
  }

  /**
   * Image sizes the padding as written leaves a whole number of kilobytes:
   * images shorter than 48 KB, which grow to exactly 48 KB, and images that
   * already are whole kilobytes.
   */
  predicate PaddingKeepsKilobytes(size: nat)
  {
    size < MinimumCartridgeSize || size % 0x400 == 0
  }

  /**
   * The padding as written gives a cartridge the paging logic keeps in bounds
   * exactly for the images `PaddingKeepsKilobytes` admits, and for those it
   * agrees with the corrected `PadCartridge`.
   */
  lemma PadCartridgeAsWrittenOk(image: seq<bv8>)
    ensures CartridgeSizeOk(|PadCartridgeAsWritten(image)|) <==> PaddingKeepsKilobytes(|image|)
    ensures PaddingKeepsKilobytes(|image|) ==> PadCartridgeAsWritten(image) == PadCartridge(image)
  {
    var padded := PadCartridgeAsWritten(image);
    assert MinimumCartridgeSize % 0x400 == 0;
    if PaddingKeepsKilobytes(|image|) {
      assert |padded| % 0x400 == 0;
      assert FillTo(padded, |padded|) == padded;
    }
  }

  /** The evidently intended padding: as written, then rounded up to a whole kilobyte with 0xFF. */
  function PadCartridge(cartridge: seq<bv8>): (r: seq<bv8>)
    ensures CartridgeSizeOk(|r|)
    ensures |r| == if |cartridge| < MinimumCartridgeSize then MinimumCartridgeSize
                   else |cartridge| + (0x400 - |cartridge| % 0x400) % 0x400
    ensures r[..|cartridge|] == cartridge
    ensures forall i :: |cartridge| <= i < |r| ==> r[i] == Unmapped
  {
    RoundUpToKilobyte(PadCartridgeAsWritten(cartridge))
  }

  function RoundUpToKilobyte(data: seq<bv8>): (r: seq<bv8>)
    ensures |r| == |data| + (0x400 - |data| % 0x400) % 0x400
  {
    FillTo(data, |data| + (0x400 - |data| % 0x400) % 0x400)
  }

  /** `data` extended with 0xFF bytes to `size` bytes. */
  function FillTo(data: seq<bv8>, size: nat): (r: seq<bv8>)
    requires |data| <= size
    ensures |r| == size && r[..|data|] == data
    ensures forall i :: |data| <= i < size ==> r[i] == Unmapped
  {
    data + seq(size - |data|, _ => Unmapped)
  }

  /** Cartridge sizes the paging logic keeps in bounds: at least 48 KB and whole kilobytes. */
  predicate CartridgeSizeOk(size: nat)
  {
    size >= MinimumCartridgeSize && size % 0x400 == 0
  }

  function BufferSize(buffer: BufferId, cartridgeSize: nat): nat
  {
    match buffer
    case Cartridge => cartridgeSize
    case Ram => RamBytes
    case Bios => BiosBytes
  }

  /** An entry whose whole kilobyte lies inside the buffer it points into. */
  predicate EntryInBounds(entry: Entry, cartridgeSize: nat)
  {
    entry.Some? ==> entry.value.offset + 0x400 <= BufferSize(entry.value.buffer, cartridgeSize)
  }

  predicate TableInBounds(table: seq<Entry>, cartridgeSize: nat)
  {
    forall s :: 0 <= s < |table| ==> EntryInBounds(table[s], cartridgeSize)
  }

  lemma RemainderOfKilobytes(a: nat, n: nat)
    requires a % 0x400 == 0 && n > 0 && n % 0x400 == 0
    ensures (a % n) % 0x400 == 0
  {
    var t := a / n;
    var y := n / 0x400;
    var x := a / 0x400;
    assert n == 0x400 * y && a == 0x400 * x;
    assert a == n * t + a % n;
    assert n * t == 0x400 * (y * t);
    assert a % n == 0x400 * (x - y * t);
  }

  /** A kilobyte boundary below a whole number of kilobytes leaves a whole kilobyte before it. */
  lemma KilobyteBelow(m: nat, length: nat)
    requires 0x400 * m < length && length % 0x400 == 0
    ensures 0x400 * m + 0x400 <= length
  {
    var q := length / 0x400;
    assert length == 0x400 * q;
    assert m < q;
  }

  /** With whole-kilobyte cartridges, every kilobyte a window maps lies inside the cartridge. */
  lemma WindowSlotInBounds(previous: Entry, cartridgeSize: nat, bank: bv8, j: nat)
    requires CartridgeSizeOk(cartridgeSize) && EntryInBounds(previous, cartridgeSize)
    ensures EntryInBounds(WindowSlot(previous, cartridgeSize, bank, j), cartridgeSize)
  {
    if j * 0x400 < WindowLength(bank, cartridgeSize) {
      WindowInKilobytes(bank, cartridgeSize);
      KilobyteInWindow(WindowStart(bank, cartridgeSize), WindowLength(bank, cartridgeSize), cartridgeSize, j);
    }
  }

  /** Masking a kilobyte offset inside a whole-kilobyte window keeps a whole kilobyte inside the buffer. */
  lemma KilobyteInWindow(start: nat, length: nat, size: nat, j: nat)
    requires 0 < length && start % 0x400 == 0 && length % 0x400 == 0 && start + length <= size
    requires j * 0x400 < length
    ensures start + BitAnd(j * 0x400, length - 1) + 0x400 <= size
  {
    var k := (length - 1) / 0x400;
    var m := BitAnd(j, k);
    assert BitAnd(j * 0x400, length - 1) == 0x400 * m by { BitAndSlot(j, length - 1); }
    assert 0x400 * k <= length - 1;
    BitAndBounds(j, k);
    assert 0x400 * m <= 0x400 * k;
    KilobyteBelow(m, length);
  }

  /** With a whole-kilobyte cartridge, every window starts on a kilobyte and spans whole kilobytes. */
  lemma WindowInKilobytes(bank: bv8, cartridgeSize: nat)
    requires CartridgeSizeOk(cartridgeSize)
    ensures WindowStart(bank, cartridgeSize) % 0x400 == 0
    ensures WindowLength(bank, cartridgeSize) % 0x400 == 0
  {
    var start := WindowStart(bank, cartridgeSize);
    assert start % 0x400 == 0 by {
      DivModUnique(bank as int * 0x4000, 0x400, bank as int * 16, 0);
      RemainderOfKilobytes(bank as int * 0x4000, cartridgeSize);
    }
    var length := WindowLength(bank, cartridgeSize);
    if length == 0x4000 {
      DivModUnique(0x4000, 0x400, 16, 0);
    } else {
      assert length == cartridgeSize - start;
      KilobytesBetween(start, cartridgeSize);
    }
  }

  /** The distance between two kilobyte boundaries is whole kilobytes. */
  lemma KilobytesBetween(a: nat, b: nat)
    requires a <= b && a % 0x400 == 0 && b % 0x400 == 0
    ensures (b - a) % 0x400 == 0
  {
    DivModUnique(b - a, 0x400, b / 0x400 - a / 0x400, 0);
  }

  /** `page_cartridge` keeps every read entry in bounds when the cartridge is whole kilobytes. */
  lemma PagedReadTableInBounds(table: seq<Entry>, cartridgeSize: nat, registers: seq<bv8>,
                               memoryControl: bv8, config: Config)
    requires |table| == SlotCount && CartridgeSizeOk(cartridgeSize) && |registers| == 3
    requires TableInBounds(table, cartridgeSize)
    ensures TableInBounds(PagedReadTable(table, cartridgeSize, registers, memoryControl, config), cartridgeSize)
  {
    var r := PagedReadTable(table, cartridgeSize, registers, memoryControl, config);
    forall s | 0 <= s < SlotCount
      ensures EntryInBounds(r[s], cartridgeSize)
    {
      PagedReadTableSlot(table, cartridgeSize, registers, memoryControl, config, s);
      if s < 48 {
        WindowSlotInBounds(table[s], cartridgeSize, registers[s / 16], s % 16);
      }
    }
  }

  // ---------------------------------------------------------------- RAM and the write table

  /** The RAM is an 8 KB buffer; the SG-1000 maps only its first kilobyte. */
  function RamMirror(model: Model): nat
  {
    if model == MasterSystem then 0x2000 else 0x400
  }

  /** Offset `x` folded onto the RAM a model can reach: `x mod RamMirror(model)`. */
  function RamIndex(model: Model, x: nat): (r: nat)
    ensures r < RamMirror(model) && r < RamBytes
  {
    if model == MasterSystem then x % 0x2000 else x % 0x400
  }

  /** `map(table, nullptr, 0x10000, 0)`: every slot unmapped. */
  function ClearTable(table: seq<Entry>): (r: seq<Entry>)
    requires |table| == SlotCount
    ensures |r| == SlotCount
  {
    Map(table, None, 0x10000, 0, 0)
  }

  lemma ClearTableSlot(table: seq<Entry>, slot: nat)
    requires |table| == SlotCount && slot < SlotCount
    ensures ClearTable(table)[slot] == None
  {
    MapSlot(table, None, 0x10000, 0, 0, slot);
  }

  lemma ClearTableInBounds(table: seq<Entry>, cartridgeSize: nat)
    requires |table| == SlotCount
    ensures TableInBounds(ClearTable(table), cartridgeSize)
  {
    forall slot | 0 <= slot < SlotCount
      ensures EntryInBounds(ClearTable(table)[slot], cartridgeSize)
    {
      ClearTableSlot(table, slot);
    }
  }

  /** The RAM mapping of the constructor, for reads and writes alike. */
  function MapRam(table: seq<Entry>, model: Model): (r: seq<Entry>)
    requires |table| == SlotCount
    ensures |r| == SlotCount
  {
    Map(table, Some(Pointer(Ram, 0)), RamMirror(model), 0xC000, 0x10000)
  }

  /** Slots 48-63 mirror the RAM every `RamMirror(model)` bytes; slots 0-47 are untouched. */
  lemma MapRamSlot(table: seq<Entry>, model: Model, slot: nat)
    requires |table| == SlotCount && slot < SlotCount
    ensures MapRam(table, model)[slot]
         == if slot >= 48 then Some(Pointer(Ram, RamIndex(model, (slot - 48) * 0x400))) else table[slot]
  {
    MapSlot(table, Some(Pointer(Ram, 0)), RamMirror(model), 0xC000, 0x10000, slot);
    if slot >= 48 {
      MirrorEntry(model, slot);
    }
  }

  /** The entry `map` computes for slot `slot` of the RAM mapping. */
  lemma MirrorEntry(model: Model, slot: nat)
    requires 48 <= slot < SlotCount
    ensures Covers(0xC000, 0x10000, slot)
    ensures MapEntry(Some(Pointer(Ram, 0)), RamMirror(model), 0xC000, SlotAddress(0xC000, slot))
         == Some(Pointer(Ram, RamIndex(model, (slot - 48) * 0x400)))
  {
    var x := (slot - 48) * 0x400;
    assert SlotAddress(0xC000, slot) - 0xC000 == x;
    MirrorMask(x, model);
  }

  /** The RAM mirror is a power of two, so masking with `size - 1` is the remainder. */
  lemma MirrorMask(x: nat, model: Model)
    ensures BitAnd(x, SizeMask(RamMirror(model))) == RamIndex(model, x)
  {
    Pow2Values();
    if model == MasterSystem {
      assert SizeMask(RamMirror(model)) == Pow2(13) - 1;
      BitAndLowMask(x, 13);
    } else {
      assert SizeMask(RamMirror(model)) == Pow2(10) - 1;
      BitAndLowMask(x, 10);
    }
  }

  /** The entry the constructor's RAM mapping leaves in `slot`: the RAM mirror from 0xC000, nothing below. */
  function RamSlot(model: Model, slot: nat): Entry
  {
    if slot >= 48 then Some(Pointer(Ram, RamIndex(model, (slot - 48) * 0x400))) else None
  }

  /** A write table whose every slot is `RamSlot`. */
  predicate MirrorsRam(table: seq<Entry>, model: Model)
  {
    |table| == SlotCount && forall slot :: 0 <= slot < SlotCount ==> table[slot] == RamSlot(model, slot)
  }

  /** Mapping the RAM mirror keeps a table in bounds. */
  lemma MapRamInBounds(table: seq<Entry>, cartridgeSize: nat, model: Model)
    requires |table| == SlotCount && TableInBounds(table, cartridgeSize)
    ensures TableInBounds(MapRam(table, model), cartridgeSize)
  {
    forall slot | 0 <= slot < SlotCount
      ensures EntryInBounds(MapRam(table, model)[slot], cartridgeSize)
    {
      MapRamSlot(table, model, slot);
      if slot >= 48 {
        MirrorOffsetInBounds(slot - 48, model);
      }
    }
  }

  /** A write table that only points into RAM, a whole kilobyte in bounds. */
  predicate WriteTableOk(table: seq<Entry>)
  {
    |table| == SlotCount &&
    forall s :: 0 <= s < SlotCount ==>
      table[s].None? || (table[s].value.buffer == Ram && table[s].value.offset + 0x400 <= RamBytes)
  }

  /** The RAM mirror keeps every write inside the 8 KB of RAM. */
  lemma MirrorsRamOk(table: seq<Entry>, model: Model)
    requires MirrorsRam(table, model)
    ensures WriteTableOk(table)
  {
    forall s | 0 <= s < SlotCount
      ensures table[s].None? || (table[s].value.buffer == Ram && table[s].value.offset + 0x400 <= RamBytes)
    {
      if s >= 48 {
        MirrorOffsetInBounds(s - 48, model);
      }
    }
  }

  /** Kilobyte `k` of the mirrored RAM starts a whole kilobyte inside the 8 KB buffer. */
  lemma MirrorOffsetInBounds(k: nat, model: Model)
    ensures RamIndex(model, k * 0x400) + 0x400 <= RamBytes
  {
    if model == MasterSystem {
      EighthKilobyte(k);
    } else {
      assert (k * 0x400) % 0x400 == 0;
    }
  }

  lemma EighthKilobyte(k: nat)
    ensures (k * 0x400) % 0x2000 == (k % 8) * 0x400
  {
    var q := k / 8;
    var r := k % 8;
    assert k * 0x400 == 0x2000 * q + r * 0x400;
    DivModUnique(k * 0x400, 0x2000, q, r * 0x400);
  }

  // ---------------------------------------------------------------- memory access

  function BufferByte(buffer: BufferId, cartridge: seq<bv8>, bios: seq<bv8>, ram: seq<bv8>, index: nat): bv8
    requires |bios| == BiosBytes && |ram| == RamBytes && index < BufferSize(buffer, |cartridge|)
  {
    match buffer
    case Cartridge => cartridge[index]
    case Ram => ram[index]
    case Bios => bios[index]
  }

  /** A memory read: 0xFF from an unmapped slot, else the byte `address & 1023` past the slot's pointer. */
  function ReadMemory(readTable: seq<Entry>, cartridge: seq<bv8>, bios: seq<bv8>, ram: seq<bv8>,
                      address: Address): (r: bv8)
    requires |readTable| == SlotCount && TableInBounds(readTable, |cartridge|)
    requires |bios| == BiosBytes && |ram| == RamBytes
    ensures readTable[address / 0x400].None? ==> r == Unmapped
    ensures readTable[address / 0x400].Some? ==>
      readTable[address / 0x400].value.offset + address % 0x400
        < BufferSize(readTable[address / 0x400].value.buffer, |cartridge|)
  {
    assert EntryInBounds(readTable[address / 0x400], |cartridge|);
    match readTable[address / 0x400]
    case None => Unmapped
    case Some(p) => BufferByte(p.buffer, cartridge, bios, ram, p.offset + address % 0x400)
  }

  /** A read through a mapped slot is the byte `address & 1023` past its pointer. */
  lemma ReadMemoryAt(readTable: seq<Entry>, cartridge: seq<bv8>, bios: seq<bv8>, ram: seq<bv8>,
                     address: Address, p: Pointer)
    requires |readTable| == SlotCount && TableInBounds(readTable, |cartridge|)
    requires |bios| == BiosBytes && |ram| == RamBytes && readTable[address / 0x400] == Some(p)
    ensures p.offset + address % 0x400 < BufferSize(p.buffer, |cartridge|)
    ensures ReadMemory(readTable, cartridge, bios, ram, address)
         == BufferByte(p.buffer, cartridge, bios, ram, p.offset + address % 0x400)
  {
    assert EntryInBounds(readTable[address / 0x400], |cartridge|);
  }

  /** A memory write: stored `address & 1023` past the slot's pointer, or dropped when unmapped. */
  function StoreByte(writeTable: seq<Entry>, ram: seq<bv8>, address: Address, value: bv8): (r: seq<bv8>)
    requires WriteTableOk(writeTable) && |ram| == RamBytes
    ensures |r| == RamBytes
    ensures writeTable[address / 0x400].None? ==> r == ram
    ensures writeTable[address / 0x400].Some? ==>
      var i := writeTable[address / 0x400].value.offset + address % 0x400;
      i < RamBytes && r[i] == value && forall j :: 0 <= j < RamBytes && j != i ==> r[j] == ram[j]
  {
    match writeTable[address / 0x400]
    case None => ram
    case Some(p) => ram[p.offset + address % 0x400 := value]
  }

  /**
   * Through the constructor's write table, addresses from 0xC000 store into RAM
   * at `(address - 0xC000) mod RamMirror(model)`, and lower addresses change nothing.
   */
  lemma StoreByteMirrorsRam(table: seq<Entry>, model: Model, ram: seq<bv8>, address: Address, value: bv8)
    requires MirrorsRam(table, model) && WriteTableOk(table) && |ram| == RamBytes
    ensures StoreByte(table, ram, address, value)
         == if address >= 0xC000 then ram[RamIndex(model, address - 0xC000) := value] else ram
  {
    var slot := address / 0x400;
    assert table[slot] == RamSlot(model, slot);
    if address >= 0xC000 {
      StoreIntoRam(table, model, ram, address, value);
    } else {
      assert slot < 48;
    }
  }

  lemma StoreIntoRam(table: seq<Entry>, model: Model, ram: seq<bv8>, address: Address, value: bv8)
    requires MirrorsRam(table, model) && WriteTableOk(table) && |ram| == RamBytes && address >= 0xC000
    ensures StoreByte(table, ram, address, value) == ram[RamIndex(model, address - 0xC000) := value]
  {
    var slot := address / 0x400;
    var offset := RamIndex(model, (slot - 48) * 0x400);
    assert table[slot] == Some(Pointer(Ram, offset));
    assert offset + address % 0x400 == RamIndex(model, address - 0xC000) by { RamOffset(model, address); }
  }

  lemma RamOffset(model: Model, address: Address)
    requires address >= 0xC000
    ensures RamIndex(model, (address / 0x400 - 48) * 0x400) + address % 0x400
         == RamIndex(model, address - 0xC000)
  {
    var k := address / 0x400 - 48;
    assert address - 0xC000 == k * 0x400 + address % 0x400;
    if model == MasterSystem {
      assert (k * 0x400) % 0x2000 == (k % 8) * 0x400;
      assert (k * 0x400 + address % 0x400) % 0x2000 == (k % 8) * 0x400 + address % 0x400;
    } else {
      assert (k * 0x400) % 0x400 == 0;
    }
  }

  /** Reading through a read table whose slots 48-63 map the RAM sees the same mirror. */
  lemma ReadMemoryMirrorsRam(readTable: seq<Entry>, model: Model, cartridge: seq<bv8>, bios: seq<bv8>,
                             ram: seq<bv8>, address: Address)
    requires |readTable| == SlotCount && TableInBounds(readTable, |cartridge|)
    requires |bios| == BiosBytes && |ram| == RamBytes && address >= 0xC000
    requires readTable[address / 0x400] == RamSlot(model, address / 0x400)
    ensures ReadMemory(readTable, cartridge, bios, ram, address) == ram[RamIndex(model, address - 0xC000)]
  {
    var slot := address / 0x400;
    var offset := RamIndex(model, (slot - 48) * 0x400);
    assert readTable[slot] == Some(Pointer(Ram, offset));
    assert offset + address % 0x400 == RamIndex(model, address - 0xC000) by { RamOffset(model, address); }
  }

  // ---------------------------------------------------------------- bank selection

  /**
   * The paging register a memory write selects, if any: under the Sega scheme
   * one of 0xFFFD-0xFFFF when the cartridge is larger than 48 KB; under the
   * Codemasters scheme 0x0000, 0x4000 or 0x8000.
   */
  function BankSelectRegister(scheme: PagingScheme, cartridgeSize: nat, address: Address): (r: Option<nat>)
    ensures r.Some? ==> r.value < 3
    ensures scheme == Sega ==>
      (r.Some? <==> address >= 0xFFFD && cartridgeSize > MinimumCartridgeSize) &&
      (r.Some? ==> r.value == address - 0xFFFD)
    ensures scheme == Codemasters ==>
      (r.Some? <==> address in {0x0000, 0x4000, 0x8000}) &&
      (r.Some? ==> address == r.value * 0x4000)
  {
    match scheme
    case Sega =>
      if address >= 0xFFFD && cartridgeSize > MinimumCartridgeSize then Some(address - 0xFFFD) else None
    case Codemasters =>
      if address % 0x4000 == 0 && address < 0xC000 then Some(address / 0x4000) else None
  }

  /** The paging registers at power-on: {0, 1, 2}, or {0, 1, 0} for Codemasters cartridges. */
  function InitialPagingRegisters(scheme: PagingScheme): (r: seq<bv8>)
    ensures |r| == 3 && r[0] == 0 && r[1] == 1
    ensures r[2] == if scheme == Codemasters then 0 else 2
  {
    if scheme == Codemasters then [0, 1, 0] else [0, 1, 2]
  }
}

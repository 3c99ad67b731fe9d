/** Segment and gate descriptors of the two builds, byte by byte (Intel SDM Vol. 3A, section 3.4.5 for segment
    descriptors): Method A patches the base of CodeA to CS * 16 and uses offsets, Method B keeps a flat base and
    uses linear addresses. */
module Descriptors {
  import opened Builds

  type Bytes = seq<bv8>

  datatype Segment = Segment(base: bv32, limit: bv32, access: bv8, flags: bv8)

  function Low(x: bv32): bv8 { (x & 0xFF) as bv8 }
  function Word(lo: bv8, hi: bv8): bv32 { lo as bv32 | (hi as bv32 << 8) }

  /** The `DESC base, limit, access, flags` macro. */
  function Desc(base: bv32, limit: bv32, access: bv8, flags: bv8): (d: Bytes)
    ensures |d| == 8
  {
    [Low(limit), Low(limit >> 8), Low(base), Low(base >> 8), Low(base >> 16), access,
     Low((limit >> 16) & 0x0F) | (flags & 0xF0), Low(base >> 24)]
  }

  /** What the processor makes of eight descriptor bytes. */
  function Decode(d: Bytes): Segment
    requires |d| == 8
  {
    Segment(Word(d[2], d[3]) | (Word(d[4], d[7]) << 16),
            Word(d[0], d[1]) | ((d[6] & 0x0F) as bv32 << 16),
            d[5], d[6] & 0xF0)
  }

  /** Packing loses nothing of the base, the low 20 bits of the limit, the access byte and the high flags. */
  lemma DescRoundTrip(base: bv32, limit: bv32, access: bv8, flags: bv8)
    ensures Decode(Desc(base, limit, access, flags)) == Segment(base, limit & 0xFFFFF, access, flags & 0xF0)
  {
  }

  const SEL_CODEA := 0x08
  const SEL_CODEB := 0x10
  const SEL_DATA := 0x18
  const ACC_CODE32: bv8 := 0x9A
  const ACC_DATA32: bv8 := 0x92
  const FLG_GRAN4K: bv8 := 0xC0
  const LIM_4GB: bv32 := 0xFFFFF

  /** The table in the image: null, CodeA, CodeB, Data. */
  function GdtImage(): (g: Bytes)
    ensures |g| == 32
  {
    [0, 0, 0, 0, 0, 0, 0, 0]
    + Desc(0, LIM_4GB, ACC_CODE32, FLG_GRAN4K)
    + Desc(0, LIM_4GB, ACC_CODE32, FLG_GRAN4K)
    + Desc(0, LIM_4GB, ACC_DATA32, FLG_GRAN4K)
  }

  function Entry(table: Bytes, selector: nat): Segment
    requires selector + 8 <= |table|
  {
    Decode(table[selector..selector + 8])
  }

  function Times16(cs: bv16): bv32 { cs as bv32 << 4 }

  /** `mul dx` leaves CS * 16 in DX:AX; the patch stores AL, AH, DL and DH. */
  function BaseBytes(cs: bv16): (p: Bytes)
    ensures |p| == 4
  {
    var ax, dx := Times16(cs) & 0xFFFF, Times16(cs) >> 16;
    [Low(ax), Low(ax >> 8), Low(dx), Low(dx >> 8)]
  }

  /** A descriptor with bytes 2, 3, 4 and 7 replaced. */
  function Patched(d: Bytes, p: Bytes): (r: Bytes)
    requires |d| == 8 && |p| == 4
    ensures |r| == 8
  {
    [d[0], d[1], p[0], p[1], p[2], d[5], d[6], p[3]]
  }

  /** The patch makes the decoded base CS * 16 and leaves limit, access and flags as they were. */
  lemma PatchSetsBase(d: Bytes, cs: bv16)
    requires |d| == 8
    ensures Decode(Patched(d, BaseBytes(cs))) == Decode(d).(base := Times16(cs))
  {
    PatchedBase(Times16(cs));
  }

  lemma PatchedBase(x: bv32)
    ensures Word(Low(x & 0xFFFF), Low((x & 0xFFFF) >> 8)) | (Word(Low(x >> 16), Low((x >> 16) >> 8)) << 16) == x
  {
  }

  method StoreBase<T>(gdt: array<T>, di: nat, bytes: seq<T>)
    requires di + 8 <= gdt.Length && |bytes| == 4
    modifies gdt
    ensures gdt[..] == old(gdt[..])[di + 2 := bytes[0]][di + 3 := bytes[1]][di + 4 := bytes[2]][di + 7 := bytes[3]]
  {
    gdt[di + 2], gdt[di + 3] := bytes[0], bytes[1];
    gdt[di + 4] := bytes[2];
    gdt[di + 7] := bytes[3];
  }

  method PatchCodeA(gdt: array<bv8>, cs: bv16)
    requires gdt.Length == 32
    modifies gdt
    ensures gdt[..8] == old(gdt[..8]) && gdt[16..] == old(gdt[16..])
    ensures gdt[8..16] == Patched(old(gdt[8..16]), BaseBytes(cs))
    ensures old(gdt[..]) == GdtImage() ==> gdt[..] == PatchedImage(cs)
  {
    ghost var was := gdt[..];
    StoreBase(gdt, 8, BaseBytes(cs));
    PatchedTable(was, gdt[..], BaseBytes(cs));
  }

  lemma PatchedTable<T>(was: seq<T>, now: seq<T>, p: seq<T>)
    requires |was| == 32 && |p| == 4 && now == was[10 := p[0]][11 := p[1]][12 := p[2]][15 := p[3]]
    ensures now == was[..8] + [was[8], was[9], p[0], p[1], p[2], was[13], was[14], p[3]] + was[16..]
  {
  }

  /** The run-time GDT address: `mul`, `add ax, gdt_start`, `adc dx, 0` into the pseudo-descriptor. */
  function GdtAddress(cs: bv16, gdtStart: bv16): bv32 {
    var product := Times16(cs);
    var sum := (product & 0xFFFF) + gdtStart as bv32;
    var carry := sum >> 16;
    (sum & 0xFFFF) | (((product >> 16) + carry) << 16)
  }

  lemma GdtAddressIsLinear(cs: bv16, gdtStart: bv16)
    ensures GdtAddress(cs, gdtStart) == Times16(cs) + gdtStart as bv32
  {
  }

  /** In numbers: a real-mode segment starts at 16 times its selector. */
  lemma Times16Is(cs: bv16)
    ensures Times16(cs) as int == 16 * (cs as int)
  {
    ShiftedBy4(cs);
  }

  lemma ShiftedBy4(cs: bv16)
    ensures (cs as bv32 << 4) as int == 16 * (cs as int)
  {
  }

  // ----- what the entries are: bits of the access byte and of the flags -----

  /** Present, a code or data segment, ring 0. */
  predicate PresentInRing0(s: Segment) { s.access & 0x80 != 0 && s.access & 0x10 != 0 && s.access & 0x60 == 0 }

  predicate Executable(s: Segment) { s.access & 0x08 != 0 }

  /** Readable if code, writable if data. */
  predicate ReadWrite(s: Segment) { s.access & 0x02 != 0 }

  /** 32 bits by default, not a 64-bit segment. */
  predicate Default32(s: Segment) { s.flags & 0x40 != 0 && s.flags & 0x20 == 0 }

  /** The last offset of a segment: with the granularity bit the limit counts pages of 4096 bytes. */
  function LastOffset(s: Segment): bv32 {
    if s.flags & 0x80 != 0 then (s.limit << 12) | 0xFFF else s.limit
  }

  predicate Flat32(s: Segment) {
    PresentInRing0(s) && ReadWrite(s) && Default32(s) && s.flags & 0x80 != 0 && LastOffset(s) == 0xFFFF_FFFF
  }

  /** Whatever CS is patched in, both builds run with executable code segments and a data segment that can be
      written and not executed, all 32-bit, page-granular and reaching 2^32 - 1; the first entry is null. */
  lemma TableIsUsable(build: Build, cs: bv16)
    ensures Table(build, cs)[..8] == [0, 0, 0, 0, 0, 0, 0, 0]
    ensures Flat32(Entry(Table(build, cs), 8)) && Executable(Entry(Table(build, cs), 8))
    ensures Flat32(Entry(Table(build, cs), 16)) && Executable(Entry(Table(build, cs), 16))
    ensures Flat32(Entry(Table(build, cs), 24)) && !Executable(Entry(Table(build, cs), 24))
    ensures Entry(Table(build, cs), 16).base == 0 && Entry(Table(build, cs), 24).base == 0
  {
    ImageEntries();
    PatchedImageEntries(cs);
    CodeBits(Entry(Table(build, cs), 8));
    CodeBits(Entry(Table(build, cs), 16));
    DataBits(Entry(Table(build, cs), 24));
  }

  lemma CodeBits(s: Segment)
    requires s.limit == LIM_4GB && s.access == ACC_CODE32 && s.flags == FLG_GRAN4K
    ensures Flat32(s) && Executable(s)
  {
  }

  lemma DataBits(s: Segment)
    requires s.limit == LIM_4GB && s.access == ACC_DATA32 && s.flags == FLG_GRAN4K
    ensures Flat32(s) && !Executable(s)
  {
  }

  // ----- entry into protected mode -----

  lemma ImageEntries()
    ensures Entry(GdtImage(), SEL_CODEA) == Segment(0, LIM_4GB, ACC_CODE32, FLG_GRAN4K)
    ensures Entry(GdtImage(), SEL_CODEB) == Segment(0, LIM_4GB, ACC_CODE32, FLG_GRAN4K)
    ensures Entry(GdtImage(), SEL_DATA) == Segment(0, LIM_4GB, ACC_DATA32, FLG_GRAN4K)
  {
    assert GdtImage()[8..16] == Desc(0, LIM_4GB, ACC_CODE32, FLG_GRAN4K);
    assert GdtImage()[16..24] == Desc(0, LIM_4GB, ACC_CODE32, FLG_GRAN4K);
    assert GdtImage()[24..32] == Desc(0, LIM_4GB, ACC_DATA32, FLG_GRAN4K);
    DescRoundTrip(0, LIM_4GB, ACC_CODE32, FLG_GRAN4K);
    DescRoundTrip(0, LIM_4GB, ACC_DATA32, FLG_GRAN4K);
  }

  /** The table Method A loads: the image with CodeA's base patched. */
  function PatchedImage(cs: bv16): (g: Bytes)
    ensures |g| == 32
  {
    GdtImage()[..8] + Patched(GdtImage()[8..16], BaseBytes(cs)) + GdtImage()[16..]
  }

  lemma PatchedImageEntry(cs: bv16)
    ensures Entry(PatchedImage(cs), SEL_CODEA) == Segment(Times16(cs), LIM_4GB, ACC_CODE32, FLG_GRAN4K)
  {
    ImageEntries();
    PatchSetsBase(GdtImage()[8..16], cs);
    assert PatchedImage(cs)[8..16] == Patched(GdtImage()[8..16], BaseBytes(cs));
  }

  lemma PatchedImageEntries(cs: bv16)
    ensures Entry(PatchedImage(cs), SEL_CODEA) == Segment(Times16(cs), LIM_4GB, ACC_CODE32, FLG_GRAN4K)
    ensures Entry(PatchedImage(cs), SEL_CODEB) == Entry(GdtImage(), SEL_CODEB)
    ensures Entry(PatchedImage(cs), SEL_DATA) == Entry(GdtImage(), SEL_DATA)
    ensures PatchedImage(cs)[..8] == GdtImage()[..8]
  {
    PatchedImageEntry(cs);
    assert PatchedImage(cs)[16..24] == GdtImage()[16..24];
    assert PatchedImage(cs)[24..32] == GdtImage()[24..32];
  }

  /** Method A jumps to CodeA:pm_start_32 with the base patched, Method B through a far pointer to CodeB with the
      linear address in it. For every CS both enter the same linear address, CS * 16 + pm_start_32, under the
      same limit, access and flags. */
  lemma BuildsEnterSameAddress(cs: bv16, pmStart: bv16)
    ensures var a, b := Entry(PatchedImage(cs), SEL_CODEA), Entry(GdtImage(), SEL_CODEB);
            && a.base + pmStart as bv32 == b.base + (Times16(cs) + pmStart as bv32) == Times16(cs) + pmStart as bv32
            && (a.limit, a.access, a.flags) == (b.limit, b.access, b.flags)
  {
    PatchedImageEntry(cs);
    ImageEntries();
  }

  // ----- interrupt gates -----

  datatype Gate = Gate(offset: bv32, selector: bv32, attributes: bv32)

  function DecodeGate(d: Bytes): Gate
    requires |d| == 8
  {
    Gate(Word(d[0], d[1]) | (Word(d[6], d[7]) << 16), Word(d[2], d[3]), Word(d[4], d[5]))
  }

  /** The eight bytes of a gate: AX, selector, attributes 0x8E00, and AX again after `shr eax, 16`. */
  function GateBytes(address: bv32, selector: bv16): (d: Bytes)
    ensures |d| == 8
  {
    [Low(address), Low(address >> 8), Low(selector as bv32), Low(selector as bv32 >> 8), 0x00, 0x8E,
     Low(address >> 16), Low((address >> 16) >> 8)]
  }

  lemma GateRoundTrip(address: bv32, selector: bv16)
    ensures DecodeGate(GateBytes(address, selector)) == Gate(address, selector as bv32, 0x8E00)
  {
  }

  /** The stores of one gate in program order: offset low, selector, offset high, attributes. */
  method StoreGate<T>(idt: array<T>, ebx: nat, bytes: seq<T>)
    requires ebx + 8 <= idt.Length && |bytes| == 8
    modifies idt
    ensures idt[ebx..ebx + 8] == bytes
    ensures idt[..ebx] == old(idt[..ebx]) && idt[ebx + 8..] == old(idt[ebx + 8..])
  {
    idt[ebx], idt[ebx + 1] := bytes[0], bytes[1];
    idt[ebx + 2], idt[ebx + 3] := bytes[2], bytes[3];
    idt[ebx + 6], idt[ebx + 7] := bytes[6], bytes[7];
    idt[ebx + 4], idt[ebx + 5] := bytes[4], bytes[5];
  }

  /** `setup_idt` and `install_irq0_handler` for one vector, with the handler address in EAX. */
  method SetGate(idt: array<bv8>, vector: nat, address: bv32, selector: bv16)
    requires idt.Length == 256 * 8 && vector < 256
    modifies idt
    ensures idt[8 * vector..8 * vector + 8] == GateBytes(address, selector)
    ensures idt[..8 * vector] == old(idt[..8 * vector]) && idt[8 * vector + 8..] == old(idt[8 * vector + 8..])
  {
    StoreGate(idt, 8 * vector, GateBytes(address, selector));
  }

  /** The address a build packs into a gate or an initial EIP: the label's offset, or 0x60000 plus it. */
  function PackedAddress(build: Build, target: bv16): bv32 {
    match build case MethodA => target as bv32 case MethodB => 0x60000 + target as bv32
  }

  function CodeSelector(build: Build): bv16 { match build case MethodA => 0x08 case MethodB => 0x10 }

  /** The GDT a build runs with. */
  function Table(build: Build, cs: bv16): (g: Bytes)
    ensures |g| == 32
  {
    match build case MethodA => PatchedImage(cs) case MethodB => GdtImage()
  }

  function GateOf(build: Build, target: bv16): Gate {
    DecodeGate(GateBytes(PackedAddress(build, target), CodeSelector(build)))
  }

  /** A segment base and an offset into the segment. */
  datatype Far = Far(base: bv32, offset: bv32)

  function Linear(f: Far): bv32 { f.base + f.offset }

  /** The base of the segment that a gate's selector names. */
  function GateBase(build: Build, cs: bv16, gate: Gate): bv32 {
    Entry(Table(build, cs), if gate.selector == 0x08 then SEL_CODEA else SEL_CODEB).base
  }

  /** Where an interrupt through the gate that a build packs for `target` arrives: the base of the segment the
      gate's selector names plus the gate's offset. */
  function HandlerLinear(build: Build, cs: bv16, target: bv16): bv32 { Linear(Arrival(build, cs, target)) }

  function Arrival(build: Build, cs: bv16, target: bv16): Far {
    Far(GateBase(build, cs, GateOf(build, target)), GateOf(build, target).offset)
  }

  lemma GateOfIs(build: Build, target: bv16)
    ensures GateOf(build, target).offset == PackedAddress(build, target)
    ensures GateOf(build, target).selector == if build == MethodA then 0x08 else 0x10
  {
    GateRoundTrip(PackedAddress(build, target), CodeSelector(build));
  }

  lemma GateBaseIs(build: Build, cs: bv16, gate: Gate)
    requires gate.selector == if build == MethodA then 0x08 else 0x10
    ensures GateBase(build, cs, gate) == if build == MethodA then Times16(cs) else 0
  {
    PatchedImageEntry(cs);
    ImageEntries();
  }

  lemma ArrivalIs(build: Build, cs: bv16, target: bv16)
    ensures Arrival(build, cs, target)
            == Far(if build == MethodA then Times16(cs) else 0, PackedAddress(build, target))
  {
    GateOfIs(build, target);
    GateBaseIs(build, cs, GateOf(build, target));
  }

  lemma HandlerLinearA(cs: bv16, target: bv16)
    ensures HandlerLinear(MethodA, cs, target) == Linear(Far(Times16(cs), target as bv32))
  {
    ArrivalIs(MethodA, cs, target);
  }

  lemma HandlerLinearB(cs: bv16, target: bv16)
    ensures HandlerLinear(MethodB, cs, target) == 0x60000 + target as bv32
  {
    ArrivalIs(MethodB, cs, target);
  }

  /** Gates of the two builds reach the same handler exactly when the image is loaded at CS = 0x6000, the only
      place Method B's constant is right for. */
  lemma BuildsAgreeExactlyAt6000(cs: bv16, target: bv16)
    ensures HandlerLinear(MethodA, cs, target) == HandlerLinear(MethodB, cs, target) <==> cs == 0x6000
  {
    HandlerLinearA(cs, target);
    HandlerLinearB(cs, target);
    SameOffset(Times16(cs), 0x60000, target as bv32);
    assert Times16(cs) == 0x60000 <==> cs == 0x6000;
  }

  lemma SameOffset(x: bv32, y: bv32, offset: bv32)
    ensures x + offset == y + offset <==> x == y
  {
  }
}

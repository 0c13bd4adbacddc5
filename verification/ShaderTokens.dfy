/**
  The bit layout of Direct3D 9 shader operand tokens: decoding as the parser does it, and
  the encoder that specifies the format.
 */
module ShaderTokens {
  import opened Options
  import opened Words
  import opened ShaderIr

  const OP_DCL := 31
  const OP_DEF := 81
  const OP_DEFI := 82
  const OP_DEFB := 83
  const OP_COMMENT := 0xFFFE
  const OP_END := 0xFFFF

  function DecodeKind(t: u32): RegKind {
    t / 0x1000_0000 % 8 + 8 * (t / 0x800 % 4)
  }

  function DecodeNumber(t: u32): RegNumber {
    t % 0x800
  }

  function RelativeBit(t: u32): bool {
    t / 0x2000 % 2 == 1
  }

  function DecodeDst(t: u32): Register {
    Register(DecodeKind(t), DecodeNumber(t), IDENTITY, t / 0x1_0000 % 16, 0, t / 0x10_0000 % 16, false, 0)
  }

  function DecodeSrc(t: u32): Register {
    Register(DecodeKind(t), DecodeNumber(t),
             Swizzle(t / 0x1_0000 % 4, t / 0x4_0000 % 4, t / 0x10_0000 % 4, t / 0x40_0000 % 4),
             15, t / 0x100_0000 % 16, 0, RelativeBit(t), 0)
  }

  function RelativeLane(t: u32): Lane {
    t / 0x1_0000 % 4
  }

  function DecodeDcl(semantic: u32, reg: u32): DclEntry {
    var kind := DecodeKind(reg);
    DclEntry(semantic % 32, semantic / 0x1_0000 % 16, kind, reg / 0x1_0000 % 16, DecodeNumber(reg),
             if kind == SAMPLER then semantic / 0x800_0000 % 16 else 0)
  }

  function Bit(b: bool): int {
    if b then 1 else 0
  }

  // The operand fields outside bits 16 to 27, with the parameter-token marker in bit 31.
  function PackRegister(kind: RegKind, number: RegNumber, relative: bool, middle: int): u32
    requires 0 <= middle < 0x1000
  {
    number + 0x800 * (kind / 8) + 0x2000 * Bit(relative) + 0x1_0000 * middle
    + 0x1000_0000 * (kind % 8) + 0x8000_0000
  }

  function EncodeDst(r: Register): u32 {
    PackRegister(r.kind, r.number, r.relative, r.writeMask + 16 * r.resultMod)
  }

  function EncodeSrc(r: Register): u32 {
    PackRegister(r.kind, r.number, r.relative,
                 r.swizzle.x + 4 * r.swizzle.y + 16 * r.swizzle.z + 64 * r.swizzle.w + 256 * r.srcMod)
  }

  // The a0 token that follows a relatively addressed operand.
  function EncodeRelative(lane: Lane): u32 {
    0xB000_0000 + 0x1_0000 * lane
  }

  function EncodeDclSemantic(d: DclEntry): u32
    requires d.usage < 32
  {
    d.usage + 0x1_0000 * d.usageIndex + 0x800_0000 * d.samplerType + 0x8000_0000
  }

  function EncodeDclRegister(d: DclEntry): u32 {
    PackRegister(d.kind, d.number, false, d.writeMask)
  }

  predicate ValidDst(r: Register) {
    r.swizzle == IDENTITY && r.srcMod == 0 && (r.relative || r.relativeComponent == 0)
  }

  predicate ValidSrc(r: Register) {
    r.writeMask == 15 && r.resultMod == 0 && (r.relative || r.relativeComponent == 0)
  }

  // ---------------------------------------------------------------- the format, bit field by bit field

  // Bits 0 to 10 hold the number, bits 28 to 30 and 11 to 12 the kind. Every bit that the
  // predicates of this section do not mention may be anything.
  predicate KindFields(t: u32, kind: RegKind, number: RegNumber) {
    t % 0x800 == number && t / 0x800 % 4 == kind / 8 && t / 0x1000_0000 % 8 == kind % 8
  }

  // Bit 13 marks a relative address, bits 16 to 19 the write mask, bits 20 to 23 the modifiers.
  predicate DstFields(t: u32, r: Register) {
    && KindFields(t, r.kind, r.number) && t / 0x2000 % 2 == Bit(r.relative)
    && t / 0x1_0000 % 16 == r.writeMask && t / 0x10_0000 % 16 == r.resultMod
  }

  // Bits 16 to 23 hold the swizzle, bits 24 to 27 the modifier.
  predicate SrcFields(t: u32, r: Register) {
    && KindFields(t, r.kind, r.number) && t / 0x2000 % 2 == Bit(r.relative)
    && t / 0x1_0000 % 4 == r.swizzle.x && t / 0x4_0000 % 4 == r.swizzle.y
    && t / 0x10_0000 % 4 == r.swizzle.z && t / 0x40_0000 % 4 == r.swizzle.w
    && t / 0x100_0000 % 16 == r.srcMod
  }

  // Bits 0 to 4 hold the usage, bits 16 to 19 its index, bits 27 to 30 a sampler's type.
  predicate SemanticFields(t: u32, d: DclEntry) {
    && t % 32 == d.usage && t / 0x1_0000 % 16 == d.usageIndex
    && (d.kind == SAMPLER ==> t / 0x800_0000 % 16 == d.samplerType)
  }

  predicate DclFields(semantic: u32, reg: u32, d: DclEntry) {
    SemanticFields(semantic, d) && KindFields(reg, d.kind, d.number) && reg / 0x1_0000 % 16 == d.writeMask
  }

  lemma {:induction false} KindDecodes(t: u32, kind: RegKind, number: RegNumber)
    ensures KindFields(t, kind, number) <==> DecodeKind(t) == kind && DecodeNumber(t) == number
  {
  }

  /** A destination token decodes to a register exactly when its fields hold the register's,
      whatever its other bits are. */
  lemma {:induction false} DstRoundTrip(t: u32, r: Register)
    requires ValidDst(r)
    ensures DstFields(t, r) <==>
      DecodeDst(t) == r.(relative := false, relativeComponent := 0) && RelativeBit(t) == r.relative
  {
    KindDecodes(t, r.kind, r.number);
    hide KindFields, DecodeKind, DecodeNumber;
  }

  /** A source token decodes to a register exactly when its fields hold the register's; the lane
      of a relative address is in the token that follows. */
  lemma {:induction false} SrcRoundTrip(t: u32, r: Register)
    requires ValidSrc(r)
    ensures SrcFields(t, r) <==> DecodeSrc(t) == r.(relativeComponent := 0)
  {
    KindDecodes(t, r.kind, r.number);
    hide KindFields, DecodeKind, DecodeNumber;
  }

  predicate ValidDcl(d: DclEntry) {
    d.usage < 32 && (d.kind == SAMPLER || d.samplerType == 0)
  }

  /** The two tokens of a declaration decode to it exactly when their fields hold it. */
  lemma {:induction false} DclRoundTrip(semantic: u32, reg: u32, d: DclEntry)
    requires ValidDcl(d)
    ensures DclFields(semantic, reg, d) <==> DecodeDcl(semantic, reg) == d
  {
    KindDecodes(reg, d.kind, d.number);
    hide KindFields, DecodeKind, DecodeNumber;
  }

  // ---------------------------------------------------------------- the encoder keeps to the format

  lemma {:induction false} UnpackKind(kind: RegKind, number: RegNumber, relative: bool, middle: int)
    requires 0 <= middle < 0x1000
    ensures KindFields(PackRegister(kind, number, relative, middle), kind, number)
  {
    var t := PackRegister(kind, number, relative, middle);
    var low := number + 0x800 * (kind / 8) + 0x2000 * Bit(relative) + 0x1_0000 * middle;
    UnpackTop(kind, low);
    var above := kind / 8 + 4 * (Bit(relative) + 8 * middle + 0x8000 * (kind % 8 + 8));
    DivMod(t, 0x800, above, number);
    DivMod(above, 4, Bit(relative) + 8 * middle + 0x8000 * (kind % 8 + 8), kind / 8);
  }

  lemma {:induction false} UnpackTop(kind: RegKind, low: int)
    requires 0 <= low < 0x1000_0000
    ensures (low + 0x1000_0000 * (kind % 8) + 0x8000_0000) / 0x1000_0000 % 8 == kind % 8
  {
    DivMod(low + 0x1000_0000 * (kind % 8) + 0x8000_0000, 0x1000_0000, kind % 8 + 8, low);
    DivMod(kind % 8 + 8, 8, 1, kind % 8);
  }

  lemma {:induction false} UnpackRelative(kind: RegKind, number: RegNumber, relative: bool, middle: int)
    requires 0 <= middle < 0x1000
    ensures PackRegister(kind, number, relative, middle) / 0x2000 % 2 == Bit(relative)
  {
    var t := PackRegister(kind, number, relative, middle);
    var above := Bit(relative) + 2 * (4 * middle + 0x4000 * (kind % 8 + 8));
    DivMod(t, 0x2000, above, number + 0x800 * (kind / 8));
    DivMod(above, 2, 4 * middle + 0x4000 * (kind % 8 + 8), Bit(relative));
  }

  // Two fields of the middle bits, one directly above the other.
  lemma {:induction false} UnpackMask(kind: RegKind, number: RegNumber, relative: bool, mask: Nibble, resultMod: Nibble)
    ensures var t := PackRegister(kind, number, relative, mask + 16 * resultMod);
      t / 0x1_0000 % 16 == mask && t / 0x10_0000 % 16 == resultMod
  {
    var t := PackRegister(kind, number, relative, mask + 16 * resultMod);
    var low := number + 0x800 * (kind / 8) + 0x2000 * Bit(relative);
    var above := resultMod + 256 * (kind % 8 + 8);
    DivMod(t, 0x1_0000, mask + 16 * above, low);
    DivMod(mask + 16 * above, 16, above, mask);
    DivMod(t, 0x10_0000, above, low + 0x1_0000 * mask);
    DivMod(above, 16, 16 * (kind % 8 + 8), resultMod);
  }

  lemma {:induction false} UnpackSwizzle(kind: RegKind, number: RegNumber, relative: bool, s: Swizzle, srcMod: Nibble)
    ensures var t := PackRegister(kind, number, relative, s.x + 4 * s.y + 16 * s.z + 64 * s.w + 256 * srcMod);
      && t / 0x1_0000 % 4 == s.x && t / 0x4_0000 % 4 == s.y && t / 0x10_0000 % 4 == s.z
      && t / 0x40_0000 % 4 == s.w && t / 0x100_0000 % 16 == srcMod
  {
    var t := PackRegister(kind, number, relative, s.x + 4 * s.y + 16 * s.z + 64 * s.w + 256 * srcMod);
    var low := number + 0x800 * (kind / 8) + 0x2000 * Bit(relative);
    var k4 := srcMod + 16 * (kind % 8 + 8);
    var k3 := s.w + 4 * k4;
    var k2 := s.z + 4 * k3;
    var k1 := s.y + 4 * k2;
    var k0 := s.x + 4 * k1;
    DivMod(t, 0x1_0000, k0, low);
    DivMod(k0, 4, k1, s.x);
    DivMod(t, 0x4_0000, k1, low + 0x1_0000 * s.x);
    DivMod(k1, 4, k2, s.y);
    DivMod(t, 0x10_0000, k2, low + 0x1_0000 * s.x + 0x4_0000 * s.y);
    DivMod(k2, 4, k3, s.z);
    DivMod(t, 0x40_0000, k3, low + 0x1_0000 * s.x + 0x4_0000 * s.y + 0x10_0000 * s.z);
    DivMod(k3, 4, k4, s.w);
    DivMod(t, 0x100_0000, k4, low + 0x1_0000 * s.x + 0x4_0000 * s.y + 0x10_0000 * s.z + 0x40_0000 * s.w);
    DivMod(k4, 16, kind % 8 + 8, srcMod);
  }

  lemma {:induction false} UnpackSemantic(usage: nat, index: Nibble, sampler: Nibble)
    requires usage < 32
    ensures var t := usage + 0x1_0000 * index + 0x800_0000 * sampler + 0x8000_0000;
      t % 32 == usage && t / 0x1_0000 % 16 == index && t / 0x800_0000 % 16 == sampler
  {
    var t := usage + 0x1_0000 * index + 0x800_0000 * sampler + 0x8000_0000;
    DivMod(t, 32, 0x800 * index + 0x40_0000 * sampler + 0x400_0000, usage);
    DivMod(t, 0x1_0000, index + 0x800 * sampler + 0x8000, usage);
    DivMod(index + 0x800 * sampler + 0x8000, 16, 128 * sampler + 0x800, index);
    DivMod(t, 0x800_0000, sampler + 16, usage + 0x1_0000 * index);
    DivMod(sampler + 16, 16, 1, sampler);
  }

  lemma {:induction false} DstEncoded(r: Register)
    ensures DstFields(EncodeDst(r), r)
  {
    UnpackKind(r.kind, r.number, r.relative, r.writeMask + 16 * r.resultMod);
    UnpackRelative(r.kind, r.number, r.relative, r.writeMask + 16 * r.resultMod);
    UnpackMask(r.kind, r.number, r.relative, r.writeMask, r.resultMod);
    hide PackRegister, KindFields;
  }

  lemma {:induction false} SrcEncoded(r: Register)
    ensures SrcFields(EncodeSrc(r), r)
  {
    var s := r.swizzle;
    UnpackKind(r.kind, r.number, r.relative, s.x + 4 * s.y + 16 * s.z + 64 * s.w + 256 * r.srcMod);
    UnpackRelative(r.kind, r.number, r.relative, s.x + 4 * s.y + 16 * s.z + 64 * s.w + 256 * r.srcMod);
    UnpackSwizzle(r.kind, r.number, r.relative, s, r.srcMod);
    hide PackRegister, KindFields;
  }

  lemma {:induction false} SemanticEncoded(d: DclEntry)
    requires ValidDcl(d)
    ensures SemanticFields(EncodeDclSemantic(d), d)
  {
    UnpackSemantic(d.usage, d.usageIndex, d.samplerType);
  }

  lemma {:induction false} DclEncoded(d: DclEntry)
    requires ValidDcl(d)
    ensures DclFields(EncodeDclSemantic(d), EncodeDclRegister(d), d)
  {
    hide PackRegister, KindFields, SemanticFields, EncodeDclSemantic;
    SemanticEncoded(d);
    UnpackKind(d.kind, d.number, false, d.writeMask);
    UnpackMask(d.kind, d.number, false, d.writeMask, 0);
  }

  lemma {:induction false} RelativeRoundTrip(lane: Lane)
    ensures RelativeLane(EncodeRelative(lane)) == lane
  {
    DivMod(EncodeRelative(lane), 0x1_0000, 0xB000 + lane, 0);
    DivMod(0xB000 + lane, 4, 0x2C00, lane);
  }
}

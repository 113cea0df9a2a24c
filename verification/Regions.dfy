/** Memory regions: the alignment chosen by the linker tool (ld/genlink-cmsis.py) and the registers it has to fit
    (src/os/arch/arm/mpu.c). */
module Regions {
  import opened PowerOfTwo
  import opened Algo

  const SPACE: nat := 0x1_0000_0000

  datatype Code = Ok | Invalid | WrongSize | Misaligned

  /** struct MPU_Registers: base register and the size or limit register. */
  datatype Registers = Registers(base: nat, size: nat)

  datatype Outcome = Outcome(code: Code, regs: Registers)

  /** A half-open range of addresses that is accessible; nothing when it is empty. */
  datatype Range = Range(start: nat, end: nat)

  // ------------------------------------------------------------- lengths

  /** Number of bits of n, as int.bit_length gives it; 32 less the leading zeros of a 32-bit word. */
  function BitLength(n: nat): (b: nat)
    ensures n < Pow2(b)
    ensures n > 0 ==> b > 0 && Pow2(b - 1) <= n
  {
    if n == 0 then 0 else BitLength(n / 2) + 1
  }

  /** There is only one length. */
  lemma BitLengthUnique(n: nat, b: nat)
    requires b > 0 && Pow2(b - 1) <= n < Pow2(b)
    ensures BitLength(n) == b
  {
    var c := BitLength(n);
    if c < b {
      PowersApart(c, b - 1, n);
    } else if b < c {
      PowersApart(b, c - 1, n);
    }
  }

  lemma PowersApart(a: nat, b: nat, n: nat)
    requires a <= b
    ensures !(n < Pow2(a) && Pow2(b) <= n)
  {
  }

  // ------------------------------------------------------ low and high bits

  /** The low m bits of x, which the source masks with 2^m - 1. */
  function LowBits(x: nat, m: nat): (r: nat)
    ensures r <= x
    decreases m
  {
    if m == 0 then 0 else x % 2 + 2 * LowBits(x / 2, m - 1)
  }

  /** x with its low m bits cleared. */
  function Clear(x: nat, m: nat): nat
    decreases m
  {
    if m == 0 then x else 2 * Clear(x / 2, m - 1)
  }

  lemma {:induction false} ClearIsRest(x: nat, m: nat)
    ensures Clear(x, m) == x - LowBits(x, m) && LowBits(x, m) < Pow2(m)
    decreases m
  {
    if m > 0 {
      ClearIsRest(x / 2, m - 1);
    }
  }

  lemma {:induction false} ClearIsMultiple(x: nat, m: nat)
    ensures exists q: nat :: Clear(x, m) == Pow2(m) * q
    decreases m
  {
    if m == 0 {
      assert Clear(x, m) == Pow2(m) * x;
    } else {
      ClearIsMultiple(x / 2, m - 1);
      var q: nat :| Clear(x / 2, m - 1) == Pow2(m - 1) * q;
      assert 2 * (Pow2(m - 1) * q) == Pow2(m) * q;
    }
  }

  /** Masking is taking the remainder by the power of two. */
  lemma LowBitsIsMod(x: nat, m: nat)
    ensures LowBits(x, m) == x % Pow2(m)
  {
    ClearIsRest(x, m);
    ClearIsMultiple(x, m);
    var q: nat :| Clear(x, m) == Pow2(m) * q;
    ModShift(LowBits(x, m), q, Pow2(m));
    SmallRemainder(LowBits(x, m), Pow2(m));
  }

  /** Clearing some low bits first does not change what is left after clearing more. */
  lemma {:induction false} ClearMore(x: nat, j: nat, k: nat)
    requires j <= k
    ensures Clear(Clear(x, j), k) == Clear(x, k)
    decreases j
  {
    if j > 0 {
      ClearMore(x / 2, j - 1, k - 1);
    }
  }

  /** What is put in place of cleared bits is cleared again. */
  lemma {:induction false} ClearFilled(x: nat, m: nat, w: nat)
    requires w < Pow2(m)
    ensures Clear(Clear(x, m) + w, m) == Clear(x, m)
    decreases m
  {
    if m > 0 {
      ClearFilled(x / 2, m - 1, w / 2);
      assert (2 * Clear(x / 2, m - 1) + w) / 2 == Clear(x / 2, m - 1) + w / 2;
    }
  }

  // ------------------------------------------------------- the linker tool

  /** MPUAllocation.get_alignment. */
  function Alignment(size: nat): nat {
    if size == 0 then 4
    else
      var align := Pow2(BitLength(size));
      if align < 0x100 then 0x100 else align
  }

  /** The linker's ALIGN of an address. */
  function AlignUp(x: nat, a: nat): nat
    requires a > 0
  {
    if x % a == 0 then x else x - x % a + a
  }

  /** The alignment of a section that is not empty is a power of two of at least 256 and larger than the section. */
  lemma AlignmentIsPower(size: nat) returns (k: nat)
    requires size > 0
    ensures k >= 8 && Alignment(size) == Pow2(k) && size < Pow2(k)
  {
    k := BitLength(size);
    assert Pow2(8) == 0x100 by { PowerEight(); }
    if k < 8 {
      Pow2Monotone(k, 8);
      k := 8;
    } else if k > 8 {
      Pow2Monotone(8, k);
    }
  }

  lemma PowerEight()
    ensures Pow2(5) == 32 && Pow2(8) == 256 && Pow2(31) == 0x8000_0000 && Pow2(32) == SPACE
  {
    assert Pow2(4) == 16;
    assert Pow2(8) == 16 * Pow2(4);
    assert Pow2(16) == 256 * Pow2(8);
    assert Pow2(24) == 256 * Pow2(16);
    assert Pow2(31) == 128 * Pow2(24);
  }

  lemma AlignUpAligned(x: nat, a: nat)
    requires a > 0
    ensures AlignUp(x, a) % a == 0 && x <= AlignUp(x, a) < x + a
  {
    if x % a != 0 {
      assert x - x % a + a == a * (x / a + 1);
      ModShift(0, x / a + 1, a);
    }
  }

  /** Rounding up from inside a block gives the block's end. */
  lemma AlignUpInside(start: nat, size: nat, a: nat)
    requires a > 0 && start % a == 0 && 0 < size < a
    ensures AlignUp(start + size, a) == start + a
  {
    ModAdd(start, size, a);
    SmallRemainder(size, a);
  }

  lemma SmallRemainder(x: nat, a: nat)
    requires x < a
    ensures x % a == x
  {
  }

  /** Where add_library_sections_aligned puts a section's start and end symbol, from the location counter on. */
  function Placed(dot: nat, size: nat): Range {
    var a := Alignment(size);
    var start := AlignUp(dot, a);
    Range(start, AlignUp(start + size, a))
  }

  /** An empty section gets an empty range; any other exactly one naturally aligned block, of a power of two of at least
      256 bytes, that contains the section. */
  lemma OneBlock(dot: nat, size: nat) returns (k: nat)
    ensures size == 0 ==> Placed(dot, size).start == Placed(dot, size).end
    ensures size > 0 ==>
              var r := Placed(dot, size);
              && k >= 8 && r.end == r.start + Pow2(k) && r.start % Pow2(k) == 0
              && dot <= r.start && r.start + size < r.end
  {
    var a := Alignment(size);
    AlignUpAligned(dot, a);
    k := 8;
    if size > 0 {
      k := AlignmentIsPower(size);
      AlignUpInside(AlignUp(dot, a), size, a);
    }
  }

  // ------------------------------------------- ARMv6-M and ARMv7-M registers

  /** XN in bit 28 and AP from bit 24, by access class. */
  const FLAGS: seq<nat> := [0, 0x200_0000, 0x300_0000, 0x1200_0000, 0x1300_0000]

  const CACHEABLE: nat := 0x2_0000
  const VALID: nat := 0x10
  const ENABLE: nat := 1
  const NOTHING: Registers := Registers(0, 0)

  /** The registers of an accepted region: the base with its low five bits replaced, and the size field from bit 1. */
  function Encode(region: nat, base: nat, cls: nat, bits: nat): Registers
    requires cls < |FLAGS|
  {
    Registers(Clear(base, 5) + VALID + region % 16, FLAGS[cls] + CACHEABLE + bits % 32 * 2 + ENABLE)
  }

  /** x shifted right by m bits. */
  function Shifted(x: nat, m: nat): nat
    decreases m
  {
    if m == 0 then x else Shifted(x / 2, m - 1)
  }

  /** The test that a region, counted in blocks of 2^m bytes from the start of its superblock, ends within eight. */
  predicate EighthsFit(offset: nat, size: nat, m: nat) {
    Shifted(offset, m) + Shifted(size, m) <= 7
  }

  /** The sizes for which no shift in the source is by a negative amount. */
  predicate Shiftable(size: nat) {
    size != 1 && size != 5 && size != 7
  }

  lemma OddHasFour(size: nat)
    requires size >= 2 && Shiftable(size)
    ensures BitLength(size) >= 2
    ensures LowBits(size, BitLength(size) - 2) != 0 ==> BitLength(size) >= 4
  {
    if size < 8 {
      assert BitLength(2) == 2 && BitLength(3) == 2 && BitLength(4) == 3 && BitLength(6) == 3;
    }
  }

  /** mpu_configure_region. */
  function Configure(region: nat, base: nat, size: nat, cls: nat): Outcome
    requires base < SPACE && size < SPACE && Shiftable(size)
  {
    if cls >= |FLAGS| then Outcome(Invalid, NOTHING)
    else if size == 0 then Outcome(Ok, Registers(Clear(base, 5) + region % 16, 0))
    else
      OddHasFour(size);
      var bits := BitLength(size) - 2;
      if LowBits(size, bits) != 0 then
        if LowBits(size, bits - 2) != 0 then Outcome(WrongSize, NOTHING)
        else if LowBits(base, bits - 2) != 0 then Outcome(Misaligned, NOTHING)
        else if !EighthsFit(LowBits(base, bits + 1), size, bits - 2) then Outcome(Misaligned, NOTHING)
        else Outcome(Ok, Encode(region, base, cls, bits + 1))
      else if LowBits(base, bits) != 0 then Outcome(Misaligned, NOTHING)
      else Outcome(Ok, Encode(region, base, cls, bits))
  }

  /** The addresses the registers give access to: the size is a power of two, and address bits below it are ignored. */
  function Decode(r: Registers): Range {
    if r.size % 2 == 0 then Range(0, 0)
    else
      var k := r.size / 2 % 32 + 1;
      var base := Clear(Clear(r.base, 5), k);
      Range(base, base + Pow2(k))
  }

  function Access(r: Registers): nat {
    r.size / 0x100_0000
  }

  /** The branch for sizes that are neither a power of two nor one and a half of one never accepts: it measures the
      region in eighths of a block that is smaller than the region. */
  lemma OddSizesRefused(region: nat, base: nat, size: nat, cls: nat)
    requires base < SPACE && 2 <= size < SPACE && Shiftable(size)
    requires BitLength(size) >= 2 && LowBits(size, BitLength(size) - 2) != 0
    ensures Configure(region, base, size, cls).code != Ok
  {
    OddHasFour(size);
    var k := BitLength(size) - 1;
    assert Pow2(k) == 2 * Pow2(k - 1) && Pow2(k - 1) == 2 * Pow2(k - 2) && Pow2(k - 2) == 2 * Pow2(k - 3);
    ShiftedLarge(size, k - 3);
  }

  lemma {:induction false} ShiftedLarge(x: nat, m: nat)
    requires x >= 8 * Pow2(m)
    ensures Shifted(x, m) >= 8
    decreases m
  {
    if m > 0 {
      ShiftedLarge(x / 2, m - 1);
    }
  }

  /** A multiple of p from 2p up to 4p is 2p or 3p. */
  lemma TwoOrThree(size: nat, p: nat)
    requires p > 0 && 2 * p <= size < 4 * p
    ensures size % p == 0 <==> size == 2 * p || size == 3 * p
  {
  }

  /** What is accepted: a valid class, and an empty region or one of a power of two or one and a half of it, whose base is
      a multiple of half that power. */
  lemma AcceptedIff(region: nat, base: nat, size: nat, cls: nat)
    requires base < SPACE && size < SPACE && Shiftable(size)
    ensures size > 0 ==> BitLength(size) >= 2
    ensures Configure(region, base, size, cls).code == Ok <==>
              && cls < |FLAGS|
              && (size == 0 ||
                  var half := Pow2(BitLength(size) - 2);
                  (size == 2 * half || size == 3 * half) && base % half == 0)
  {
    if size > 0 {
      OddHasFour(size);
      var bits := BitLength(size) - 2;
      assert Pow2(bits + 1) == 2 * Pow2(bits) && Pow2(bits + 2) == 2 * Pow2(bits + 1);
      TwoOrThree(size, Pow2(bits));
      LowBitsIsMod(size, bits);
      LowBitsIsMod(base, bits);
      if LowBits(size, bits) != 0 {
        OddSizesRefused(region, base, size, cls);
      }
    }
  }

  lemma EncodeFields(region: nat, base: nat, cls: nat, bits: nat)
    requires cls < |FLAGS| && bits < 32
    ensures var r := Encode(region, base, cls, bits);
            && r.size % 2 == 1 && r.size / 2 % 32 == bits
            && Clear(r.base, 5) == Clear(base, 5)
            && Access(r) == FLAGS[cls] / 0x100_0000
  {
    PowerEight();
    ClearFilled(base, 5, VALID + region % 16);
    FlagsAreHigh(cls);
    SizeFields(FLAGS[cls] / 0x100_0000, bits);
  }

  lemma FlagsAreHigh(cls: nat)
    requires cls < |FLAGS|
    ensures FLAGS[cls] == FLAGS[cls] / 0x100_0000 * 0x100_0000
  {
  }

  lemma SizeFields(access: nat, bits: nat)
    requires bits < 32
    ensures var w := access * 0x100_0000 + CACHEABLE + bits % 32 * 2 + ENABLE;
            w % 2 == 1 && w / 2 % 32 == bits && w / 0x100_0000 == access
  {
    var half := access * 0x80_0000 + 0x1_0000 + bits;
    var w := access * 0x100_0000 + CACHEABLE + bits % 32 * 2 + ENABLE;
    assert w == 2 * half + 1;
    assert half == 32 * (access * 0x4_0000 + 0x800) + bits;
  }

  lemma DecodeEncode(region: nat, base: nat, cls: nat, bits: nat)
    requires cls < |FLAGS| && 4 <= bits < 32
    ensures Decode(Encode(region, base, cls, bits)) == Range(Clear(base, bits + 1), Clear(base, bits + 1) + Pow2(bits + 1))
  {
    EncodeFields(region, base, cls, bits);
    ClearMore(base, 5, bits + 1);
  }

  lemma LengthBounds(size: nat)
    requires 0 < size < SPACE
    ensures BitLength(size) <= 32 && (6 <= BitLength(size) <==> size >= 32)
  {
    PowerEight();
    if BitLength(size) <= 5 && size >= 32 {
      PowersApart(BitLength(size), 5, size);
    }
    if BitLength(size) > 5 && size < 32 {
      PowersApart(5, BitLength(size) - 1, size);
    }
    if BitLength(size) > 32 {
      PowersApart(32, BitLength(size) - 1, size);
    }
  }

  lemma SimpleSize(region: nat, base: nat, size: nat, cls: nat)
    requires base < SPACE && 2 <= size < SPACE && Shiftable(size) && cls < |FLAGS|
    requires BitLength(size) >= 2 && LowBits(size, BitLength(size) - 2) == 0
    ensures var bits := BitLength(size) - 2;
            Configure(region, base, size, cls)
            == if LowBits(base, bits) != 0 then Outcome(Misaligned, NOTHING) else Outcome(Ok, Encode(region, base, cls, bits))
  {
  }

  lemma AcceptedRegisters(region: nat, base: nat, size: nat, cls: nat)
    requires base < SPACE && 2 <= size < SPACE && Shiftable(size) && Configure(region, base, size, cls).code == Ok
    ensures cls < |FLAGS| && BitLength(size) >= 2
    ensures Configure(region, base, size, cls).regs == Encode(region, base, cls, BitLength(size) - 2)
  {
    OddHasFour(size);
    if LowBits(size, BitLength(size) - 2) != 0 {
      OddSizesRefused(region, base, size, cls);
    } else {
      SimpleSize(region, base, size, cls);
    }
  }

  /** The size field of an accepted region is one the architecture defines, which starts at 4 for 32 bytes, if and only if
      the region has 32 bytes: the source accepts smaller ones too. */
  lemma LegalSizeIff(region: nat, base: nat, size: nat, cls: nat)
    requires base < SPACE && 2 <= size < SPACE && Shiftable(size) && Configure(region, base, size, cls).code == Ok
    ensures 4 <= Configure(region, base, size, cls).regs.size / 2 % 32 <==> size >= 32
  {
    AcceptedRegisters(region, base, size, cls);
    LengthBounds(size);
    EncodeFields(region, base, cls, BitLength(size) - 2);
  }

  lemma SixteenBytesAreAccepted(region: nat, cls: nat)
    requires cls < |FLAGS|
    ensures Configure(region, 0, 16, cls).code == Ok && Configure(region, 0, 16, cls).regs.size / 2 % 32 == 3
  {
    assert Pow2(3) == 8 && Pow2(4) == 16 && Pow2(5) == 32;
    BitLengthUnique(16, 5);
    AcceptedIff(region, 0, 16, cls);
    AcceptedRegisters(region, 0, 16, cls);
    EncodeFields(region, 0, cls, 3);
  }

  /** The registers of an accepted region decode to the block of its power of two that holds the base, with the access of
      its class. */
  lemma DecodesToBlock(region: nat, base: nat, size: nat, cls: nat)
    requires base < SPACE && 32 <= size < SPACE && Configure(region, base, size, cls).code == Ok
    ensures cls < |FLAGS| && BitLength(size) > 0
    ensures var r, k := Configure(region, base, size, cls).regs, BitLength(size) - 1;
            && Decode(r) == Range(Clear(base, k), Clear(base, k) + Pow2(k))
            && Access(r) == FLAGS[cls] / 0x100_0000
  {
    AcceptedRegisters(region, base, size, cls);
    LengthBounds(size);
    EncodeFields(region, base, cls, BitLength(size) - 2);
    DecodeEncode(region, base, cls, BitLength(size) - 2);
  }

  /** An accepted region is exactly the range that was asked for if and only if its size is a power of two and its base a
      multiple of that size: the source tests the base against half the size, and admits one and a half powers. */
  lemma ExactIff(region: nat, base: nat, size: nat, cls: nat)
    requires base < SPACE && 32 <= size < SPACE && Configure(region, base, size, cls).code == Ok
    ensures Decode(Configure(region, base, size, cls).regs) == Range(base, base + size) <==> IsPow2(size) && base % size == 0
  {
    DecodesToBlock(region, base, size, cls);
    BlockIsRange(base, size);
  }

  lemma BlockIsRange(base: nat, size: nat)
    requires size > 0
    ensures var k := BitLength(size) - 1;
            Clear(base, k) == base && Pow2(k) == size <==> IsPow2(size) && base % size == 0
  {
    var k := BitLength(size) - 1;
    ClearIsRest(base, k);
    LowBitsIsMod(base, k);
    if IsPow2(size) {
      var j: nat :| size == Pow2(j);
      assert Pow2(j + 1) == 2 * Pow2(j);
      BitLengthUnique(size, j + 1);
    }
  }

  /** A base at an odd multiple of half the size is accepted, and the registers open the block around it instead. */
  lemma HalfAlignedIsAccepted(region: nat, cls: nat)
    requires cls < |FLAGS|
    ensures Configure(region, 32, 64, cls).code == Ok && Decode(Configure(region, 32, 64, cls).regs) == Range(0, 64)
  {
    assert Pow2(5) == 32 && Pow2(6) == 64 && Pow2(7) == 128;
    BitLengthUnique(64, 7);
    AcceptedIff(region, 32, 64, cls);
    DecodesToBlock(region, 32, 64, cls);
    LowBitsIsMod(32, 6);
    ClearIsRest(32, 6);
  }

  /** 96 bytes are one and a half times 64: they are accepted, and only the first 64 are opened. */
  lemma OneAndAHalfIsAccepted(region: nat, cls: nat)
    requires cls < |FLAGS|
    ensures Configure(region, 0, 96, cls).code == Ok && Decode(Configure(region, 0, 96, cls).regs) == Range(0, 64)
  {
    assert Pow2(5) == 32 && Pow2(6) == 64 && Pow2(7) == 128;
    BitLengthUnique(96, 7);
    AcceptedIff(region, 0, 96, cls);
    DecodesToBlock(region, 0, 96, cls);
    ClearIsRest(0, 6);
  }

  /** What the linker tool lays out is accepted and decoded exactly, for every section that fits the address space. */
  lemma LaidOutIsExact(dot: nat, size: nat, region: nat, cls: nat)
    requires cls < |FLAGS| && size > 0 && Placed(dot, size).end <= SPACE && Placed(dot, size).end - Placed(dot, size).start < SPACE
    ensures var r := Placed(dot, size);
            && 256 <= r.end - r.start < SPACE
            && Configure(region, r.start, r.end - r.start, cls).code == Ok
            && Decode(Configure(region, r.start, r.end - r.start, cls).regs) == r
  {
    var k := OneBlock(dot, size);
    var r, p := Placed(dot, size), Pow2(k);
    PowerEight();
    if k > 8 { Pow2Monotone(8, k); }
    assert Pow2(k + 1) == 2 * p;
    BitLengthUnique(p, k + 1);
    HalfDivides(r.start, k);
    AcceptedIff(region, r.start, p, cls);
    ExactIff(region, r.start, p, cls);
  }

  lemma HalfDivides(x: nat, k: nat)
    requires k > 0 && x % Pow2(k) == 0
    ensures x % Pow2(k - 1) == 0
  {
    var p, q := Pow2(k - 1), x / Pow2(k);
    assert x == Pow2(k) * q;
    assert x == p * (2 * q);
    ModShift(0, 2 * q, p);
  }

  /** mpu_configure_region for ARMv6-M and ARMv7-M. */
  method ConfigureRegion(region: nat, base: nat, size: nat, cls: nat) returns (code: Code, regs: Registers)
    requires base < SPACE && size < SPACE && Shiftable(size)
    ensures Outcome(code, regs) == Configure(region, base, size, cls)
    ensures code == Ok && size >= 32 && IsPow2(size) && base % size == 0 ==> Decode(regs) == Range(base, base + size)
  {
    regs := NOTHING;
    if cls >= |FLAGS| {
      return Invalid, regs;
    }
    if size == 0 {
      return Ok, Registers(Clear(base, 5) + region % 16, 0);
    }
    OddHasFour(size);
    var bits := BitLength(size) - 2;
    if LowBits(size, bits) != 0 {
      bits := bits + 1;
      if LowBits(size, bits - 3) != 0 {
        return WrongSize, regs;
      }
      if LowBits(base, bits - 3) != 0 {
        return Misaligned, regs;
      }
      var offset, eighths := Shifted(LowBits(base, bits), bits - 3), Shifted(size, bits - 3);
      if offset + eighths > 7 {
        return Misaligned, regs;
      }
    } else if LowBits(base, bits) != 0 {
      return Misaligned, regs;
    }
    code, regs := Ok, Encode(region, base, cls, bits);
    if size >= 32 {
      ExactIff(region, base, size, cls);
    }
  }

  // --------------------------------------------------------- ARMv8-M registers

  /** Access and shareability of a class, in the low five bits of the base register, and its memory attributes. */
  const RBAR_FLAGS: seq<nat> := [0, 0x6, 0x2, 0x7, 0x3]
  const ATTRIBUTES: seq<nat> := [0, 2, 2, 2, 2]

  /** mpu_configure_region for ARMv8-M: base and last address, in units of 32 bytes. */
  function ConfigureLimit(base: nat, size: nat, cls: nat): Outcome
    requires base < SPACE && size < SPACE
  {
    if cls >= |RBAR_FLAGS| then Outcome(Invalid, NOTHING)
    else if size == 0 then Outcome(Ok, NOTHING)
    else if base % 32 != 0 then Outcome(Misaligned, NOTHING)
    else
      var limit := (base + size - 1) % SPACE;
      if limit < base || limit % 32 != 31 then Outcome(WrongSize, NOTHING)
      else Outcome(Ok, Registers(base / 32 * 32 + RBAR_FLAGS[cls], limit / 32 * 32 + ATTRIBUTES[cls] * 2 + ENABLE))
  }

  function DecodeLimit(r: Registers): Range {
    if r.size % 2 == 0 then Range(0, 0) else Range(r.base / 32 * 32, r.size / 32 * 32 + 32)
  }

  /** A region is accepted exactly when it is empty or a whole number of 32-byte units inside the address space, and what
      is accepted is decoded exactly. */
  lemma LimitIsExact(base: nat, size: nat, cls: nat)
    requires base < SPACE && 0 < size < SPACE
    ensures ConfigureLimit(base, size, cls).code == Ok <==>
              cls < |RBAR_FLAGS| && base % 32 == 0 && size % 32 == 0 && base + size <= SPACE
    ensures ConfigureLimit(base, size, cls).code == Ok ==>
              var r := ConfigureLimit(base, size, cls).regs;
              DecodeLimit(r) == Range(base, base + size) && r.base % 32 == RBAR_FLAGS[cls] && r.size % 32 / 2 == ATTRIBUTES[cls]
  {
    if base + size <= SPACE {
      assert (base + size - 1) % SPACE == base + size - 1;
    } else {
      assert (base + size - 1) % SPACE == base + size - 1 - SPACE;
    }
  }

  /** What the linker tool lays out is exact on ARMv8-M too. */
  lemma LaidOutIsExactLimit(dot: nat, size: nat, cls: nat)
    requires cls < |RBAR_FLAGS| && size > 0 && Placed(dot, size).end <= SPACE && Placed(dot, size).end - Placed(dot, size).start < SPACE
    ensures var r := Placed(dot, size);
            && ConfigureLimit(r.start, r.end - r.start, cls).code == Ok
            && DecodeLimit(ConfigureLimit(r.start, r.end - r.start, cls).regs) == r
  {
    var k := OneBlock(dot, size);
    DivisibleBy32(Placed(dot, size).start, k);
    DivisibleBy32(Pow2(k), k);
    LimitIsExact(Placed(dot, size).start, Pow2(k), cls);
  }

  lemma DivisibleBy32(x: nat, k: nat)
    requires k >= 5 && x % Pow2(k) == 0
    ensures x % 32 == 0
    decreases k
  {
    if k == 5 {
      PowerEight();
    } else {
      HalfDivides(x, k);
      DivisibleBy32(x, k - 1);
    }
  }
}

/** The register overlay: four 16-bit register pairs (the Regs16 view) that are
    at the same time eight 8-bit registers (the Regs8 view), because a ctypes
    Union lays both structures over the same eight bytes.

    The storage is the four 16-bit words. The 8-bit view is not a second copy:
    an 8-bit register is the byte at its Regs8 field offset in the
    little-endian image of those words, and writing it rewrites that byte of
    the image. ctypes lays structures out in the host's native byte order, so
    this is what a Union field access does on a little-endian host. */
module Registers {
  import opened Ints

  /** The fields of Regs16, in declaration order. */
  datatype Pair = AF | BC | DE | HL

  /** The fields of Regs8, in declaration order: F at offset 0, A at 1, C at 2, ... */
  datatype Reg8 = F | A | C | B | E | D | L | H

  /** The storage shared by both views. */
  datatype Regs = Regs(af: Word, bc: Word, de: Word, hl: Word)

  function Get16(r: Regs, p: Pair): Word
  {
    match p
    case AF => r.af
    case BC => r.bc
    case DE => r.de
    case HL => r.hl
  }

  /** Assignment through the 16-bit view (`reg16.AF = v`). */
  function Set16(r: Regs, p: Pair, v: Word): (r': Regs)
    ensures Get16(r', p) == v
    ensures forall q :: q != p ==> Get16(r', q) == Get16(r, q)
  {
    match p
    case AF => r.(af := v)
    case BC => r.(bc := v)
    case DE => r.(de := v)
    case HL => r.(hl := v)
  }

  /** Byte offset of an 8-bit register inside the union (its Regs8 field index). */
  function Offset(x: Reg8): (k: nat)
    ensures k < 8
  {
    match x
    case F => 0
    case A => 1
    case C => 2
    case B => 3
    case E => 4
    case D => 5
    case L => 6
    case H => 7
  }

  /** The register pair an 8-bit register is half of. */
  function PairOf(x: Reg8): Pair
  {
    match x
    case F => AF
    case A => AF
    case C => BC
    case B => BC
    case E => DE
    case D => DE
    case L => HL
    case H => HL
  }

  /** The high (first-named) half of a pair: A, B, D, H. */
  function HighOf(p: Pair): (x: Reg8)
    ensures PairOf(x) == p
  {
    match p
    case AF => A
    case BC => B
    case DE => D
    case HL => H
  }

  /** The low (second-named) half of a pair: F, C, E, L. */
  function LowOf(p: Pair): (x: Reg8)
    ensures PairOf(x) == p && x != HighOf(p)
  {
    match p
    case AF => F
    case BC => C
    case DE => E
    case HL => L
  }

  /** A 16-bit word as it lies in memory on a little-endian host: low byte first. */
  function LittleEndian(w: Word): seq<Byte>
  {
    [w % 0x100, w / 0x100]
  }

  /** The word whose little-endian bytes are lo, hi. */
  function FromLittleEndian(lo: Byte, hi: Byte): Word
  {
    lo as int + 0x100 * hi as int
  }

  /** The eight bytes of the union, Regs16 fields laid out in declaration order. */
  function Image(r: Regs): (bytes: seq<Byte>)
    ensures |bytes| == 8
  {
    LittleEndian(r.af) + LittleEndian(r.bc) + LittleEndian(r.de) + LittleEndian(r.hl)
  }

  /** Reads the four Regs16 fields back out of eight bytes of storage. */
  function FromImage(bytes: seq<Byte>): Regs
    requires |bytes| == 8
  {
    Regs(FromLittleEndian(bytes[0], bytes[1]), FromLittleEndian(bytes[2], bytes[3]),
         FromLittleEndian(bytes[4], bytes[5]), FromLittleEndian(bytes[6], bytes[7]))
  }

  /** Read through the 8-bit view (`reg8.A`): the byte at the register's offset. */
  function Get8(r: Regs, x: Reg8): Byte
  {
    Image(r)[Offset(x)]
  }

  /** Assignment through the 8-bit view (`reg8.A = b`): only that byte of the
      storage changes. */
  function Set8(r: Regs, x: Reg8, b: Byte): Regs
  {
    FromImage(Image(r)[Offset(x) := b])
  }

  lemma LittleEndianRoundTrip(w: Word)
    ensures FromLittleEndian(LittleEndian(w)[0], LittleEndian(w)[1]) == w
  {
  }

  lemma WordRoundTrip(lo: Byte, hi: Byte)
    ensures LittleEndian(FromLittleEndian(lo, hi)) == [lo, hi]
  {
    DivModUnique(FromLittleEndian(lo, hi), 0x100, hi, lo);
  }

  /** Reading the storage back from its image gives the same registers. */
  lemma ImageRoundTrip(r: Regs)
    ensures FromImage(Image(r)) == r
  {
    LittleEndianRoundTrip(r.af);
    LittleEndianRoundTrip(r.bc);
    LittleEndianRoundTrip(r.de);
    LittleEndianRoundTrip(r.hl);
  }

  /** Every eight-byte pattern is the image of exactly the registers read from it. */
  lemma FromImageRoundTrip(bytes: seq<Byte>)
    requires |bytes| == 8
    ensures Image(FromImage(bytes)) == bytes
  {
    WordRoundTrip(bytes[0], bytes[1]);
    WordRoundTrip(bytes[2], bytes[3]);
    WordRoundTrip(bytes[4], bytes[5]);
    WordRoundTrip(bytes[6], bytes[7]);
  }

  lemma OffsetInjective(x: Reg8, y: Reg8)
    ensures Offset(x) == Offset(y) <==> x == y
  {
  }

  /** The hardware byte order: a pair's value is its high register times 256
      plus its low register, so the 8-bit view reconstructs the 16-bit value. */
  lemma PairFromHalves(r: Regs, p: Pair)
    ensures Get16(r, p) == 0x100 * Get8(r, HighOf(p)) + Get8(r, LowOf(p))
  {
    LittleEndianRoundTrip(Get16(r, p));
  }

  /** Writing v through the 16-bit view makes the high register `v >> 8` and
      the low register `v & 0xFF`, and leaves the other six 8-bit registers alone. */
  lemma Set16Halves(r: Regs, p: Pair, v: Word)
    ensures Get8(Set16(r, p, v), HighOf(p)) == Shr(v, 8)
    ensures Get8(Set16(r, p, v), LowOf(p)) == And(v, 0xFF)
    ensures forall y :: PairOf(y) != p ==> Get8(Set16(r, p, v), y) == Get8(r, y)
  {
    ShrIsDiv(v, 8);
    AndLowMask(v, 8);
    assert Pow2(8) == 0x100;
  }

  /** Writing b through the 8-bit view: that register reads b, every other
      8-bit register keeps its value. */
  lemma Set8Frame(r: Regs, x: Reg8, b: Byte)
    ensures Get8(Set8(r, x, b), x) == b
    ensures forall y :: y != x ==> Get8(Set8(r, x, b), y) == Get8(r, y)
  {
    FromImageRoundTrip(Image(r)[Offset(x) := b]);
    forall y | y != x
      ensures Get8(Set8(r, x, b), y) == Get8(r, y)
    {
      OffsetInjective(x, y);
    }
  }

  /** Writing b through the 8-bit view is visible at once through the 16-bit
      view: only the half that was written changes, and no other pair changes. */
  lemma Set8Pair(r: Regs, x: Reg8, b: Byte)
    ensures Get16(Set8(r, x, b), PairOf(x)) ==
      if x == HighOf(PairOf(x)) then 0x100 * b + Get8(r, LowOf(PairOf(x)))
      else 0x100 * Get8(r, HighOf(PairOf(x))) + b
    ensures forall q :: q != PairOf(x) ==> Get16(Set8(r, x, b), q) == Get16(r, q)
  {
    var p := PairOf(x);
    Set8Frame(r, x, b);
    PairFromHalves(Set8(r, x, b), p);
    forall q | q != p
      ensures Get16(Set8(r, x, b), q) == Get16(r, q)
    {
      PairFromHalves(Set8(r, x, b), q);
      PairFromHalves(r, q);
    }
  }

  /** Writing the high and then the low byte of v through the 8-bit view has
      the same effect as writing v through the 16-bit view. */
  lemma SetHalvesIsSet16(r: Regs, p: Pair, v: Word)
    ensures Set8(Set8(r, HighOf(p), v / 0x100), LowOf(p), v % 0x100) == Set16(r, p, v)
  {
    var r1 := Set8(r, HighOf(p), v / 0x100);
    var r2 := Set8(r1, LowOf(p), v % 0x100);
    Set8Pair(r, HighOf(p), v / 0x100);
    Set8Pair(r1, LowOf(p), v % 0x100);
    Set8Frame(r, HighOf(p), v / 0x100);
    Set16Equal(r2, Set16(r, p, v));
  }

  /** Two register files that agree on all four pairs are equal. */
  lemma Set16Equal(r: Regs, s: Regs)
    requires forall p :: Get16(r, p) == Get16(s, p)
    ensures r == s
  {
    assert Get16(r, AF) == Get16(s, AF) && Get16(r, BC) == Get16(s, BC);
    assert Get16(r, DE) == Get16(s, DE) && Get16(r, HL) == Get16(s, HL);
  }
}

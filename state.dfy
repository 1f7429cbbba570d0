/** The state exchanged between the tester and the CPU under test: the
    architectural registers and flags, plus the log of memory writes made by
    the one instruction just executed. */
module GbitState {
  import opened Ints
  import opened Registers

  /** The only access kind the log records. */
  const TYPE_WRITE := 1

  /** Number of entries in the state's mem_accesses array. */
  const MEM_ACCESS_CAPACITY := 16

  /** One logged access; `kind` is a C int. */
  datatype MemAccess = MemAccess(kind: int, addr: Word, val: Byte)

  /** The entry that records a write of val to addr. */
  function WriteAccess(addr: Word, val: Byte): MemAccess
  {
    MemAccess(TYPE_WRITE, addr, val)
  }

  /** The entries that record the writes ws, in the order they were made. */
  function Accesses(ws: seq<(Word, Byte)>): (log: seq<MemAccess>)
    ensures |log| == |ws|
    ensures forall i :: 0 <= i < |ws| ==> log[i] == WriteAccess(ws[i].0, ws[i].1)
  {
    if ws == [] then [] else [WriteAccess(ws[0].0, ws[0].1)] + Accesses(ws[1..])
  }

  /** The (address, value) pairs a log records: the inverse of Accesses. */
  function WritesOf(log: seq<MemAccess>): (ws: seq<(Word, Byte)>)
    ensures |ws| == |log|
    ensures forall i :: 0 <= i < |log| ==> ws[i] == (log[i].addr, log[i].val)
  {
    if log == [] then [] else [(log[0].addr, log[0].val)] + WritesOf(log[1..])
  }

  /** A log built from writes reads back as exactly those writes, and every
      entry of it is tagged as a write. */
  lemma AccessesRoundTrip(ws: seq<(Word, Byte)>)
    ensures WritesOf(Accesses(ws)) == ws
    ensures forall i :: 0 <= i < |ws| ==> Accesses(ws)[i].kind == TYPE_WRITE
  {
  }

  /** The architectural part of the state: the register overlay, SP, PC and
      the halted and IME flags. */
  datatype CpuState = CpuState(regs: Regs, sp: Word, pc: Word, halted: bool,
                               interruptsMasterEnabled: bool)

  /** The caller-supplied state record that the adapters fill in. */
  class StateStruct {
    var regs: Regs
    var sp: Word
    var pc: Word
    var halted: bool
    var interruptsMasterEnabled: bool
    var numMemAccesses: int
    const memAccesses: array<MemAccess>

    ghost predicate Valid()
      reads this
    {
      memAccesses.Length == MEM_ACCESS_CAPACITY
    }

    /** The architectural fields of the record. */
    function Cpu(): CpuState
      reads this
    {
      CpuState(regs, sp, pc, halted, interruptsMasterEnabled)
    }

    /** The writes the record reports: the first numMemAccesses entries. */
    function ReportedLog(): seq<MemAccess>
      reads this, memAccesses
      requires Valid() && 0 <= numMemAccesses <= MEM_ACCESS_CAPACITY
    {
      memAccesses[..numMemAccesses]
    }

    /** A fresh record is zero-filled, as a ctypes Structure is. */
    constructor ()
      ensures Valid() && fresh(memAccesses)
      ensures Cpu() == CpuState(Regs(0, 0, 0, 0), 0, 0, false, false)
      ensures numMemAccesses == 0
      ensures forall i :: 0 <= i < MEM_ACCESS_CAPACITY ==> memAccesses[i] == MemAccess(0, 0, 0)
    {
      regs := Regs(0, 0, 0, 0);
      sp, pc := 0, 0;
      halted, interruptsMasterEnabled := false, false;
      numMemAccesses := 0;
      memAccesses := new MemAccess[MEM_ACCESS_CAPACITY](_ => MemAccess(0, 0, 0));
    }
  }

  /** `bit(val, bitpos)`: `(val >> bitpos) & 1`, the bit of val at bitpos. */
  function Bit(val: nat, pos: nat): (b: nat)
    ensures b == (val / Pow2(pos)) % 2
  {
    ShrIsDiv(val, pos);
    AndLowMask(Shr(val, pos), 1);
    And(Shr(val, pos), 1)
  }

  /** The value of the lowest n bits of val, summed from what Bit extracts. */
  function BitsValue(val: nat, n: nat): nat
  {
    if n == 0 then 0 else BitsValue(val, n - 1) + Bit(val, n - 1) * Pow2(n - 1)
  }

  /** The remainder by 2m is the remainder by m plus the next bit's weight. */
  lemma ModNextBit(x: nat, m: nat)
    requires m >= 1
    ensures x % (2 * m) == x % m + ((x / m) % 2) * m
  {
    var q, r := x / m, x % m;
    assert x == (q / 2) * (2 * m) + ((q % 2) * m + r) by {
      assert x == q * m + r;
      assert q == 2 * (q / 2) + q % 2;
    }
    DivModUnique(x, 2 * m, q / 2, (q % 2) * m + r);
  }

  /** Bit loses nothing: the bits it extracts rebuild the value. */
  lemma {:induction false} BitsRebuildValue(val: nat, n: nat)
    ensures BitsValue(val, n) == val % Pow2(n)
  {
    if n == 0 {
      assert Pow2(n) == 1;
    } else {
      BitsRebuildValue(val, n - 1);
      ModNextBit(val, Pow2(n - 1));
    }
  }

  /** The Z, N, H and C digits that the state's text form prints: bits 7, 6,
      5 and 4 of F. */
  function FlagDigits(r: Regs): (d: seq<nat>)
    ensures |d| == 4 && forall i :: 0 <= i < 4 ==> d[i] <= 1
  {
    var f := Get8(r, F);
    [Bit(f, 7), Bit(f, 6), Bit(f, 5), Bit(f, 4)]
  }

  /** Read as a binary number, the ZNHC digits are the high nibble of F
      (`F >> 4`): they show every flag bit F holds above bit 3. */
  lemma FlagDigitsAreHighNibble(r: Regs)
    ensures var d := FlagDigits(r);
      8 * d[0] + 4 * d[1] + 2 * d[2] + d[3] == Shr(Get8(r, F), 4)
  {
    HighNibbleBits(Get8(r, F));
  }

  /** The four bits above bit 3, read as a number, are `f >> 4`. */
  lemma HighNibbleBits(f: Byte)
    ensures 8 * Bit(f, 7) + 4 * Bit(f, 6) + 2 * Bit(f, 5) + Bit(f, 4) == Shr(f, 4)
  {
    var nibble := 8 * Bit(f, 7) + 4 * Bit(f, 6) + 2 * Bit(f, 5) + Bit(f, 4);
    ByteBits(f);
    NibbleOfSplit(f, nibble, BitsValue(f, 4));
  }

  /** One more bit: the value of the lowest n+1 bits adds bit n at weight w = 2^n. */
  lemma BitsValueStep(val: nat, n: nat, w: nat)
    requires w == Pow2(n)
    ensures BitsValue(val, n + 1) == BitsValue(val, n) + Bit(val, n) * w
  {
  }

  /** The value of a byte's eight bits, split into bits 0..3 and bits 4..7. */
  lemma UpperBitsSplit(f: Byte)
    ensures BitsValue(f, 8) ==
      BitsValue(f, 4) + 16 * (8 * Bit(f, 7) + 4 * Bit(f, 6) + 2 * Bit(f, 5) + Bit(f, 4))
  {
    assert Pow2(4) == 16 && Pow2(5) == 32 && Pow2(6) == 64 && Pow2(7) == 128;
    BitsValueStep(f, 4, 16);
    BitsValueStep(f, 5, 32);
    BitsValueStep(f, 6, 64);
    BitsValueStep(f, 7, 128);
  }

  /** The lowest four bits of a byte rebuild its low nibble, and all eight
      rebuild the byte. */
  lemma ByteBitsRebuild(f: Byte)
    ensures BitsValue(f, 4) == f % 16 && BitsValue(f, 8) == f
  {
    BitsRebuildValue(f, 4);
    BitsRebuildValue(f, 8);
    assert Pow2(4) == 16 && Pow2(8) == 256;
  }

  lemma ByteBits(f: Byte)
    ensures f == BitsValue(f, 4) + 16 * (8 * Bit(f, 7) + 4 * Bit(f, 6) + 2 * Bit(f, 5) + Bit(f, 4))
    ensures BitsValue(f, 4) < 16
  {
    UpperBitsSplit(f);
    ByteBitsRebuild(f);
  }

  lemma NibbleOfSplit(f: Byte, nibble: nat, low: nat)
    requires low < 16 && f == low + 16 * nibble
    ensures Shr(f, 4) == nibble
  {
    DivModUnique(f, 16, nibble, low);
    ShrIsDiv(f, 4);
    assert Pow2(4) == 16;
  }
}

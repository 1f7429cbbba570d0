/** The Python adapter: the GBIT object that sits between the tester and a
    CPU written in Python. It maps the instruction bytes read-only, keeps the
    list of memory writes of the current step, and copies the CPU's state and
    that list into the tester's state record. */
module Gbit {
  import opened Ints
  import opened Registers
  import opened GbitState
  import opened Window

  /** The entry `_get_state_cb` stores for a logged write: the Python ints
      are truncated by the c_uint16 address field and the c_uint8 value field. */
  function EntryOf(w: (int, int)): (m: MemAccess)
    ensures m.kind == TYPE_WRITE
    ensures (m.addr - w.0) % 0x1_0000 == 0 && (m.val - w.1) % 0x100 == 0
    ensures 0 <= w.0 < 0x1_0000 && 0 <= w.1 < 0x100 ==> m == WriteAccess(w.0, w.1)
  {
    WriteAccess(U16(w.0), U8(w.1))
  }

  class Gbit {
    /** The writes of the current step, oldest first: `mem_writes`. */
    var memWrites: seq<(int, int)>
    /** `instruction_mem_size` and the bytes behind `instruction_mem_ptr`. */
    var instructionMemSize: nat
    var instructionMem: seq<Byte>

    ghost predicate Valid()
      reads this
    {
      instructionMemSize <= |instructionMem|
    }

    /** A new adapter has an empty window and an empty write list. */
    constructor ()
      ensures Valid()
      ensures memWrites == [] && instructionMemSize == 0 && instructionMem == []
    {
      memWrites := [];
      instructionMemSize := 0;
      instructionMem := [];
    }

    /** `mem_write`: the CPU under test reports a store; it is appended. */
    method MemWrite(address: int, value: int)
      modifies this`memWrites
      ensures memWrites == old(memWrites) + [(address, value)]
    {
      memWrites := memWrites + [(address, value)];
    }

    /** `mem_read`: a load by the CPU under test. */
    function MemRead(address: nat): (r: Byte)
      reads this
      requires Valid()
      ensures address < instructionMemSize ==> r == instructionMem[address]
      ensures instructionMemSize <= address ==> r == SENTINEL
    {
      Fetch(instructionMem, instructionMemSize, address)
    }

    /** `_init_cb`: records the window that every later read consults. The
        write list is not touched. */
    method Init(size: nat, mem: seq<Byte>)
      requires size <= |mem|
      modifies this`instructionMemSize, this`instructionMem
      ensures Valid() && instructionMemSize == size && instructionMem == mem
      ensures forall a: nat :: MemRead(a) == Fetch(mem, size, a)
    {
      instructionMemSize := size;
      instructionMem := mem;
    }

    /** `_set_state_cb`: a new test case starts with an empty write list. The
        state itself goes to the CPU's own callback, which is not modelled. */
    method SetState(state: StateStruct)
      modifies this`memWrites
      ensures memWrites == []
    {
      memWrites := [];
    }

    /** `_get_state_cb`: fills the tester's record from `reported`, the state
        the CPU's own callback returned, and from the write list. The scalar
        fields and the count are stored first; the list is then copied entry
        by entry. A list longer than the 16-entry array makes the copy raise
        IndexError at entry 16, reported here as `ok == false`: by then the
        count (the true length) and the first 16 entries are already stored. */
    method GetState(ret: StateStruct, reported: CpuState) returns (ok: bool)
      requires ret.Valid()
      modifies ret, ret.memAccesses
      ensures ret.Cpu() == reported
      ensures ret.numMemAccesses == |memWrites|
      ensures ok <==> |memWrites| <= MEM_ACCESS_CAPACITY
      ensures forall i :: 0 <= i < MEM_ACCESS_CAPACITY && i < |memWrites| ==>
        ret.memAccesses[i] == EntryOf(memWrites[i])
      ensures forall i :: |memWrites| <= i < MEM_ACCESS_CAPACITY ==>
        ret.memAccesses[i] == old(ret.memAccesses[i])
    {
      ret.pc := reported.pc;
      ret.sp := reported.sp;
      ret.regs := Set16(ret.regs, AF, Get16(reported.regs, AF));
      ret.regs := Set16(ret.regs, BC, Get16(reported.regs, BC));
      ret.regs := Set16(ret.regs, DE, Get16(reported.regs, DE));
      ret.regs := Set16(ret.regs, HL, Get16(reported.regs, HL));
      Set16Equal(ret.regs, reported.regs);
      ret.halted := reported.halted;
      ret.interruptsMasterEnabled := reported.interruptsMasterEnabled;
      ret.numMemAccesses := |memWrites|;
      var i := 0;
      while i < |memWrites|
        modifies ret.memAccesses
        invariant 0 <= i <= |memWrites| && i <= MEM_ACCESS_CAPACITY
        invariant forall k :: 0 <= k < i ==> ret.memAccesses[k] == EntryOf(memWrites[k])
        invariant forall k :: i <= k < MEM_ACCESS_CAPACITY ==>
          ret.memAccesses[k] == old(ret.memAccesses[k])
      {
        if i == ret.memAccesses.Length {
          return false;
        }
        ret.memAccesses[i] := EntryOf(memWrites[i]);
        i := i + 1;
      }
      ok := true;
    }
  }

  /** The constant state that the example CPU's get_state callback returns. */
  const EXAMPLE_STATE := CpuState(Regs(0x1122, 0x3344, 0x5566, 0x7788), 0xbeef, 0xdead, true, false)

  /** A test case run against the example CPU with an empty instruction
      window, on an adapter that may still hold an earlier step's writes:
      every read sees the sentinel, set_state drops the stale writes, and the
      record reports the CPU's state with an empty log. */
  method ExampleRun(gbit: Gbit, ret: StateStruct, address: nat) returns (fetched: Byte, ok: bool)
    requires ret.Valid()
    modifies gbit, ret, ret.memAccesses
    ensures ok && fetched == SENTINEL
    ensures ret.Cpu() == EXAMPLE_STATE && Get8(ret.regs, A) == 0x11 && Get8(ret.regs, F) == 0x22
    ensures ret.numMemAccesses == 0 && ret.ReportedLog() == []
  {
    gbit.Init(0, []);
    gbit.SetState(ret);
    fetched := gbit.MemRead(address);
    ok := gbit.GetState(ret, EXAMPLE_STATE);
  }

  /** One test case on an adapter that may still hold an earlier step's
      writes: set_state, then the step's writes ws (at most 16) in order, then
      get_state. The record reports the CPU's state and exactly the writes ws,
      in the order they were made. */
  method StepRun(gbit: Gbit, ret: StateStruct, reported: CpuState, ws: seq<(Word, Byte)>)
    returns (ok: bool)
    requires ret.Valid() && |ws| <= MEM_ACCESS_CAPACITY
    modifies gbit`memWrites, ret, ret.memAccesses
    ensures ok && ret.Cpu() == reported
    ensures ret.numMemAccesses == |ws| && ret.ReportedLog() == Accesses(ws)
  {
    gbit.SetState(ret);
    var i := 0;
    while i < |ws|
      invariant 0 <= i <= |ws|
      invariant gbit.memWrites == ws[..i]
    {
      gbit.MemWrite(ws[i].0, ws[i].1);
      assert ws[..i + 1] == ws[..i] + [ws[i]];
      i := i + 1;
    }
    assert ws[..i] == ws;
    ok := gbit.GetState(ret, reported);
    assert forall k :: 0 <= k < |ws| ==> ret.memAccesses[k] == Accesses(ws)[k];
  }
}

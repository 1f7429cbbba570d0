/** The C mock: the placeholder CPU hooks of test_cpu.c together with its mock
    MMU, which maps the instruction bytes read-only and logs every write in a
    static 16-entry array. The file's static globals are the fields of one
    MockCpu object. */
module TestCpu {
  import opened Ints
  import opened GbitState
  import opened Window

  /** The log array after the writes ws are stored one after another, the
      first at index `count`, as successive `mymmu_write` calls do. */
  function Logged(entries: seq<MemAccess>, count: nat, ws: seq<(Word, Byte)>): (r: seq<MemAccess>)
    requires count + |ws| <= |entries|
    ensures |r| == |entries|
    decreases |ws|
  {
    if ws == [] then entries
    else Logged(entries[count := WriteAccess(ws[0].0, ws[0].1)], count + 1, ws[1..])
  }

  /** k writes from index `count` fill exactly entries count .. count+k-1, in
      order, and leave every other entry as it was. */
  lemma {:induction false} LoggedLayout(entries: seq<MemAccess>, count: nat, ws: seq<(Word, Byte)>)
    requires count + |ws| <= |entries|
    ensures Logged(entries, count, ws)[..count] == entries[..count]
    ensures Logged(entries, count, ws)[count..count + |ws|] == Accesses(ws)
    ensures Logged(entries, count, ws)[count + |ws|..] == entries[count + |ws|..]
    decreases |ws|
  {
    if ws != [] {
      var next := entries[count := WriteAccess(ws[0].0, ws[0].1)];
      LoggedLayout(next, count + 1, ws[1..]);
      var r := Logged(entries, count, ws);
      assert r == Logged(next, count + 1, ws[1..]);
      assert r[count] == next[count];
      assert r[count..count + |ws|] == [r[count]] + r[count + 1..count + |ws|];
      assert Accesses(ws) == [WriteAccess(ws[0].0, ws[0].1)] + Accesses(ws[1..]);
      assert r[..count] == next[..count];
    }
  }

  /** After set_state resets the count, k <= 16 writes are reported as
      exactly those k writes, in order. */
  lemma StepLogReportsWrites(entries: seq<MemAccess>, ws: seq<(Word, Byte)>)
    requires |entries| == MEM_ACCESS_CAPACITY && |ws| <= MEM_ACCESS_CAPACITY
    ensures Logged(entries, 0, ws)[..|ws|] == Accesses(ws)
  {
    LoggedLayout(entries, 0, ws);
  }

  class MockCpu {
    /** `instruction_mem_size` and the bytes behind `instruction_mem`. */
    var instructionMemSize: nat
    var instructionMem: seq<Byte>
    /** `num_mem_accesses` and `mem_accesses[16]`. */
    var numMemAccesses: int
    const memAccesses: array<MemAccess>

    ghost predicate Valid()
      reads this
    {
      && memAccesses.Length == MEM_ACCESS_CAPACITY
      && 0 <= numMemAccesses <= MEM_ACCESS_CAPACITY
      && instructionMemSize <= |instructionMem|
    }

    /** The writes counted so far in the current step. */
    ghost function Log(): seq<MemAccess>
      reads this, memAccesses
      requires Valid()
    {
      memAccesses[..numMemAccesses]
    }

    /** Static storage starts zeroed: empty window, count 0, zero entries. */
    constructor ()
      ensures Valid() && fresh(memAccesses)
      ensures instructionMemSize == 0 && instructionMem == []
      ensures numMemAccesses == 0 && Log() == []
      ensures forall i :: 0 <= i < MEM_ACCESS_CAPACITY ==> memAccesses[i] == MemAccess(0, 0, 0)
    {
      instructionMemSize := 0;
      instructionMem := [];
      numMemAccesses := 0;
      memAccesses := new MemAccess[MEM_ACCESS_CAPACITY](_ => MemAccess(0, 0, 0));
    }

    /** `mycpu_init`: records the window used by every later read. */
    method Init(size: nat, mem: seq<Byte>)
      requires Valid() && size <= |mem|
      modifies this`instructionMemSize, this`instructionMem
      ensures Valid() && instructionMemSize == size && instructionMem == mem
      ensures forall a: Word :: MmuRead(a) == Fetch(mem, size, a)
    {
      instructionMemSize := size;
      instructionMem := mem;
    }

    /** `mycpu_set_state`: the count goes back to 0; the entries of the
        previous step stay in the array but are no longer counted. */
    method SetState(state: StateStruct)
      requires Valid()
      modifies this`numMemAccesses
      ensures Valid() && numMemAccesses == 0 && Log() == []
      ensures memAccesses[..] == old(memAccesses[..])
    {
      numMemAccesses := 0;
    }

    /** `mycpu_get_state`: stores the count and copies all 16 entries, stale
        ones included, into the tester's record. The CPU fields are left to the
        CPU under test and are not written here. */
    method GetState(ret: StateStruct)
      requires Valid() && ret.Valid() && ret.memAccesses != memAccesses
      modifies ret`numMemAccesses, ret.memAccesses
      ensures ret.numMemAccesses == numMemAccesses
      ensures ret.memAccesses[..] == memAccesses[..]
      ensures ret.Cpu() == old(ret.Cpu())
      ensures ret.ReportedLog() == Log()
    {
      ret.numMemAccesses := numMemAccesses;
      forall i | 0 <= i < MEM_ACCESS_CAPACITY {
        ret.memAccesses[i] := memAccesses[i];
      }
    }

    /** `mymmu_read`. */
    function MmuRead(address: Word): (r: Byte)
      reads this
      requires Valid()
      ensures address < instructionMemSize ==> r == instructionMem[address]
      ensures instructionMemSize <= address ==> r == SENTINEL
    {
      Fetch(instructionMem, instructionMemSize, address)
    }

    /** `mymmu_write`: stores the write at index `num_mem_accesses` and counts
        it. There is no bounds check, so the caller must stay within 16. */
    method MmuWrite(address: Word, data: Byte)
      requires Valid() && numMemAccesses < MEM_ACCESS_CAPACITY
      modifies this`numMemAccesses, memAccesses
      ensures Valid() && numMemAccesses == old(numMemAccesses) + 1
      ensures memAccesses[..] == Logged(old(memAccesses[..]), old(numMemAccesses), [(address, data)])
      ensures Log() == old(Log()) + [WriteAccess(address, data)]
    {
      memAccesses[numMemAccesses] := WriteAccess(address, data);
      numMemAccesses := numMemAccesses + 1;
    }
  }

  /** One test case: set_state, then the step's writes ws (at most 16) in
      order, then get_state. The record reports exactly the writes ws, in the
      order they were made; the entries past them are whatever an earlier step
      left in the array, copied verbatim. */
  method StepRun(cpu: MockCpu, ret: StateStruct, ws: seq<(Word, Byte)>)
    requires cpu.Valid() && ret.Valid() && ret.memAccesses != cpu.memAccesses
    requires |ws| <= MEM_ACCESS_CAPACITY
    modifies cpu`numMemAccesses, cpu.memAccesses, ret`numMemAccesses, ret.memAccesses
    ensures ret.numMemAccesses == |ws| && ret.ReportedLog() == Accesses(ws)
    ensures ret.memAccesses[|ws|..] == old(cpu.memAccesses[|ws|..])
  {
    cpu.SetState(ret);
    var i := 0;
    while i < |ws|
      invariant 0 <= i <= |ws| && cpu.Valid() && cpu.numMemAccesses == i
      invariant cpu.Log() == Accesses(ws[..i])
      invariant cpu.memAccesses[i..] == old(cpu.memAccesses[i..])
    {
      ghost var before := cpu.memAccesses[..];
      cpu.MmuWrite(ws[i].0, ws[i].1);
      LoggedLayout(before, i, [ws[i]]);
      assert cpu.memAccesses[i + 1..] == before[i + 1..];
      assert Accesses(ws[..i + 1]) == Accesses(ws[..i]) + [WriteAccess(ws[i].0, ws[i].1)];
      i := i + 1;
    }
    assert ws[..i] == ws;
    cpu.GetState(ret);
  }
}

/** The read-only instruction window: the tester's instruction bytes appear at
    addresses [0, size), and every other address reads as a fixed sentinel. */
module Window {
  import opened Ints

  /** What a read outside the instruction window returns. */
  const SENTINEL: Byte := 0xAA

  /** The byte a read of `address` observes, given the tester's buffer `mem`
      of which the first `size` bytes are mapped. */
  function Fetch(mem: seq<Byte>, size: nat, address: nat): (r: Byte)
    requires size <= |mem|
    ensures address < size ==> r == mem[address]
    ensures size <= address ==> r == SENTINEL
  {
    if address < size then mem[address] else SENTINEL
  }

  /** Reads depend only on the mapped bytes: two buffers that agree on
      [0, size) cannot be told apart by any read, whatever lies past size. */
  lemma FetchSeesOnlyWindow(mem1: seq<Byte>, mem2: seq<Byte>, size: nat, address: nat)
    requires size <= |mem1| && size <= |mem2|
    requires mem1[..size] == mem2[..size]
    ensures Fetch(mem1, size, address) == Fetch(mem2, size, address)
  {
    if address < size {
      assert mem1[address] == mem1[..size][address];
    }
  }

  /** Reading the addresses 0 .. size-1 in turn yields the mapped bytes. */
  lemma FetchRecoversWindow(mem: seq<Byte>, size: nat)
    requires size <= |mem|
    ensures seq(size, a requires 0 <= a < size => Fetch(mem, size, a)) == mem[..size]
  {
  }

  /** With an empty window (the state before init, or size 0) every read
      returns the sentinel. */
  lemma EmptyWindowReadsSentinel(mem: seq<Byte>, address: nat)
    ensures Fetch(mem, 0, address) == SENTINEL
  {
  }
}

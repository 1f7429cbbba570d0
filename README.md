# gbit adapter model

A Dafny model of the part of the Game Boy instruction tester (gbit) that
runs on the side of the CPU under test. The tester installs a CPU state, lets
the CPU execute one instruction, and reads the resulting state back. On the
CPU's side, an adapter does four things:

- it maps the tester's instruction bytes read-only at `[0, size)`, and every
  other address reads as the sentinel `0xAA`;
- it logs every memory write of the current step, in order, as
  `(TYPE_WRITE, addr, val)`, and clears the log when a new state is installed;
- it copies PC, SP, AF, BC, DE, HL, halted, IME and the log (with its count)
  into the tester's state record;
- it keeps the register file as four 16-bit pairs that are also eight 8-bit
  registers over the same storage.

The adapter exists twice, and both are modelled:

- `Gbit.Gbit` models the Python `GBIT` class (`python/gbit.py`);
- `TestCpu.MockCpu` models the static globals and the mock MMU of
  `test_cpu.c`.

Modules:

- `Ints` covers the fixed-width fields and their truncation (`U8`, `U16`). It
  also defines Python's `>>` and `&` on non-negative ints (`Shr`, `And`) and
  proves that they are quotient and remainder by a power of two.
- `Registers` models the `RegsUnion` overlay. The storage is the four 16-bit
  words. An 8-bit register is the byte at its `Regs8` field offset in the
  little-endian image of those words, which is how a ctypes `Union` reads it
  on a little-endian host.
  Writing an 8-bit register rewrites that byte of the image.
- `GbitState` holds `MemAccess`, the architectural `CpuState`, and the
  caller-supplied record `StateStruct`, whose `mem_accesses` is a 16-entry
  array. It also holds `bit` and the printed ZNHC flag digits.
- `Window` is the sentinel read rule that both adapters share.
- `Gbit` and `TestCpu` are the two adapters, as classes whose methods update
  their fields in place.

Neither implementation caps the log at 16 entries: `mymmu_write` indexes
past the array and `_get_state_cb` raises `IndexError` at entry 16.

- `mymmu_write` stores at `mem_accesses[num_mem_accesses++]` with no bounds
  check. `TestCpu.MockCpu.MmuWrite` therefore requires fewer than 16 logged
  writes.
- Python's `mem_write` appends without limit. `_get_state_cb` stores the true
  count and then indexes the 16-entry ctypes array for every write. The 17th
  write raises `IndexError` after the first 16 entries are stored.
  `Gbit.Gbit.GetState` models this as `ok == false`.

## Model

| member | source | states |
|---|---|---|
| Ints.U8 | python/gbit.py:24 | a Python int stored in the c_uint8 `val` field becomes the unique byte congruent to it mod 256; a value already in range is kept |
| Ints.U16 | python/gbit.py:23 | a Python int stored in the c_uint16 `addr` field becomes the unique word congruent to it mod 65536; a value already in range is kept |
| Ints.ShrIsDiv | python/gbit.py:206 | Python's `v >> n` on a non-negative int is the quotient of v by 2^n |
| Ints.AndLowMask | python/gbit.py:206 | Python's `v & (2^n - 1)` is the remainder of v by 2^n (so `v & 1` is v mod 2 and `v & 0xFF` is v mod 256) |
| Registers.Set16 | python/gbit.py:28-34 | writing a pair through the 16-bit view sets that pair and leaves the other three pairs unchanged |
| Registers.Offset | python/gbit.py:41-47 | each 8-bit register sits at its own byte offset 0..7 of the union, in the Regs8 order F, A, C, B, E, D, L, H |
| Registers.HighOf | python/gbit.py:43-46 | A, B, D, H are halves of AF, BC, DE, HL respectively |
| Registers.LowOf | python/gbit.py:43-46 | F, C, E, L are the other halves of AF, BC, DE, HL |
| Registers.ImageRoundTrip | python/gbit.py:55-59 | reading the four 16-bit fields back from the union's eight-byte little-endian image gives the same registers |
| Registers.FromImageRoundTrip | python/gbit.py:55-59 | every eight-byte image is the image of the registers read from it, so the 16-bit view loses no byte of the storage |
| Registers.PairFromHalves | python/gbit.py:28-47 | every pair equals 256 * high register + low register, so reading the two bytes reconstructs the exact 16-bit value |
| Registers.Set16Halves | python/gbit.py:28-59 | after writing v to a pair, its high register reads `v >> 8` and its low register reads `v & 0xFF`; the other six 8-bit registers are unchanged |
| Registers.Set8Frame | python/gbit.py:41-59 | after writing b to an 8-bit register, that register reads b and every other 8-bit register is unchanged |
| Registers.Set8Pair | python/gbit.py:28-59 | a byte write is visible at once in the 16-bit view: the pair becomes 256 * b + old low (high write) or 256 * old high + b (low write); no other pair changes |
| Registers.SetHalvesIsSet16 | python/gbit.py:28-59 | writing `v / 256` to the high register and then `v % 256` to the low register is the same as writing v to the pair |
| Window.Fetch | python/gbit.py:165-171 | a read below the window size returns the buffer byte at that address; any read at or beyond it returns 0xAA |
| Window.FetchSeesOnlyWindow | test_cpu.c:85-91 | reads depend only on the first `size` bytes: buffers that agree there give equal reads at every address |
| Window.FetchRecoversWindow | test_cpu.c:85-91 | reading addresses 0 .. size-1 in turn yields exactly the mapped bytes |
| Window.EmptyWindowReadsSentinel | python/gbit.py:126 | with size 0 (also the state before init) every read returns 0xAA |
| GbitState.Accesses | python/gbit.py:196-199 | the log of writes ws has one entry per write, entry i recording write i, in order |
| GbitState.WritesOf | python/gbit.py:18-25 | the (address, value) pairs read out of a log, one per entry, in order |
| GbitState.AccessesRoundTrip | python/gbit.py:196-199 | reading a log built from writes gives back exactly those writes, and every entry is tagged TYPE_WRITE |
| GbitState.StateStruct.constructor | python/gbit.py:65-75 | a fresh record is zero-filled and has a 16-entry access array |
| GbitState.Bit | python/gbit.py:205-206 | `bit(val, pos)` is the binary digit of val at position pos: (val / 2^pos) mod 2 |
| GbitState.BitsRebuildValue | python/gbit.py:205-206 | the bits that `bit` extracts at positions 0 .. n-1, weighted by powers of two, rebuild val mod 2^n, so `bit` loses nothing |
| GbitState.FlagDigits | python/gbit.py:81-87 | the printed Z, N, H, C digits are four binary digits |
| GbitState.FlagDigitsAreHighNibble | python/gbit.py:84-86 | read as a binary number, the printed ZNHC digits are `F >> 4`, i.e. bits 7, 6, 5, 4 of F |
| GbitState.HighNibbleBits | python/gbit.py:85-86 | for any byte, 8 * bit 7 + 4 * bit 6 + 2 * bit 5 + bit 4 equals the byte shifted right by 4 |
| Gbit.EntryOf | python/gbit.py:196-199 | the stored entry has kind TYPE_WRITE and the logged address and value truncated to 16 and 8 bits (unchanged when already in range) |
| Gbit.Gbit.constructor | python/gbit.py:124-127 | a new adapter has no logged writes and an empty instruction window |
| Gbit.Gbit.MemWrite | python/gbit.py:162-163 | the write is appended at the end of the log; earlier entries are unchanged, so the log keeps program order |
| Gbit.Gbit.MemRead | python/gbit.py:165-171 | reads below `instruction_mem_size` return the buffer byte; reads at or beyond it return 0xAA |
| Gbit.Gbit.Init | python/gbit.py:173-175 | the size and buffer are recorded and every later read is the window read over them; the write log is outside the method's frame |
| Gbit.Gbit.SetState | python/gbit.py:179-181 | the write log is empty afterwards |
| Gbit.Gbit.GetState | python/gbit.py:183-199 | the record's PC, SP, AF, BC, DE, HL, halted and IME equal the CPU's reported state; the count is the log length; entry i is write i for every i below 16; entries past the log are untouched; it succeeds exactly when the log has at most 16 writes |
| Gbit.ExampleRun | python/example.py:18-33 | on an adapter holding any earlier writes, with size 0 and the example CPU, a read returns 0xAA and get_state after set_state with no writes reports the state (A = 0x11, F = 0x22) with an empty log |
| Gbit.StepRun | python/gbit.py:162-199 | on an adapter holding any earlier writes, set_state, then k <= 16 writes, then get_state succeeds and reports the CPU's state, count k and exactly those k writes in order |
| TestCpu.Logged | test_cpu.c:93-99 | successive stores into the log array keep its length |
| TestCpu.LoggedLayout | test_cpu.c:93-99 | k writes starting at index `count` fill entries count .. count+k-1 with those writes in order, and leave every other entry unchanged |
| TestCpu.StepLogReportsWrites | test_cpu.c:43-54 | after the count is reset, k <= 16 writes occupy the first k entries of the log, in order |
| TestCpu.MockCpu.constructor | test_cpu.c:16-20 | the static state starts zeroed: empty window, count 0, 16 zero entries |
| TestCpu.MockCpu.Init | test_cpu.c:27-34 | the size and buffer are recorded and every later read is the window read over them; the log is not touched |
| TestCpu.MockCpu.SetState | test_cpu.c:39-46 | the count becomes 0 and the counted log is empty; the stale entries stay in the array |
| TestCpu.MockCpu.GetState | test_cpu.c:51-57 | the record gets the current count and all 16 entries verbatim, so its reported log is the adapter's log; its CPU fields are not written |
| TestCpu.MockCpu.MmuRead | test_cpu.c:85-91 | reads below `instruction_mem_size` return the buffer byte; reads at or beyond it return 0xAA |
| TestCpu.MockCpu.MmuWrite | test_cpu.c:93-99 | `{MEM_ACCESS_WRITE, addr, data}` is stored at index `num_mem_accesses`, the count grows by exactly one and every other entry is unchanged; the counted log gains the write at its end |
| TestCpu.StepRun | test_cpu.c:39-99 | set_state, then k <= 16 writes, then get_state reports count k and exactly those k writes in order; the entries past them are the stale ones the array held, copied verbatim |

## Left out

- `GBIT.load_library`, `GBIT.run`, `tester_run`, and the `Operations`, `Flags` and `CFUNCTYPE` declarations. These are file-system checks, library loading and foreign calls into the tester.
- The tester itself (instruction generation, the reference CPU, comparison and reporting). `lib/tester.h` only declares it, and `common.h` is not part of this model.
- The CPU's own callbacks are opaque foreign code. The state that `_set_state_cb` forwards and the optional `init_cb` call are not modelled. The state returned by `get_state_cb` is the `reported` parameter of `Gbit.Gbit.GetState`.
- `mycpu_step` and `_step_cb`: placeholders that return 0 or forward to the CPU's callback.
- `mycpu_set_state` and `mycpu_get_state` also contain placeholder comments that load and copy CPU registers. Only the statements they actually contain are modelled.
- The `__repr__` and `__str__` text. Only the ZNHC digits extracted with `bit` are modelled.
- `python/example.py`: argument parsing and the SIGINT handler. Only its constant state appears, in `Gbit.ExampleRun`.
- `MEM_ACCESS_WRITE` is defined in `common.h`. The model uses the value 1 that `MemAccess.TYPE_WRITE` gives it on the Python side.
- TestCpu.MockCpu.MmuWrite: requires fewer than 16 counted writes. The C code writes past the array on the 17th write, and that undefined behaviour is not modelled.
- Gbit.Gbit.MemRead: requires a non-negative address. A negative Python index would reach memory before the start of the ctypes buffer.
- Gbit.Gbit.GetState: models the `IndexError` raised at the 17th entry as an `ok` result. Printing and swallowing the exception at the ctypes callback boundary is not modelled.
- The register overlay assumes a little-endian host. ctypes uses the host's native byte order, so on a big-endian host `reg8.F` would be the high byte of AF and the `Registers` lemmas that tie the halves to the pairs would not describe the program.
- Aliasing between the instruction buffer and other memory is not modelled. The buffer is a sequence of bytes, and `size <= |buffer|` stands for the caller's promise that the buffer holds at least `size` bytes.

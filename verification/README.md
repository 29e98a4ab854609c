# cpuMemory: the byte store of a 6502 emulator

This project models `cpuMemory` in `memory.h` of a small NES/6502 emulator and proves properties of it. The class owns a 0x10000-byte buffer. Its constructor stores 42 in cell 31. `calcIndex` turns a low byte and a high byte into a 16-bit address. It then divides that address by 8 to pick a buffer cell, and keeps a wrap guard for an index past cell 8191. `readAddress` and `writeAddress` read and overwrite the chosen cell.

The model is functional:

- `Bits` writes out the C integer operations the address calculation uses. `uint8`/`uint16` are newtypes. Left shift is repeated doubling, and bitwise OR is defined bit by bit.
- `Address` holds address formation (`Combine`), the wrap guard (`WrapIndex`) and `CalcIndex`, together with the facts about the 8-to-1 aliasing that the division causes.
- `Memory` holds the buffer as an immutable `seq<uint8>` (`CpuMemory`), the constructor (`New`), `Read` and `Write`. `Write` returns a new buffer. `Read` is a function of the buffer, so by construction it cannot change the memory.

The model follows the code as written, which differs from a flat byte-per-address store:

- Every address maps to cell `addr / 8`. The eight addresses `8*i` to `8*i+7` share cell `i`, and only cells 0 to 8191 are ever used.
- The buffer is not zero-initialised: `malloc` leaves it undefined. `New` therefore takes the prior contents as a parameter and sets only cell 31. Right after construction, the addresses 0x00F8 to 0x00FF read 42.
- The `% 8192` wrap branch in `calcIndex` can never be taken, and the model proves this.

## Model

| member | source | states |
|---|---|---|
| Bits.OrOfDisjointIsSum | memory.h:18 | OR-ing a value below 2^n into a value shifted left by n equals their sum, so `(hiBits << 8) \| lowBits` is `hiBits*256 + lowBits` |
| Bits.ShiftLeft | memory.h:18 | `x << n` on a non-negative `int` that does not overflow, taken as `n` single-bit doublings, equals `x * 2^n` |
| Bits.BitOr | memory.h:18 | bitwise OR, taken one bit at a time from the least significant; the result is at least each operand and at most their sum |
| Bits.TruncateTo16 | memory.h:18 | storing a non-negative `int` below 65536 into a `uint16_t` keeps its value |
| Address.Combine | memory.h:18 | the address built from `(lo, hi)` is `hi*256 + lo`, and it lies in [0, 65535] |
| Address.CombineSplitRoundTrip | memory.h:18 | the low and high bytes of the combined address are the two inputs, and every 16-bit address is the combination of its own two bytes |
| Address.CombineInjective | memory.h:18 | two byte pairs give the same address if and only if they are the same pair |
| Address.WrapIndex | memory.h:20-23 | on every non-negative index the wrap guard returns `index % 8192`, which lies in [0, 8191], and it leaves an index below 8192 unchanged |
| Address.CalcIndex | memory.h:17-25 | the index lies in [0, 8191], equals `addr / 8` and equals `hi*32 + lo/8` |
| Address.WrapBranchUnreachable | memory.h:19-23 | `addr / 8` is never above 8191, so the wrap guard returns it unchanged |
| Address.CellPreimage | memory.h:17-24 | an address maps to cell `i` if and only if its high byte is `i/32` and its low byte divided by 8 is `i%32`, which means the address lies in [8i, 8i+7] |
| Address.SameCellIff | memory.h:17-24 | two addresses share a cell if and only if they have the same high byte and the same low byte divided by 8 |
| Address.EveryCellReachable | memory.h:17-24 | every cell in [0, 8191] is the target of some address, namely `8*i` |
| Memory.New | memory.h:10-13 | the new buffer has 0x10000 cells, cell 31 holds 42, and every other cell keeps the value it had before construction |
| Memory.Read | memory.h:27-30 | the read returns cell `hi*32 + lo/8` of the buffer |
| Memory.Write | memory.h:32-35 | the write keeps the buffer size, stores `v` in cell `addr/8`, and leaves every other cell unchanged |
| Memory.ReadAfterWrite | memory.h:27-35 | reading an address right after writing `v` to it returns `v` |
| Memory.WriteFrame | memory.h:27-35 | a write leaves the read value of every address with a different cell unchanged |
| Memory.WriteVisibleIffAlias | memory.h:17-35 | if a cell did not already hold `v`, a write of `v` shows up at a second address if and only if the two addresses differ only in their low three bits |
| Memory.WriteReadBack | memory.h:27-35 | writing back the byte just read at an address leaves the whole memory unchanged |
| Memory.WriteOverwritesAlias | memory.h:17-35 | a write at any of the eight aliases of a cell erases an earlier write to that cell |
| Memory.WritesCommute | memory.h:17-35 | writes to different cells can be swapped without changing the result |
| Memory.ReadAfterNew | memory.h:10-30 | right after construction, addresses 0x00F8 to 0x00FF read 42, and every other address reads the pre-existing byte of its cell |
| Memory.UpperCellsUntouched | memory.h:11-35 | no write changes buffer cells 8192 to 65535 |

## Left out

- `cpu.h`: the `cpu` class only declares register and flag fields and stores a memory pointer. Nothing reads or writes them, so it has no behaviour to model.
- Allocation failure: a `malloc` that returns null is not modelled. The buffer is assumed to exist with 0x10000 cells.
- Uninitialised contents: the cells `malloc` leaves undefined are an arbitrary parameter of `New`. They are not treated as zeros.
- Object identity and aliasing of the buffer pointer: the model treats the memory as a value, so sharing one `cpuMemory` between several owners is not represented.
- Integer width: the C++ `int` in `calcIndex` never exceeds 65535 here, so no overflow needs modelling. The modulo in the wrap guard only sees non-negative values, so C++'s truncating `%` and Dafny's Euclidean `%` agree.
- The `<cstdio>` include: it has no behaviour in this class.

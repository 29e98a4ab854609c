/**
 The `cpuMemory` class of memory.h as an immutable value: a 0x10000-byte
 buffer, a constructor that sets cell 31 to 42, and reads and writes that go
 through `calcIndex`. A write produces a new buffer instead of updating one in
 place, and a read is a function of the buffer, so it cannot change it.
 */
module Memory {
  import opened Bits
  import opened Address

  /** Bytes allocated by the constructor. */
  const BufferSize: nat := 0x1_0000

  /** The one cell the constructor initialises, and the value it stores there. */
  const InitCell: nat := 31
  const InitValue: uint8 := 42

  datatype CpuMemory = CpuMemory(mem: seq<uint8>)
  {
    /** The buffer has the size the constructor allocates. */
    predicate Valid()
    {
      |mem| == BufferSize
    }
  }

  /** The constructor. `malloc` leaves the buffer uninitialised, so its prior
      contents are the parameter `garbage`; only cell 31 is then set to 42. */
  function New(garbage: seq<uint8>): (m: CpuMemory)
    requires |garbage| == BufferSize
    ensures m.Valid()
    ensures m.mem[InitCell] == InitValue
    ensures forall i :: 0 <= i < BufferSize && i != InitCell ==> m.mem[i] == garbage[i]
  {
    CpuMemory(garbage[InitCell := InitValue])
  }

  /** `readAddress`: the byte held by the cell that `(lo, hi)` maps to. */
  function Read(m: CpuMemory, lo: uint8, hi: uint8): (v: uint8)
    requires m.Valid()
    ensures v == m.mem[hi as int * 32 + lo as int / 8]
  {
    m.mem[CalcIndex(lo, hi)]
  }

  /** `writeAddress`: overwrite the cell that `(lo, hi)` maps to with `v`. */
  function Write(m: CpuMemory, lo: uint8, hi: uint8, v: uint8): (m': CpuMemory)
    requires m.Valid()
    ensures m'.Valid()
    ensures m'.mem[Combine(lo, hi) as int / CellWidth] == v
    ensures forall i :: 0 <= i < BufferSize && i != Combine(lo, hi) as int / CellWidth ==> m'.mem[i] == m.mem[i]
  {
    m.(mem := m.mem[CalcIndex(lo, hi) := v])
  }

  /** A read right after a write to the same address returns the written byte. */
  lemma ReadAfterWrite(m: CpuMemory, lo: uint8, hi: uint8, v: uint8)
    requires m.Valid()
    ensures Read(Write(m, lo, hi, v), lo, hi) == v
  {
  }

  /** A write is invisible at every address that maps to a different cell. */
  lemma WriteFrame(m: CpuMemory, lo: uint8, hi: uint8, v: uint8, lo2: uint8, hi2: uint8)
    requires m.Valid()
    requires CalcIndex(lo2, hi2) != CalcIndex(lo, hi)
    ensures Read(Write(m, lo, hi, v), lo2, hi2) == Read(m, lo2, hi2)
  {
  }

  /** Aliasing: a write at `(lo, hi)` is seen at `(lo2, hi2)` exactly when the two
      addresses agree on all but their low three bits (unless that cell already
      held the written byte). */
  lemma WriteVisibleIffAlias(m: CpuMemory, lo: uint8, hi: uint8, v: uint8, lo2: uint8, hi2: uint8)
    requires m.Valid()
    requires Read(m, lo2, hi2) != v
    ensures Read(Write(m, lo, hi, v), lo2, hi2) == v <==> hi2 == hi && lo2 as int / 8 == lo as int / 8
  {
    SameCellIff(lo, hi, lo2, hi2);
  }

  /** Writing back the byte just read leaves the memory unchanged. */
  lemma WriteReadBack(m: CpuMemory, lo: uint8, hi: uint8)
    requires m.Valid()
    ensures Write(m, lo, hi, Read(m, lo, hi)) == m
  {
  }

  /** A second write to the same cell, through any of its eight aliases, erases the first. */
  lemma WriteOverwritesAlias(m: CpuMemory, lo: uint8, hi: uint8, v: uint8, lo2: uint8, hi2: uint8, w: uint8)
    requires m.Valid()
    requires hi2 == hi && lo2 as int / 8 == lo as int / 8
    ensures Write(Write(m, lo, hi, v), lo2, hi2, w) == Write(m, lo2, hi2, w)
  {
  }

  /** Writes to different cells commute. */
  lemma WritesCommute(m: CpuMemory, lo: uint8, hi: uint8, v: uint8, lo2: uint8, hi2: uint8, w: uint8)
    requires m.Valid()
    requires CalcIndex(lo2, hi2) != CalcIndex(lo, hi)
    ensures Write(Write(m, lo, hi, v), lo2, hi2, w) == Write(Write(m, lo2, hi2, w), lo, hi, v)
  {
  }

  /** Right after construction, the addresses 0x00F8 to 0x00FF read 42, and every
      other address reads whatever the allocation left in its cell. */
  lemma ReadAfterNew(garbage: seq<uint8>, lo: uint8, hi: uint8)
    requires |garbage| == BufferSize
    ensures hi == 0 && lo >= 0xF8 ==> Read(New(garbage), lo, hi) == InitValue
    ensures !(hi == 0 && lo >= 0xF8) ==> Read(New(garbage), lo, hi) == garbage[hi as int * 32 + lo as int / 8]
  {
    CellPreimage(InitCell, lo, hi);
  }

  /** Cells 8192 and above are allocated but no write ever reaches them. */
  lemma UpperCellsUntouched(m: CpuMemory, lo: uint8, hi: uint8, v: uint8, i: int)
    requires m.Valid()
    requires CellCount <= i < BufferSize
    ensures Write(m, lo, hi, v).mem[i] == m.mem[i]
  {
  }
}

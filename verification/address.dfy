/**
 Address formation and the address-to-cell mapping of `cpuMemory`
 (`calcIndex` in memory.h). A 16-bit address is built little-endian from a low
 and a high byte, and then divided by 8 to pick a buffer cell, so every eight
 consecutive addresses share one cell.
 */
module Address {
  import opened Bits

  /** The divisor that maps an address to its cell. */
  const CellWidth: nat := 8

  /** The modulus of the wrap guard in `calcIndex`; cells at or past it are never used. */
  const CellCount: nat := 8192

  /** `(hiBits << 8) | lowBits`, computed in C++ `int` and stored into a `uint16_t`. */
  function Combine(lo: uint8, hi: uint8): (addr: uint16)
    ensures addr as int == hi as int * 256 + lo as int
  {
    OrOfDisjointIsSum(hi as nat, lo as nat, 8);
    TruncateTo16(BitOr(ShiftLeft(hi as nat, 8), lo as nat))
  }

  /** The low byte of an address. */
  function LowByte(addr: uint16): (lo: uint8)
  {
    (addr as int % 256) as uint8
  }

  /** The high byte of an address. */
  function HighByte(addr: uint16): (hi: uint8)
  {
    (addr as int / 256) as uint8
  }

  /** Combining two bytes loses nothing: both bytes are recovered from the address,
      and every address is the combination of its own two bytes. */
  lemma CombineSplitRoundTrip(lo: uint8, hi: uint8, addr: uint16)
    ensures LowByte(Combine(lo, hi)) == lo && HighByte(Combine(lo, hi)) == hi
    ensures Combine(LowByte(addr), HighByte(addr)) == addr
  {
    DivModByte(hi as int, lo as int);
  }

  /** Dividing `h * 256 + l` by 256 gives back `h` and `l`. */
  lemma DivModByte(h: int, l: int)
    requires 0 <= l < 256
    ensures (h * 256 + l) / 256 == h && (h * 256 + l) % 256 == l
  {
  }

  /** Two byte pairs form the same address exactly when they are the same pair. */
  lemma CombineInjective(lo1: uint8, hi1: uint8, lo2: uint8, hi2: uint8)
    ensures Combine(lo1, hi1) == Combine(lo2, hi2) <==> lo1 == lo2 && hi1 == hi2
  {
    CombineSplitRoundTrip(lo1, hi1, 0);
    CombineSplitRoundTrip(lo2, hi2, 0);
  }

  /** `calcIndex`: the buffer cell that the address `(lo, hi)` reads and writes,
      including the wrap guard for an index past the last cell. */
  function CalcIndex(lo: uint8, hi: uint8): (index: int)
    ensures 0 <= index < CellCount
    ensures index == Combine(lo, hi) as int / CellWidth
    ensures index == hi as int * 32 + lo as int / 8
  {
    WrapIndex(Combine(lo, hi) as int / CellWidth)
  }

  /** The wrap guard of `calcIndex`: an index past the last cell is reduced modulo
      the cell count. Indices already in range are left alone. */
  function WrapIndex(index: int): (r: int)
    ensures 0 <= index ==> 0 <= r < CellCount
    ensures index < CellCount ==> r == index
    ensures 0 <= index ==> r == index % CellCount
  {
    if index > CellCount - 1 then
      index % CellCount
    else
      index
  }

  /** The wrap branch of `calcIndex` is never taken: the largest address, 0xFFFF,
      divided by 8 is 8191, the last cell. */
  lemma WrapBranchUnreachable(lo: uint8, hi: uint8)
    ensures !(Combine(lo, hi) as int / CellWidth > CellCount - 1)
    ensures WrapIndex(Combine(lo, hi) as int / CellWidth) == Combine(lo, hi) as int / CellWidth
  {
  }

  /** Eight-to-one aliasing: the addresses that map to cell `i` are exactly those
      whose high byte is `i / 32` and whose low byte lies in the `i % 32`-th
      group of eight, i.e. the addresses `8 * i` through `8 * i + 7`. */
  lemma CellPreimage(i: int, lo: uint8, hi: uint8)
    requires 0 <= i < CellCount
    ensures CalcIndex(lo, hi) == i <==> hi as int == i / 32 && lo as int / 8 == i % 32
    ensures CalcIndex(lo, hi) == i <==> 8 * i <= Combine(lo, hi) as int < 8 * i + 8
  {
  }

  /** Two addresses share a cell exactly when they agree on every bit but the low three. */
  lemma SameCellIff(lo1: uint8, hi1: uint8, lo2: uint8, hi2: uint8)
    ensures CalcIndex(lo1, hi1) == CalcIndex(lo2, hi2) <==> hi1 == hi2 && lo1 as int / 8 == lo2 as int / 8
  {
    CellPreimage(CalcIndex(lo1, hi1), lo2, hi2);
  }

  /** Every cell below `CellCount` is reached: the address `8 * i` maps to cell `i`. */
  lemma EveryCellReachable(i: int)
    requires 0 <= i < CellCount
    ensures CalcIndex(((i % 32) * 8) as uint8, (i / 32) as uint8) == i
  {
  }
}

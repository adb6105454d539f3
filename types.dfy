/** Value types shared by every part of the bridge: C integers, byte strings,
    FILETIME words and the LKL stat records the handlers read. */
module Types {

  datatype Option<+T> = None | Some(value: T)

  /** An unsigned 8-bit C `char` as the bridge handles UTF-8 path bytes. */
  newtype byte = b: int | 0 <= b < 0x100

  /** A Win32 `DWORD`: unsigned 32 bits. */
  type Dword = x: int | 0 <= x < 0x1_0000_0000

  /** A C `int` (32 bits on Windows): every `lkl_ret` of the bridge. */
  type Int32 = x: int | -0x8000_0000 <= x < 0x8000_0000

  const TWO_32: int := 0x1_0000_0000
  const TWO_64: int := 0x1_0000_0000_0000_0000

  const NUL: byte := 0x00
  const SLASH: byte := 0x2F      // '/'
  const BACKSLASH: byte := 0x5C  // '\\'

  /** The characters of a C string, without its terminating NUL. */
  type Text = s: seq<byte> | NUL !in s

  /** A NUL-free UTF-16 string as handed over by the Windows host. */
  type WideText = seq<bv16>

  /** `(DWORD) x`: keep the low 32 bits of an integer. */
  function ToDword(x: int): Dword {
    x % TWO_32
  }

  /** `(LONG) x`: keep the low 32 bits and read them as a signed number. */
  function ToLong(x: int): (r: int)
    ensures -0x8000_0000 <= r < 0x8000_0000
    ensures -0x8000_0000 <= x < 0x8000_0000 ==> r == x
  {
    (x + 0x8000_0000) % TWO_32 - 0x8000_0000
  }

  /** The parts of `struct lkl_stat` the bridge reads: the mode word, the
      size, the link count and the seconds of the three timestamps. */
  datatype LklStat = LklStat(mode: bv32, size: int, nlink: int, atime: int, mtime: int, ctime: int)

  const ZeroStat := LklStat(0, 0, 0, 0, 0, 0)

  /** The parts of `struct lkl_statfs` that `LklGetDiskFreeSpace` reads. */
  datatype LklStatFs = LklStatFs(bsize: int, blocks: int, bfree: int, bavail: int)

  const ZeroStatFs := LklStatFs(0, 0, 0, 0)

  /** A Windows FILETIME: a 64-bit count of 100 ns ticks since 1601,
      stored as two 32-bit words. */
  datatype FileTime = FileTime(low: Dword, high: Dword)

  /** The 64-bit number a FILETIME's two words stand for. */
  function Ticks(ft: FileTime): (n: int)
    ensures 0 <= n < TWO_64
  {
    ft.high * TWO_32 + ft.low
  }

  /** `struct lkl_timespec`. */
  datatype Timespec = Timespec(sec: int, nsec: int)

  /** Concatenation is associative (stated once, used by the loop proofs). */
  lemma AppendAssoc<T>(a: seq<T>, b: seq<T>, c: seq<T>)
    ensures (a + b) + c == a + (b + c)
  {
  }
}

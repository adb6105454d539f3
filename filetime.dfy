/** FILETIME <-> Unix seconds arithmetic of utils.c. */
module FileTimes {
  import opened Types

  /** 100 ns ticks from 1601-01-01 (FILETIME's origin) to 1970-01-01. */
  const EPOCH_DIFFERENCE: int := 116444736000000000
  const TICKS_PER_SECOND: int := 10000000

  /** `unix_time_to_filetime`. `Int32x32To64` casts its arguments to a
      32-bit `LONG`, so only the low 32 bits of the time are used. */
  function UnixTimeToFiletime(t: int): (ft: FileTime)
    ensures Ticks(ft) == ToLong(t) * TICKS_PER_SECOND + EPOCH_DIFFERENCE
  {
    var ll := ToLong(t) * TICKS_PER_SECOND + EPOCH_DIFFERENCE;
    FileTime(ToDword(ll), ToDword(ll / TWO_32))
  }

  /** For every time a 32-bit `LONG` holds, the FILETIME's 64-bit value is
      the time in ticks, moved to FILETIME's origin. */
  lemma UnixTimeToFiletimeExact(t: int)
    requires -0x8000_0000 <= t < 0x8000_0000
    ensures Ticks(UnixTimeToFiletime(t)) == t * TICKS_PER_SECOND + EPOCH_DIFFERENCE
  {
  }

  /** The 32-bit cast makes the conversion wrap: times 2^32 seconds apart
      (about 136 years) give the same FILETIME. */
  lemma UnixTimeToFiletimeWraps(t: int)
    ensures UnixTimeToFiletime(t + TWO_32) == UnixTimeToFiletime(t)
  {
    assert ToLong(t + TWO_32) == ToLong(t) by {
      var k := t + 0x8000_0000;
      assert (k + TWO_32) % TWO_32 == k % TWO_32;
    }
  }

  /** `is_filetime_set`: false for a NULL pointer and for a FILETIME whose
      two words are both zero. */
  function IsFiletimeSet(ft: Option<FileTime>): (set_: bool)
    ensures set_ <==> ft.Some? && Ticks(ft.value) != 0
  {
    !(ft.None? || (ft.value.high == 0 && ft.value.low == 0))
  }

  /** `filetime_to_unixtime`. The subtraction is done on an unsigned 64-bit
      value, so the result is never negative. */
  function FiletimeToUnixtime(ft: Option<FileTime>): (t: int)
    ensures !IsFiletimeSet(ft) ==> t == 0
    ensures 0 <= t < TWO_64 / TICKS_PER_SECOND + 1
    ensures IsFiletimeSet(ft) && Ticks(ft.value) >= EPOCH_DIFFERENCE ==>
              t == (Ticks(ft.value) - EPOCH_DIFFERENCE) / TICKS_PER_SECOND
  {
    if !IsFiletimeSet(ft) then 0
    else ((Ticks(ft.value) - EPOCH_DIFFERENCE) % TWO_64) / TICKS_PER_SECOND
  }

  /** Every time from 1970 up to 2^31 - 1 seconds survives the trip to a
      FILETIME and back. */
  lemma FiletimeRoundTrip(t: int)
    requires 0 <= t < 0x8000_0000
    ensures FiletimeToUnixtime(Some(UnixTimeToFiletime(t))) == t
  {
    var ft := UnixTimeToFiletime(t);
    UnixTimeToFiletimeExact(t);
    assert Ticks(ft) - EPOCH_DIFFERENCE == t * TICKS_PER_SECOND;
    assert (t * TICKS_PER_SECOND) / TICKS_PER_SECOND == t;
  }

  /** A FILETIME before 1970 does not give a negative time: the unsigned
      subtraction wraps, and the result lies about 58 000 years ahead. */
  lemma BeforeUnixEpochWraps(ft: FileTime)
    requires 0 < Ticks(ft) < EPOCH_DIFFERENCE
    ensures FiletimeToUnixtime(Some(ft)) >= 1833029933770
  {
    var d := Ticks(ft) - EPOCH_DIFFERENCE;
    assert d % TWO_64 == d + TWO_64;
  }
}

/** The `lkl_stat_to_def` macro of utils.h: filling a Windows find-data /
    file-information record from an LKL stat record. */
module StatMapping {
  import opened Types
  import opened FileTimes

  const FILE_ATTRIBUTE_READONLY: bv32 := 0x1
  const FILE_ATTRIBUTE_DIRECTORY: bv32 := 0x10
  const FILE_ATTRIBUTE_NORMAL: bv32 := 0x80

  const S_IFMT: bv32 := 0xF000     // 0170000
  const S_IFDIR: bv32 := 0x4000    // 0040000
  const S_IWANY: bv32 := 0x92      // 0222: write permission for owner, group, other

  /** `LKL_S_ISDIR`. */
  predicate IsDir(mode: bv32) {
    mode & S_IFMT == S_IFDIR
  }

  /** The fields of `WIN32_FIND_DATAW` / `BY_HANDLE_FILE_INFORMATION` the
      macro writes. */
  datatype FindData = FindData(
    attributes: bv32,
    sizeLow: Dword,
    sizeHigh: Dword,
    creation: FileTime,
    lastAccess: FileTime,
    lastWrite: FileTime)

  /** The record after `ZeroMemory`. */
  const ZeroFindData := FindData(0, 0, 0, FileTime(0, 0), FileTime(0, 0), FileTime(0, 0))

  /** The timestamp field after the macro: replaced only when the stat time
      is non-zero, otherwise the earlier value stays. */
  function StampOrKeep(secs: int, prior: FileTime): (ft: FileTime)
    ensures secs == 0 ==> ft == prior
    ensures secs != 0 ==> Ticks(ft) == ToLong(secs) * TICKS_PER_SECOND + EPOCH_DIFFERENCE
  {
    if secs != 0 then UnixTimeToFiletime(secs) else prior
  }

  /** `lkl_stat_to_<name>` as a map from the record before the call to the
      record after it; a NULL stat pointer leaves the record as it was. */
  function StatToFindData(st: Option<LklStat>, prior: FindData): (r: FindData)
    ensures st.None? ==> r == prior
    ensures st.Some? ==>
              && (r.attributes & FILE_ATTRIBUTE_DIRECTORY != 0 <==> IsDir(st.value.mode))
              && (r.attributes & FILE_ATTRIBUTE_NORMAL != 0 <==> !IsDir(st.value.mode))
              && (r.attributes & FILE_ATTRIBUTE_READONLY != 0 <==> st.value.mode & S_IWANY == 0)
              && r.attributes & !(FILE_ATTRIBUTE_DIRECTORY | FILE_ATTRIBUTE_NORMAL | FILE_ATTRIBUTE_READONLY) == 0
  {
    match st
    case None => prior
    case Some(s) =>
      var kind := if IsDir(s.mode) then FILE_ATTRIBUTE_DIRECTORY else FILE_ATTRIBUTE_NORMAL;
      FindData(
        if s.mode & S_IWANY == 0 then kind | FILE_ATTRIBUTE_READONLY else kind,
        ToDword(s.size),
        ToDword(s.size / TWO_32),
        StampOrKeep(s.ctime, prior.creation),
        StampOrKeep(s.atime, prior.lastAccess),
        StampOrKeep(s.mtime, prior.lastWrite))
  }

  /** The two size words put back together give the stat size, for every
      size a 64-bit unsigned number holds. */
  lemma SizeSplit(st: LklStat, prior: FindData)
    requires 0 <= st.size < TWO_64
    ensures var r := StatToFindData(Some(st), prior);
            r.sizeHigh * TWO_32 + r.sizeLow == st.size
  {
    var q := st.size / TWO_32;
    assert q < TWO_32;
    assert ToDword(q) == q;
  }

  /** Each timestamp field is overwritten exactly when the matching stat
      time is non-zero (a zero stat time means "unset", not 1970). */
  lemma TimestampsKeptWhenUnset(st: LklStat, prior: FindData)
    ensures var r := StatToFindData(Some(st), prior);
            && (st.ctime == 0 ==> r.creation == prior.creation)
            && (st.atime == 0 ==> r.lastAccess == prior.lastAccess)
            && (st.mtime == 0 ==> r.lastWrite == prior.lastWrite)
            && (st.ctime != 0 ==> r.creation == UnixTimeToFiletime(st.ctime))
            && (st.atime != 0 ==> r.lastAccess == UnixTimeToFiletime(st.atime))
            && (st.mtime != 0 ==> r.lastWrite == UnixTimeToFiletime(st.mtime))
  {
  }

  /** The caller's record, updated field by field in place. */
  class FindDataBuffer {
    var attributes: bv32
    var sizeLow: Dword
    var sizeHigh: Dword
    var creation: FileTime
    var lastAccess: FileTime
    var lastWrite: FileTime

    function Value(): FindData
      reads this
    {
      FindData(attributes, sizeLow, sizeHigh, creation, lastAccess, lastWrite)
    }

    /** A record after `ZeroMemory`. */
    constructor Zeroed()
      ensures Value() == ZeroFindData
    {
      attributes, sizeLow, sizeHigh := 0, 0, 0;
      creation, lastAccess, lastWrite := FileTime(0, 0), FileTime(0, 0), FileTime(0, 0);
    }

    /** The body of `lkl_stat_to_def`, in its order: kind attribute, size
        words, the three timestamps when set, then the read-only bit. */
    method FillFromStat(st: Option<LklStat>)
      modifies this
      ensures Value() == StatToFindData(st, old(Value()))
    {
      if st.None? {
        return;
      }
      var s := st.value;
      if IsDir(s.mode) {
        attributes := FILE_ATTRIBUTE_DIRECTORY;
      } else {
        attributes := FILE_ATTRIBUTE_NORMAL;
      }
      sizeLow := ToDword(s.size);
      sizeHigh := ToDword(s.size / TWO_32);
      if s.ctime != 0 {
        creation := UnixTimeToFiletime(s.ctime);
      }
      if s.atime != 0 {
        lastAccess := UnixTimeToFiletime(s.atime);
      }
      if s.mtime != 0 {
        lastWrite := UnixTimeToFiletime(s.mtime);
      }
      if s.mode & S_IWANY == 0 {
        attributes := attributes | FILE_ATTRIBUTE_READONLY;
      }
    }
  }
}

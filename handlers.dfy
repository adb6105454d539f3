/** The Dokan callbacks of dokany_lkl.c that make at most one kernel call:
    the descriptor handlers with their directory guards, the name-based
    handlers, and `LklGetDiskFreeSpace`. */
module Handlers {
  import opened Types
  import opened Translation
  import opened Paths
  import opened FileTimes
  import opened StatMapping
  import opened Kernel
  import opened DokanInfo

  // ----- handlers on the open descriptor -----

  /** `LklFlushFileBuffers`: nothing to flush for a directory, otherwise
      `fsync` on the descriptor. */
  function FlushSpec(isDirectory: bool, context: int, tape: seq<Answer>): Reply {
    if isDirectory then Reply(Success, [], tape)
    else Single(rc => Fsync(ToLong(context), rc), tape)
  }

  method FlushFileBuffers(k: Lkl, info: FileInfo) returns (status: NtStatus)
    modifies k
    ensures var r := FlushSpec(info.isDirectory, info.context, old(k.answers));
            status == r.status && k.trace == old(k.trace) + r.calls && k.answers == r.tape
  {
    if info.isDirectory {
      return Success;
    }
    var fd := ToLong(info.context);
    var rc := k.SysFsync(fd);
    status := ErrnoToStatus(rc);
  }

  /** `LklSetEndOfFile`: refused for a directory, otherwise `ftruncate` to
      the byte offset. */
  function SetEndOfFileSpec(isDirectory: bool, context: int, byteOffset: int, tape: seq<Answer>): Reply {
    if isDirectory then Reply(InvalidParameter, [], tape)
    else Single(rc => Ftruncate(ToLong(context), byteOffset, rc), tape)
  }

  method SetEndOfFile(k: Lkl, info: FileInfo, byteOffset: int) returns (status: NtStatus)
    modifies k
    ensures var r := SetEndOfFileSpec(info.isDirectory, info.context, byteOffset, old(k.answers));
            status == r.status && k.trace == old(k.trace) + r.calls && k.answers == r.tape
  {
    var fd := ToLong(info.context);
    if info.isDirectory {
      return InvalidParameter;
    }
    var rc := k.SysFtruncate(fd, byteOffset);
    status := ErrnoToStatus(rc);
  }

  /** `LklSetAllocationSize`: refused for a directory, otherwise
      `fallocate(fd, 0, 0, size)`. */
  function SetAllocationSizeSpec(isDirectory: bool, context: int, allocSize: int, tape: seq<Answer>): Reply {
    if isDirectory then Reply(InvalidParameter, [], tape)
    else Single(rc => Fallocate(ToLong(context), 0, 0, allocSize, rc), tape)
  }

  method SetAllocationSize(k: Lkl, info: FileInfo, allocSize: int) returns (status: NtStatus)
    modifies k
    ensures var r := SetAllocationSizeSpec(info.isDirectory, info.context, allocSize, old(k.answers));
            status == r.status && k.trace == old(k.trace) + r.calls && k.answers == r.tape
  {
    var fd := ToLong(info.context);
    if info.isDirectory {
      return InvalidParameter;
    }
    var rc := k.SysFallocate(fd, 0, 0, allocSize);
    status := ErrnoToStatus(rc);
  }

  /** The directory guards: on a directory, flush succeeds and the two size
      handlers are refused, all three without touching the kernel. On
      anything else each makes exactly one call on the descriptor the
      context holds, and succeeds exactly when that call returns 0. */
  lemma DescriptorGuards(isDirectory: bool, context: int, n: int, tape: seq<Answer>)
    ensures var f := FlushSpec(isDirectory, context, tape);
            var e := SetEndOfFileSpec(isDirectory, context, n, tape);
            var a := SetAllocationSizeSpec(isDirectory, context, n, tape);
            var rc := Peek(tape).rc;
            var fd := ToLong(context);
            && (isDirectory ==>
                  && f == Reply(Success, [], tape)
                  && e == Reply(InvalidParameter, [], tape)
                  && a == Reply(InvalidParameter, [], tape))
            && (!isDirectory ==>
                  && f.calls == [Fsync(fd, rc)]
                  && e.calls == [Ftruncate(fd, n, rc)]
                  && a.calls == [Fallocate(fd, 0, 0, n, rc)]
                  && f.tape == e.tape == a.tape == Rest(tape)
                  && (f.status == Success <==> rc == 0)
                  && f.status == e.status == a.status)
  {
  }

  // ----- handlers on a name -----

  /** A handler that decodes one name and makes one kernel call on it. */
  function PathCall(utf8: Option<Text>, call: (Text, int) -> Call, tape: seq<Answer>): Reply {
    match DecodedPath(utf8)
    case None => Reply(InsufficientResources, [], tape)
    case Some(p) => Single(rc => call(p, rc), tape)
  }

  /** `LklDeleteFile`. */
  method DeleteFile(k: Lkl, utf8: Option<Text>) returns (status: NtStatus)
    modifies k
    ensures var r := PathCall(utf8, (p: Text, rc: int) => Unlink(p, rc), old(k.answers));
            status == r.status && k.trace == old(k.trace) + r.calls && k.answers == r.tape
  {
    var path := DecodePath(utf8);
    if path.None? {
      return InsufficientResources;
    }
    var rc := k.SysUnlink(path.value);
    status := ErrnoToStatus(rc);
  }

  /** `LklDeleteDirectory`. */
  method DeleteDirectory(k: Lkl, utf8: Option<Text>) returns (status: NtStatus)
    modifies k
    ensures var r := PathCall(utf8, (p: Text, rc: int) => Rmdir(p, rc), old(k.answers));
            status == r.status && k.trace == old(k.trace) + r.calls && k.answers == r.tape
  {
    var path := DecodePath(utf8);
    if path.None? {
      return InsufficientResources;
    }
    var rc := k.SysRmdir(path.value);
    status := ErrnoToStatus(rc);
  }

  /** A name handler either fails on the conversion without a kernel call,
      or makes exactly one call on the name in Unix form and returns that
      call's translated result. */
  lemma PathCallOutcome(utf8: Option<Text>, call: (Text, int) -> Call, tape: seq<Answer>)
    ensures var r := PathCall(utf8, call, tape);
            && (utf8.None? ==> r == Reply(InsufficientResources, [], tape))
            && (utf8.Some? ==>
                  var rc := Peek(tape).rc;
                  && r.calls == [call(UnixForm(utf8.value), rc)]
                  && r.status == ErrnoToStatus(rc)
                  && r.tape == Rest(tape))
  {
  }

  /** The two name buffers `LklMoveFile` allocates. */
  datatype NameBuffer = SourceName | TargetName

  /** The buffers that exist: one per conversion that succeeded. */
  function MoveAllocated(from: Option<Text>, to: Option<Text>): (m: multiset<NameBuffer>)
    ensures SourceName in m <==> from.Some?
    ensures TargetName in m <==> to.Some?
  {
    (if from.Some? then multiset{SourceName} else multiset{}) +
    (if to.Some? then multiset{TargetName} else multiset{})
  }

  /** The buffers `LklMoveFile` hands to `free_char_buf` as written: the
      second release, guarded by the target buffer, frees the source
      buffer again. */
  function MoveReleasedAsWritten(from: Option<Text>, to: Option<Text>): multiset<NameBuffer> {
    (if from.Some? then multiset{SourceName} else multiset{}) +
    (if to.Some? then multiset{SourceName} else multiset{})
  }

  /** The release the cleanup code intends: each buffer freed by its own
      guard. */
  function MoveReleased(from: Option<Text>, to: Option<Text>): multiset<NameBuffer> {
    (if from.Some? then multiset{SourceName} else multiset{}) +
    (if to.Some? then multiset{TargetName} else multiset{})
  }

  /** As written, whenever both names convert the source buffer is freed
      twice and the target buffer never: a double free and a leak on every
      successful rename request. */
  lemma MoveFileDoubleFree(from: Text, to: Text)
    ensures MoveReleasedAsWritten(Some(from), Some(to))[SourceName] == 2
    ensures MoveReleasedAsWritten(Some(from), Some(to))[TargetName] == 0
    ensures MoveAllocated(Some(from), Some(to))[TargetName] == 1
  {
  }

  /** With the intended guards every allocated buffer is freed exactly once
      and nothing else is freed. */
  lemma MoveFileReleasesOnce(from: Option<Text>, to: Option<Text>)
    ensures MoveReleased(from, to) == MoveAllocated(from, to)
    ensures forall b :: MoveReleased(from, to)[b] <= 1
  {
    forall b
      ensures MoveReleased(from, to)[b] <= 1
    {
      if b == SourceName {
        assert MoveReleased(from, to)[b] == (if from.Some? then 1 else 0);
      } else {
        assert MoveReleased(from, to)[b] == (if to.Some? then 1 else 0);
      }
    }
  }

  /** `LklMoveFile`: both names are converted first; if either conversion
      failed no call is made. `ReplaceIfExisting` is not consulted, so the
      kernel's `rename` always replaces an existing target. */
  function MoveSpec(from: Option<Text>, to: Option<Text>, tape: seq<Answer>): Reply {
    if DecodedPath(from).None? || DecodedPath(to).None? then Reply(InsufficientResources, [], tape)
    else Single(rc => Rename(DecodedPath(from).value, DecodedPath(to).value, rc), tape)
  }

  /** The handler; `released` lists the buffers its exit path hands to
      `free_char_buf`, as written: the source buffer under each guard. */
  method MoveFile(k: Lkl, from: Option<Text>, to: Option<Text>, replaceIfExisting: bool)
    returns (status: NtStatus, released: multiset<NameBuffer>)
    modifies k
    ensures var r := MoveSpec(from, to, old(k.answers));
            status == r.status && k.trace == old(k.trace) + r.calls && k.answers == r.tape
    ensures released == MoveReleasedAsWritten(from, to)
    ensures released[SourceName] == MoveAllocated(from, to)[SourceName] + MoveAllocated(from, to)[TargetName]
    ensures released[TargetName] == 0
  {
    var source := DecodePath(from);
    var target := DecodePath(to);
    if source.None? || target.None? {
      status := InsufficientResources;
    } else {
      var rc := k.SysRename(source.value, target.value);
      status := ErrnoToStatus(rc);
    }
    released := multiset{};
    if source.Some? {
      released := released + multiset{SourceName};
    }
    if target.Some? {
      released := released + multiset{SourceName};
    }
  }

  /** A rename is attempted exactly when both names convert, on the two
      names in Unix form, and its result is translated. */
  lemma MoveOutcome(from: Option<Text>, to: Option<Text>, tape: seq<Answer>)
    ensures var r := MoveSpec(from, to, tape);
            && (from.None? || to.None? ==> r == Reply(InsufficientResources, [], tape))
            && (from.Some? && to.Some? ==>
                  var rc := Peek(tape).rc;
                  && r.calls == [Rename(UnixForm(from.value), UnixForm(to.value), rc)]
                  && r.status == ErrnoToStatus(rc))
  {
  }

  // ----- attributes and times -----

  const FILE_ATTRIBUTE_TEMPORARY: bv32 := 0x100
  /** `S_IRUSR | S_IRGRP | S_IROTH`: 0444. */
  const READ_ONLY_MODE: bv32 := 0x124

  /** `LklSetFileAttributes`. Exactly `FILE_ATTRIBUTE_NORMAL` restores mode
      0755. Otherwise the read-only bit sets mode 0444, and the temporary bit
      makes the handler report "not implemented" (after any chmod). Every
      other attribute is accepted and ignored. */
  function SetAttributesSpec(utf8: Option<Text>, attributes: bv32, tape: seq<Answer>): Reply {
    match DecodedPath(utf8)
    case None => Reply(InsufficientResources, [], tape)
    case Some(p) =>
      if attributes == FILE_ATTRIBUTE_NORMAL then Single(rc => Chmod(p, DEFAULT_MODE, rc), tape)
      else
        var ro := if attributes & FILE_ATTRIBUTE_READONLY == FILE_ATTRIBUTE_READONLY
                  then Single(rc => Chmod(p, READ_ONLY_MODE, rc), tape)
                  else Reply(Success, [], tape);
        if attributes & FILE_ATTRIBUTE_TEMPORARY == FILE_ATTRIBUTE_TEMPORARY then ro.(status := NotImplemented)
        else ro
  }

  method SetFileAttributes(k: Lkl, utf8: Option<Text>, attributes: bv32) returns (status: NtStatus)
    modifies k
    ensures var r := SetAttributesSpec(utf8, attributes, old(k.answers));
            status == r.status && k.trace == old(k.trace) + r.calls && k.answers == r.tape
  {
    var path := DecodePath(utf8);
    if path.None? {
      return InsufficientResources;
    }
    status := Success;
    if attributes == FILE_ATTRIBUTE_NORMAL {
      var rc := k.SysChmod(path.value, DEFAULT_MODE);
      status := ErrnoToStatus(rc);
    } else {
      if attributes & FILE_ATTRIBUTE_READONLY == FILE_ATTRIBUTE_READONLY {
        var rc := k.SysChmod(path.value, READ_ONLY_MODE);
        status := ErrnoToStatus(rc);
      }
      if attributes & FILE_ATTRIBUTE_TEMPORARY == FILE_ATTRIBUTE_TEMPORARY {
        status := NotImplemented;
      }
    }
  }

  /** What each attribute value does: at most one `chmod`, with mode 0755
      exactly for `FILE_ATTRIBUTE_NORMAL` alone and 0444 exactly when the
      read-only bit is set in any other value; the temporary bit always
      reports "not implemented"; any other value changes nothing and
      succeeds. */
  lemma SetAttributesOutcome(t: Text, attributes: bv32, tape: seq<Answer>)
    ensures var r := SetAttributesSpec(Some(t), attributes, tape);
            var p := UnixForm(t);
            var rc := Peek(tape).rc;
            var readOnly := attributes & FILE_ATTRIBUTE_READONLY == FILE_ATTRIBUTE_READONLY;
            var temporary := attributes & FILE_ATTRIBUTE_TEMPORARY == FILE_ATTRIBUTE_TEMPORARY;
            && |r.calls| <= 1
            && (attributes == FILE_ATTRIBUTE_NORMAL ==>
                  r.calls == [Chmod(p, DEFAULT_MODE, rc)] && r.status == ErrnoToStatus(rc))
            && (attributes != FILE_ATTRIBUTE_NORMAL ==>
                  && (r.calls == [Chmod(p, READ_ONLY_MODE, rc)] <==> readOnly)
                  && (r.calls == [] <==> !readOnly)
                  && (temporary ==> r.status == NotImplemented)
                  && (!temporary && readOnly ==> r.status == ErrnoToStatus(rc))
                  && (!temporary && !readOnly ==> r.status == Success))
  {
  }

  /** The partner of the attribute handler: a file whose permission bits
      are the mode `chmod` was given reads back through the stat mapping as
      read-only after 0444 and as writable after 0755. */
  lemma ReadOnlyReadsBack(st: LklStat)
    ensures st.mode & 0xFFF == READ_ONLY_MODE ==>
              StatToFindData(Some(st), ZeroFindData).attributes & FILE_ATTRIBUTE_READONLY != 0
    ensures st.mode & 0xFFF == DEFAULT_MODE ==>
              StatToFindData(Some(st), ZeroFindData).attributes & FILE_ATTRIBUTE_READONLY == 0
  {
    if st.mode & 0xFFF == READ_ONLY_MODE {
      assert st.mode & S_IWANY == (st.mode & 0xFFF) & S_IWANY;
    }
    if st.mode & 0xFFF == DEFAULT_MODE {
      assert st.mode & S_IWANY == (st.mode & 0xFFF) & S_IWANY;
    }
  }

  /** `LKL_UTIME_OMIT`: (1 << 30) - 2. */
  const UTIME_OMIT := 1073741822
  const AT_SYMLINK_NOFOLLOW: bv32 := 0x100

  /** One element of the timespec pair: a NULL pointer leaves the time
      alone, anything else, even an all-zero FILETIME, sets it to the
      converted whole seconds. */
  function TimeFor(ft: Option<FileTime>): (ts: Timespec)
    ensures ft.None? ==> ts == Timespec(0, UTIME_OMIT)
    ensures ft.Some? ==> ts.nsec == 0 && ts.sec == FiletimeToUnixtime(ft)
  {
    if ft.None? then Timespec(0, UTIME_OMIT) else Timespec(FiletimeToUnixtime(ft), 0)
  }

  /** `LklSetFileTime`: one `utimensat(-1, path, [access, write],
      AT_SYMLINK_NOFOLLOW)`. The creation time is not used. */
  function SetFileTimeSpec(utf8: Option<Text>, access: Option<FileTime>, write: Option<FileTime>, tape: seq<Answer>): Reply {
    PathCall(utf8, (p: Text, rc: int) => Utimensat(-1, p, [TimeFor(access), TimeFor(write)], AT_SYMLINK_NOFOLLOW, rc), tape)
  }

  method SetFileTime(k: Lkl, utf8: Option<Text>, creation: Option<FileTime>, access: Option<FileTime>, write: Option<FileTime>)
    returns (status: NtStatus)
    modifies k
    ensures var r := SetFileTimeSpec(utf8, access, write, old(k.answers));
            status == r.status && k.trace == old(k.trace) + r.calls && k.answers == r.tape
  {
    var path := DecodePath(utf8);
    if path.None? {
      return InsufficientResources;
    }
    var ts := [Timespec(0, UTIME_OMIT), Timespec(0, UTIME_OMIT)];
    if access.Some? {
      ts := ts[0 := Timespec(FiletimeToUnixtime(access), 0)];
    }
    if write.Some? {
      ts := ts[1 := Timespec(FiletimeToUnixtime(write), 0)];
    }
    assert ts == [TimeFor(access), TimeFor(write)];
    var rc := k.SysUtimensat(-1, path.value, ts, AT_SYMLINK_NOFOLLOW);
    status := ErrnoToStatus(rc);
  }

  /** The times `LklSetFileTime` passes: both NULL gives the omit sentinel
      twice; a FILETIME made from a Unix time in range comes back as that
      time; and an all-zero FILETIME is not "unset" here but sets the time
      to 0 (1970). */
  lemma SetFileTimeValues(t: Text, a: int, w: int, tape: seq<Answer>)
    requires 0 <= a < 0x8000_0000 && 0 <= w < 0x8000_0000
    ensures SetFileTimeSpec(Some(t), None, None, tape).calls ==
            [Utimensat(-1, UnixForm(t), [Timespec(0, UTIME_OMIT), Timespec(0, UTIME_OMIT)], AT_SYMLINK_NOFOLLOW, Peek(tape).rc)]
    ensures SetFileTimeSpec(Some(t), Some(UnixTimeToFiletime(a)), Some(UnixTimeToFiletime(w)), tape).calls ==
            [Utimensat(-1, UnixForm(t), [Timespec(a, 0), Timespec(w, 0)], AT_SYMLINK_NOFOLLOW, Peek(tape).rc)]
    ensures TimeFor(Some(FileTime(0, 0))) == Timespec(0, 0)
  {
    FiletimeRoundTrip(a);
    FiletimeRoundTrip(w);
  }

  // ----- free space -----

  /** `lkl_mount_point_final`: the kernel's root after `chroot`. */
  const ROOT: Text := [SLASH]

  /** What `LklGetDiskFreeSpace` stores through its three pointers (None
      where the pointer is NULL or nothing is stored). */
  datatype Space = Space(
    status: NtStatus,
    freeBytesAvailable: Option<int>,
    totalBytes: Option<int>,
    totalFreeBytes: Option<int>,
    calls: seq<Call>,
    tape: seq<Answer>)

  /** A block count times the block size, stored in a `ULONGLONG`. */
  function Bytes(blocks: int, blockSize: int): (n: int)
    ensures 0 <= n < TWO_64
    ensures 0 <= blocks * blockSize < TWO_64 ==> n == blocks * blockSize
  {
    (blocks * blockSize) % TWO_64
  }

  /** The handler on a tape: `statfs("/")`; on failure nothing is stored,
      otherwise each requested quantity is a block count times the block
      size, narrowed to a `LONG`. */
  function DiskFreeSpaceSpec(wantAvailable: bool, wantTotal: bool, wantFree: bool, tape: seq<Answer>): Space {
    var a := Peek(tape);
    var calls := [Statfs(ROOT, a.rc, a.statfs)];
    if ErrnoToStatus(a.rc) != Success then Space(ErrnoToStatus(a.rc), None, None, None, calls, Rest(tape))
    else
      var block := ToLong(a.statfs.bsize);
      Space(
        Success,
        if wantAvailable then Some(Bytes(a.statfs.bavail, block)) else None,
        if wantTotal then Some(Bytes(a.statfs.blocks, block)) else None,
        if wantFree then Some(Bytes(a.statfs.bfree, block)) else None,
        calls, Rest(tape))
  }

  method GetDiskFreeSpace(k: Lkl, wantAvailable: bool, wantTotal: bool, wantFree: bool)
    returns (status: NtStatus, available: Option<int>, total: Option<int>, free: Option<int>)
    modifies k
    ensures var s := DiskFreeSpaceSpec(wantAvailable, wantTotal, wantFree, old(k.answers));
            && status == s.status
            && available == s.freeBytesAvailable && total == s.totalBytes && free == s.totalFreeBytes
            && k.trace == old(k.trace) + s.calls && k.answers == s.tape
  {
    available, total, free := None, None, None;
    var rc, fs := k.SysStatfs(ROOT);
    status := ErrnoToStatus(rc);
    if status != Success {
      return;
    }
    var blockSize := ToLong(fs.bsize);
    if wantAvailable {
      available := Some(Bytes(fs.bavail, blockSize));
    }
    if wantTotal {
      total := Some(Bytes(fs.blocks, blockSize));
    }
    if wantFree {
      free := Some(Bytes(fs.bfree, blockSize));
    }
  }

  /** Free space is reported exactly when `statfs` succeeds, and only
      through the pointers that were given. */
  lemma DiskFreeSpaceReported(wantAvailable: bool, wantTotal: bool, wantFree: bool, tape: seq<Answer>)
    ensures var s := DiskFreeSpaceSpec(wantAvailable, wantTotal, wantFree, tape);
            var rc := Peek(tape).rc;
            && s.calls == [Statfs(ROOT, rc, Peek(tape).statfs)]
            && (s.status == Success <==> rc == 0)
            && (s.freeBytesAvailable.Some? <==> rc == 0 && wantAvailable)
            && (s.totalBytes.Some? <==> rc == 0 && wantTotal)
            && (s.totalFreeBytes.Some? <==> rc == 0 && wantFree)
  {
  }

  /** For every block size a `LONG` holds and every count whose byte total
      fits 64 bits, the reported numbers are the exact products, so the
      available bytes never exceed the total when the block counts do not. */
  lemma DiskFreeSpaceExact(tape: seq<Answer>)
    requires Peek(tape).rc == 0
    requires var fs := Peek(tape).statfs;
             && 0 < fs.bsize < 0x8000_0000
             && 0 <= fs.bavail <= fs.blocks
             && fs.blocks * fs.bsize < TWO_64
    ensures var s := DiskFreeSpaceSpec(true, true, true, tape);
            var fs := Peek(tape).statfs;
            && s.totalBytes == Some(fs.blocks * fs.bsize)
            && s.freeBytesAvailable == Some(fs.bavail * fs.bsize)
            && s.freeBytesAvailable.value <= s.totalBytes.value
  {
    var fs := Peek(tape).statfs;
    assert ToLong(fs.bsize) == fs.bsize;
    MulMonotone(fs.bavail, fs.blocks, fs.bsize);
  }

  lemma MulMonotone(x: int, y: int, b: int)
    requires 0 <= x <= y && 0 < b
    ensures 0 <= x * b <= y * b
  {
  }

  /** 1000 available blocks of 4096 bytes are reported as 4 096 000 bytes. */
  lemma DiskFreeSpaceExample()
    ensures var tape := [Answer(0, ZeroStat, LklStatFs(4096, 2000, 1500, 1000), None, [])];
            DiskFreeSpaceSpec(true, true, true, tape).freeBytesAvailable == Some(4096000)
  {
    var tape := [Answer(0, ZeroStat, LklStatFs(4096, 2000, 1500, 1000), None, [])];
    assert Peek(tape).statfs.bsize == 4096;
    assert ToLong(4096) == 4096;
  }
}

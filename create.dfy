/** `LklCreateFile`, `LklCloseFile` and `LklCleanup` of dokany_lkl.c: opening
    a name on the LKL file system and releasing the descriptor again. */
module Create {
  import opened Types
  import opened Translation
  import opened Paths
  import opened StatMapping
  import opened Kernel
  import opened DokanInfo

  /** `CreateDisposition` values. */
  const FILE_SUPERSEDE := 0
  const FILE_OPEN := 1
  const FILE_CREATE := 2
  const FILE_OPEN_IF := 3
  const FILE_OVERWRITE := 4
  const FILE_OVERWRITE_IF := 5

  /** `CreateOptions` bits. */
  const FILE_DIRECTORY_FILE: bv32 := 0x1
  const FILE_NON_DIRECTORY_FILE: bv32 := 0x40

  /** `LKL_O_EXCL` (0200); `LklCreateFile` never passes it. */
  const O_EXCL: bv32 := 0x80

  /** What `LklCreateFile` leaves behind: its status, the `IsDirectory` and
      `Context` values it stored (None where it stored nothing), the kernel
      calls it made and the unread tape. */
  datatype Created = Created(
    status: NtStatus,
    isDirectory: Option<bool>,
    context: Option<int>,
    calls: seq<Call>,
    tape: seq<Answer>)

  /** Whether the disposition takes the creating branch. */
  predicate Creates(disposition: int) {
    disposition == FILE_CREATE || disposition == FILE_OPEN_IF
  }

  /** The final `lkl_sys_open`: a non-negative result is the descriptor and
      becomes the context. */
  function OpenStep(p: Text, flags: bv32, isDirectory: Option<bool>, before: seq<Call>, tape: seq<Answer>): Created {
    var rc := Peek(tape).rc;
    Created(
      if rc < 0 then ErrnoToStatus(rc) else Success,
      isDirectory,
      if rc < 0 then None else Some(rc),
      before + [Open(p, flags, DEFAULT_MODE, rc)],
      Rest(tape))
  }

  /** The directory branch: `mkdir` with mode 0755, then an `O_DIRECTORY`
      open unless `mkdir` failed with anything but "exists", or failed with
      "exists" under a disposition other than `FILE_CREATE`. */
  function MkdirBranch(p: Text, disposition: int, tape: seq<Answer>): Created {
    var rc := Peek(tape).rc;
    var status := ErrnoToStatus(rc);
    var mkdir := [Mkdir(p, DEFAULT_MODE, rc)];
    if (status != Success && rc != -EEXIST) || (rc == -EEXIST && disposition != FILE_CREATE) then
      Created(status, None, None, mkdir, Rest(tape))
    else
      OpenStep(p, O_DIRECTORY, Some(true), mkdir, Rest(tape))
  }

  /** The lookup branch: `lstat`, then an open chosen by the file type. */
  function LstatBranch(p: Text, flags: bv32, options: bv32, tape: seq<Answer>): Created {
    var a := Peek(tape);
    var lstat := [Lstat(p, a.rc, a.stat)];
    if ErrnoToStatus(a.rc) != Success then
      Created(ErrnoToStatus(a.rc), None, None, lstat, Rest(tape))
    else
      var dir := IsDir(a.stat.mode);
      if options & FILE_NON_DIRECTORY_FILE == FILE_NON_DIRECTORY_FILE && dir then
        Created(FileIsADirectory, Some(true), None, lstat, Rest(tape))
      else
        OpenStep(p, if dir then O_DIRECTORY else flags, Some(dir), lstat, Rest(tape))
  }

  /** `LklCreateFile` on a tape of kernel replies. */
  function CreateSpec(utf8: Option<Text>, access: bv32, disposition: int, options: bv32, tape: seq<Answer>): Created {
    var flags := ConvertFlags(access) | O_LARGEFILE;
    match DecodedPath(utf8)
    case None => Created(InsufficientResources, None, None, [], tape)
    case Some(p) =>
      if Creates(disposition) then
        if options & FILE_DIRECTORY_FILE != FILE_DIRECTORY_FILE then
          OpenStep(p, flags | O_CREAT, Some(false), [], tape)
        else
          MkdirBranch(p, disposition, tape)
      else
        LstatBranch(p, flags, options, tape)
  }

  /** The file info after the handler: the fields `c` names are stored, the
      others keep their earlier values. */
  predicate Stored(c: Created, info: FileInfo, isDirectory: bool, context: int, deleteOnClose: bool)
    reads info
  {
    && info.isDirectory == (if c.isDirectory.Some? then c.isDirectory.value else isDirectory)
    && info.context == (if c.context.Some? then c.context.value else context)
    && info.deleteOnClose == deleteOnClose
  }

  /** The final open, storing the descriptor on success. */
  method OpenAndStore(k: Lkl, info: FileInfo, p: Text, flags: bv32) returns (status: NtStatus)
    modifies k, info
    ensures var rc := Peek(old(k.answers)).rc;
            && status == (if rc < 0 then ErrnoToStatus(rc) else Success)
            && info.context == (if rc < 0 then old(info.context) else rc)
            && info.isDirectory == old(info.isDirectory) && info.deleteOnClose == old(info.deleteOnClose)
            && k.trace == old(k.trace) + [Open(p, flags, DEFAULT_MODE, rc)]
            && k.answers == Rest(old(k.answers))
  {
    var rc := k.SysOpen(p, flags, DEFAULT_MODE);
    if rc < 0 {
      status := ErrnoToStatus(rc);
    } else {
      status := Success;
      info.context := rc;
    }
  }

  /** The directory branch of the handler. */
  method MakeDirectory(k: Lkl, info: FileInfo, p: Text, disposition: int) returns (status: NtStatus)
    modifies k, info
    ensures var c := MkdirBranch(p, disposition, old(k.answers));
            && status == c.status
            && Stored(c, info, old(info.isDirectory), old(info.context), old(info.deleteOnClose))
            && k.trace == old(k.trace) + c.calls
            && k.answers == c.tape
  {
    ghost var t0 := k.trace;
    var rc := k.SysMkdir(p, DEFAULT_MODE);
    status := ErrnoToStatus(rc);
    if status != Success && rc != -EEXIST {
      return;
    }
    if rc == -EEXIST && disposition != FILE_CREATE {
      return;
    }
    info.isDirectory := true;
    ghost var tape := k.answers;
    status := OpenAndStore(k, info, p, O_DIRECTORY);
    AppendAssoc(t0, [Mkdir(p, DEFAULT_MODE, rc)], [Open(p, O_DIRECTORY, DEFAULT_MODE, Peek(tape).rc)]);
  }

  /** The lookup branch of the handler. */
  method LookUp(k: Lkl, info: FileInfo, p: Text, flags: bv32, options: bv32) returns (status: NtStatus)
    modifies k, info
    ensures var c := LstatBranch(p, flags, options, old(k.answers));
            && status == c.status
            && Stored(c, info, old(info.isDirectory), old(info.context), old(info.deleteOnClose))
            && k.trace == old(k.trace) + c.calls
            && k.answers == c.tape
  {
    ghost var t0 := k.trace;
    ghost var spec := LstatBranch(p, flags, options, k.answers);
    var rc, st := k.SysLstat(p);
    status := ErrnoToStatus(rc);
    if status != Success {
      assert spec == Created(status, None, None, [Lstat(p, rc, st)], k.answers);
      return;
    }
    var dir := IsDir(st.mode);
    var openFlags := if dir then O_DIRECTORY else flags;
    info.isDirectory := dir;
    if options & FILE_NON_DIRECTORY_FILE == FILE_NON_DIRECTORY_FILE && dir {
      assert spec == Created(FileIsADirectory, Some(true), None, [Lstat(p, rc, st)], k.answers);
      return FileIsADirectory;
    }
    ghost var tape := k.answers;
    assert spec == OpenStep(p, openFlags, Some(dir), [Lstat(p, rc, st)], tape);
    status := OpenAndStore(k, info, p, openFlags);
    AppendAssoc(t0, [Lstat(p, rc, st)], [Open(p, openFlags, DEFAULT_MODE, Peek(tape).rc)]);
  }

  /** The handler. The security context, file attributes and share access
      arguments are not read by the source and are not parameters here. */
  method CreateFile(k: Lkl, info: FileInfo, utf8: Option<Text>, access: bv32, disposition: int, options: bv32)
    returns (status: NtStatus)
    modifies k, info
    ensures var c := CreateSpec(utf8, access, disposition, options, old(k.answers));
            && status == c.status
            && Stored(c, info, old(info.isDirectory), old(info.context), old(info.deleteOnClose))
            && k.trace == old(k.trace) + c.calls
            && k.answers == c.tape
  {
    var flags := ConvertFlags(access) | O_LARGEFILE;
    var path := DecodePath(utf8);
    if path.None? {
      return InsufficientResources;
    }
    var p := path.value;
    if disposition == FILE_CREATE || disposition == FILE_OPEN_IF {
      if options & FILE_DIRECTORY_FILE != FILE_DIRECTORY_FILE {
        info.isDirectory := false;
        status := OpenAndStore(k, info, p, flags | O_CREAT);
      } else {
        status := MakeDirectory(k, info, p, disposition);
      }
    } else {
      status := LookUp(k, info, p, flags, options);
    }
  }

  /** A name that does not convert is refused before any kernel call, and
      nothing is stored in the file info. */
  lemma CreateDecodeFailure(access: bv32, disposition: int, options: bv32, tape: seq<Answer>)
    ensures var c := CreateSpec(None, access, disposition, options, tape);
            c == Created(InsufficientResources, None, None, [], tape)
  {
  }

  /** Every status the handler returns is Success exactly when it stored a
      descriptor, and a stored descriptor is the non-negative result of an
      `open` that was the handler's last kernel call. */
  lemma CreateContextOnSuccess(utf8: Option<Text>, access: bv32, disposition: int, options: bv32, tape: seq<Answer>)
    ensures var c := CreateSpec(utf8, access, disposition, options, tape);
            && (c.status == Success <==> c.context.Some?)
            && (c.context.Some? ==>
                  && |c.calls| > 0
                  && c.calls[|c.calls| - 1].Open?
                  && c.calls[|c.calls| - 1].rc == c.context.value >= 0
                  && c.isDirectory.Some?)
  {
    match DecodedPath(utf8)
    case None =>
    case Some(p) =>
      var flags := ConvertFlags(access) | O_LARGEFILE;
      var c := CreateSpec(utf8, access, disposition, options, tape);
      if !Creates(disposition) {
        LstatAgrees(p, flags, options, tape);
        assert c == LstatBranch(p, flags, options, tape);
      } else if options & FILE_DIRECTORY_FILE == FILE_DIRECTORY_FILE {
        MkdirAgrees(p, disposition, tape);
        assert c == MkdirBranch(p, disposition, tape);
      } else {
        OpenStepAgrees(p, flags | O_CREAT, Some(false), [], tape);
        assert c == OpenStep(p, flags | O_CREAT, Some(false), [], tape);
      }
      assert ContextAgrees(c);
  }

  /** A handler outcome stores a descriptor exactly when it succeeds, and
      that descriptor is the result of its last call, an open. */
  predicate ContextAgrees(c: Created) {
    && (c.status == Success <==> c.context.Some?)
    && (c.context.Some? ==>
          && |c.calls| > 0
          && c.calls[|c.calls| - 1].Open?
          && c.calls[|c.calls| - 1].rc == c.context.value >= 0
          && c.isDirectory.Some?)
  }

  lemma OpenStepAgrees(p: Text, flags: bv32, isDirectory: Option<bool>, before: seq<Call>, tape: seq<Answer>)
    requires isDirectory.Some?
    ensures ContextAgrees(OpenStep(p, flags, isDirectory, before, tape))
  {
  }

  lemma MkdirAgrees(p: Text, disposition: int, tape: seq<Answer>)
    ensures ContextAgrees(MkdirBranch(p, disposition, tape))
  {
    var rc := Peek(tape).rc;
    if (ErrnoToStatus(rc) != Success && rc != -EEXIST) || (rc == -EEXIST && disposition != FILE_CREATE) {
      assert ErrnoToStatus(rc) != Success;
    } else {
      OpenStepAgrees(p, O_DIRECTORY, Some(true), [Mkdir(p, DEFAULT_MODE, rc)], Rest(tape));
    }
  }

  lemma LstatAgrees(p: Text, flags: bv32, options: bv32, tape: seq<Answer>)
    ensures ContextAgrees(LstatBranch(p, flags, options, tape))
  {
    var a := Peek(tape);
    if ErrnoToStatus(a.rc) == Success {
      var dir := IsDir(a.stat.mode);
      if !(options & FILE_NON_DIRECTORY_FILE == FILE_NON_DIRECTORY_FILE && dir) {
        OpenStepAgrees(p, if dir then O_DIRECTORY else flags, Some(dir), [Lstat(p, a.rc, a.stat)], Rest(tape));
      }
    }
  }

  /** Opening an existing name (`FILE_OPEN`, `FILE_OVERWRITE`, ...) looks the
      name up with `lstat` first. A failed lookup ends the handler with the
      translated error; a directory asked for as a non-directory is refused;
      otherwise a directory is opened with `O_DIRECTORY` alone and anything
      else with the access mode and `O_LARGEFILE`, without `O_CREAT`. */
  lemma CreateOpenExisting(t: Text, access: bv32, disposition: int, options: bv32, tape: seq<Answer>)
    requires !Creates(disposition)
    ensures var c := CreateSpec(Some(t), access, disposition, options, tape);
            var p := UnixForm(t);
            var a := Peek(tape);
            var dir := IsDir(a.stat.mode);
            && |c.calls| >= 1
            && c.calls[0] == Lstat(p, a.rc, a.stat)
            && (a.rc != 0 ==> c.status == ErrnoToStatus(a.rc) != Success && |c.calls| == 1 && c.isDirectory.None?)
            && (a.rc == 0 && dir && options & FILE_NON_DIRECTORY_FILE == FILE_NON_DIRECTORY_FILE ==>
                  c.status == FileIsADirectory && |c.calls| == 1 && c.isDirectory == Some(true))
            && (a.rc == 0 && !(dir && options & FILE_NON_DIRECTORY_FILE == FILE_NON_DIRECTORY_FILE) ==>
                  && |c.calls| == 2
                  && c.calls[1].Open?
                  && c.calls[1].path == p
                  && c.calls[1].flags == (if dir then O_DIRECTORY else ConvertFlags(access) | O_LARGEFILE)
                  && c.calls[1].flags & O_CREAT == 0
                  && c.isDirectory == Some(dir))
  {
    var a := Peek(tape);
    var f := ConvertFlags(access) | O_LARGEFILE;
    assert f & O_CREAT == 0;
  }

  /** Creating a directory (`FILE_CREATE` or `FILE_OPEN_IF` with
      `FILE_DIRECTORY_FILE`) calls `mkdir` with mode 0755. Any failure but
      "exists" ends the handler. "Exists" ends it with a name collision
      unless the disposition is `FILE_CREATE`, in which case the existing
      directory is opened: the code's policy is the reverse of the usual
      create-new / open-if meaning. */
  lemma CreateDirectory(t: Text, access: bv32, disposition: int, options: bv32, tape: seq<Answer>)
    requires Creates(disposition)
    requires options & FILE_DIRECTORY_FILE == FILE_DIRECTORY_FILE
    ensures var c := CreateSpec(Some(t), access, disposition, options, tape);
            var p := UnixForm(t);
            var rc := Peek(tape).rc;
            && |c.calls| >= 1
            && c.calls[0] == Mkdir(p, DEFAULT_MODE, rc)
            && (rc != 0 && rc != -EEXIST ==> c.status == ErrnoToStatus(rc) != Success && |c.calls| == 1)
            && (rc == -EEXIST && disposition == FILE_OPEN_IF ==> c.status == ObjectNameCollision && |c.calls| == 1)
            && (rc == 0 || (rc == -EEXIST && disposition == FILE_CREATE) ==>
                  && |c.calls| == 2
                  && c.calls[1].Open?
                  && c.calls[1] == Open(p, O_DIRECTORY, DEFAULT_MODE, Peek(Rest(tape)).rc)
                  && c.isDirectory == Some(true))
  {
  }

  /** Creating a file (`FILE_CREATE` or `FILE_OPEN_IF` without
      `FILE_DIRECTORY_FILE`) is a single `open` with `O_CREAT` but without
      `O_EXCL`, so `FILE_CREATE` on an existing file opens it. */
  lemma CreateRegular(t: Text, access: bv32, disposition: int, options: bv32, tape: seq<Answer>)
    requires Creates(disposition)
    requires options & FILE_DIRECTORY_FILE != FILE_DIRECTORY_FILE
    ensures var c := CreateSpec(Some(t), access, disposition, options, tape);
            var rc := Peek(tape).rc;
            var flags := ConvertFlags(access) | O_LARGEFILE | O_CREAT;
            && c.calls == [Open(UnixForm(t), flags, DEFAULT_MODE, rc)]
            && flags & O_EXCL == 0
            && c.isDirectory == Some(false)
            && (rc >= 0 ==> c.status == Success && c.context == Some(rc))
  {
    var flags := ConvertFlags(access) | O_LARGEFILE | O_CREAT;
    assert flags & O_EXCL == 0;
  }

  /** `LklCloseFile`: forgets the descriptor without closing it. */
  method CloseFile(info: FileInfo)
    modifies info
    ensures info.context == 0
    ensures info.isDirectory == old(info.isDirectory) && info.deleteOnClose == old(info.deleteOnClose)
  {
    info.context := 0;
  }

  /** `LklCleanup` on a tape: the kernel calls it makes. The descriptor is
      closed whatever its value (also 0, the value `LklCloseFile` leaves);
      a delete-on-close name is then unlinked or removed as a directory.
      Every kernel result is ignored. */
  function CleanupCalls(context: int, isDirectory: bool, deleteOnClose: bool, utf8: Option<Text>, tape: seq<Answer>): (r: (seq<Call>, seq<Answer>)) {
    var close := Close(ToLong(context), Peek(tape).rc);
    var rest := Rest(tape);
    if !deleteOnClose || DecodedPath(utf8).None? then ([close], rest)
    else
      var p := DecodedPath(utf8).value;
      var rc := Peek(rest).rc;
      ([close, if isDirectory then Rmdir(p, rc) else Unlink(p, rc)], Rest(rest))
  }

  /** The handler. */
  method Cleanup(k: Lkl, info: FileInfo, utf8: Option<Text>)
    modifies k, info
    ensures var r := CleanupCalls(old(info.context), old(info.isDirectory), old(info.deleteOnClose), utf8, old(k.answers));
            k.trace == old(k.trace) + r.0 && k.answers == r.1
    ensures info.context == 0
    ensures info.isDirectory == old(info.isDirectory) && info.deleteOnClose == old(info.deleteOnClose)
  {
    var fd := ToLong(info.context);
    info.context := 0;
    var _ := k.SysClose(fd);
    if info.deleteOnClose {
      var path := DecodePath(utf8);
      if path.None? {
        return;
      }
      if !info.isDirectory {
        var _ := k.SysUnlink(path.value);
      } else {
        var _ := k.SysRmdir(path.value);
      }
    }
  }

  /** Cleanup always closes the descriptor the context held (as a 32-bit
      `int`) first, removes the name only on delete-on-close, and picks
      `rmdir` or `unlink` by the `IsDirectory` flag alone. */
  lemma CleanupEffects(context: int, isDirectory: bool, deleteOnClose: bool, utf8: Option<Text>, tape: seq<Answer>)
    ensures var r := CleanupCalls(context, isDirectory, deleteOnClose, utf8, tape);
            && |r.0| >= 1
            && r.0[0] == Close(ToLong(context), Peek(tape).rc)
            && (|r.0| == 2 <==> deleteOnClose && utf8.Some?)
            && |r.0| <= 2
            && (|r.0| == 2 ==> r.0[1].path == UnixForm(utf8.value) && (r.0[1].Rmdir? <==> isDirectory) && (r.0[1].Unlink? <==> !isDirectory))
  {
  }
}

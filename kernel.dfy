/** The in-process Linux kernel (LKL) as the bridge sees it: a black box that
    answers system calls. The model records every call the bridge makes,
    together with the reply it got, in `trace`; the replies come, in order,
    from `answers`, a tape fixed in advance and otherwise unconstrained.
    Every property of the handlers is stated for every tape, so nothing is
    assumed about how the kernel behaves. */
module Kernel {
  import opened Types

  /** Whether a transfer call is `lkl_sys_pread64` or `lkl_sys_pwrite64`. */
  datatype Direction = Read | Write

  /** One reply of the kernel: the return value, and what the call writes
      through its out-pointers (a stat record, a statfs record, a directory
      entry name, the mount point). */
  datatype Answer = Answer(rc: Int32, stat: LklStat, statfs: LklStatFs, entry: Option<Text>, mountPoint: Text)

  /** The reply once the tape is used up: success, no more directory entries. */
  const NoAnswer := Answer(0, ZeroStat, ZeroStatFs, None, [])

  function Peek(tape: seq<Answer>): (a: Answer)
    ensures |tape| == 0 ==> a == NoAnswer
  {
    if |tape| == 0 then NoAnswer else tape[0]
  }

  function Rest(tape: seq<Answer>): (r: seq<Answer>)
    ensures |tape| == 0 ==> r == []
    ensures |tape| > 0 ==> |r| == |tape| - 1
  {
    if |tape| == 0 then [] else tape[1..]
  }

  /** A call the bridge made, with its arguments and the kernel's reply. */
  datatype Call =
    | Mkdir(path: Text, mode: bv32, rc: int)
    | Lstat(path: Text, rc: int, stat: LklStat)
    | Open(path: Text, flags: bv32, mode: bv32, rc: int)
    | Close(fd: int, rc: int)
    | Unlink(path: Text, rc: int)
    | Rmdir(path: Text, rc: int)
    | Rename(path: Text, newPath: Text, rc: int)
    | Transfer(dir: Direction, fd: int, bufferOffset: int, count: Dword, offset: int, rc: int)
    | Fsync(fd: int, rc: int)
    | Ftruncate(fd: int, length: int, rc: int)
    | Fallocate(fd: int, fmode: int, offset: int, length: int, rc: int)
    | Chmod(path: Text, mode: bv32, rc: int)
    | Utimensat(dirfd: int, path: Text, times: seq<Timespec>, flags: bv32, rc: int)
    | Statfs(path: Text, rc: int, fs: LklStatFs)
    | Opendir(path: Text, rc: int)
    | Readdir(entry: Option<Text>)
    | Closedir(rc: int)
    | StartKernel(memory: int, cmdline: Text, rc: int)
    | MountDev(disk: int, fstype: Option<Text>, flags: bv32, bufferSize: int, rc: int, mountPoint: Text)
    | Chroot(path: Text, rc: int)
    | UmountDev(disk: int, flags: bv32, timeoutMs: int, rc: int)
    | Halt(rc: int)
    | Chdir(path: Text, rc: int)
    | Umount(path: Text, flags: bv32, rc: int)

  /** The kernel instance the bridge talks to. */
  class Lkl {
    var trace: seq<Call>
    var answers: seq<Answer>

    constructor (tape: seq<Answer>)
      ensures trace == [] && answers == tape
    {
      trace := [];
      answers := tape;
    }

    /** Take the next reply off the tape. */
    method Reply() returns (a: Answer)
      modifies this
      ensures a == Peek(old(answers)) && answers == Rest(old(answers))
      ensures trace == old(trace)
    {
      a := Peek(answers);
      answers := Rest(answers);
    }

    method SysMkdir(path: Text, mode: bv32) returns (rc: int)
      modifies this
      ensures rc == Peek(old(answers)).rc && answers == Rest(old(answers))
      ensures trace == old(trace) + [Mkdir(path, mode, rc)]
    {
      var a := Reply();
      rc := a.rc;
      trace := trace + [Mkdir(path, mode, rc)];
    }

    method SysLstat(path: Text) returns (rc: int, st: LklStat)
      modifies this
      ensures rc == Peek(old(answers)).rc && st == Peek(old(answers)).stat
      ensures answers == Rest(old(answers))
      ensures trace == old(trace) + [Lstat(path, rc, st)]
    {
      var a := Reply();
      rc, st := a.rc, a.stat;
      trace := trace + [Lstat(path, rc, st)];
    }

    method SysOpen(path: Text, flags: bv32, mode: bv32) returns (rc: int)
      modifies this
      ensures rc == Peek(old(answers)).rc && answers == Rest(old(answers))
      ensures trace == old(trace) + [Open(path, flags, mode, rc)]
    {
      var a := Reply();
      rc := a.rc;
      trace := trace + [Open(path, flags, mode, rc)];
    }

    method SysClose(fd: int) returns (rc: int)
      modifies this
      ensures rc == Peek(old(answers)).rc && answers == Rest(old(answers))
      ensures trace == old(trace) + [Close(fd, rc)]
    {
      var a := Reply();
      rc := a.rc;
      trace := trace + [Close(fd, rc)];
    }

    method SysUnlink(path: Text) returns (rc: int)
      modifies this
      ensures rc == Peek(old(answers)).rc && answers == Rest(old(answers))
      ensures trace == old(trace) + [Unlink(path, rc)]
    {
      var a := Reply();
      rc := a.rc;
      trace := trace + [Unlink(path, rc)];
    }

    method SysRmdir(path: Text) returns (rc: int)
      modifies this
      ensures rc == Peek(old(answers)).rc && answers == Rest(old(answers))
      ensures trace == old(trace) + [Rmdir(path, rc)]
    {
      var a := Reply();
      rc := a.rc;
      trace := trace + [Rmdir(path, rc)];
    }

    method SysRename(path: Text, newPath: Text) returns (rc: int)
      modifies this
      ensures rc == Peek(old(answers)).rc && answers == Rest(old(answers))
      ensures trace == old(trace) + [Rename(path, newPath, rc)]
    {
      var a := Reply();
      rc := a.rc;
      trace := trace + [Rename(path, newPath, rc)];
    }

    /** `lkl_sys_pread64` or `lkl_sys_pwrite64`, as `dir` says. */
    method SysTransfer(dir: Direction, fd: int, bufferOffset: int, count: Dword, offset: int) returns (rc: int)
      modifies this
      ensures rc == Peek(old(answers)).rc && answers == Rest(old(answers))
      ensures trace == old(trace) + [Transfer(dir, fd, bufferOffset, count, offset, rc)]
    {
      var a := Reply();
      rc := a.rc;
      trace := trace + [Transfer(dir, fd, bufferOffset, count, offset, rc)];
    }

    method SysFsync(fd: int) returns (rc: int)
      modifies this
      ensures rc == Peek(old(answers)).rc && answers == Rest(old(answers))
      ensures trace == old(trace) + [Fsync(fd, rc)]
    {
      var a := Reply();
      rc := a.rc;
      trace := trace + [Fsync(fd, rc)];
    }

    method SysFtruncate(fd: int, length: int) returns (rc: int)
      modifies this
      ensures rc == Peek(old(answers)).rc && answers == Rest(old(answers))
      ensures trace == old(trace) + [Ftruncate(fd, length, rc)]
    {
      var a := Reply();
      rc := a.rc;
      trace := trace + [Ftruncate(fd, length, rc)];
    }

    method SysFallocate(fd: int, fmode: int, offset: int, length: int) returns (rc: int)
      modifies this
      ensures rc == Peek(old(answers)).rc && answers == Rest(old(answers))
      ensures trace == old(trace) + [Fallocate(fd, fmode, offset, length, rc)]
    {
      var a := Reply();
      rc := a.rc;
      trace := trace + [Fallocate(fd, fmode, offset, length, rc)];
    }

    method SysChmod(path: Text, mode: bv32) returns (rc: int)
      modifies this
      ensures rc == Peek(old(answers)).rc && answers == Rest(old(answers))
      ensures trace == old(trace) + [Chmod(path, mode, rc)]
    {
      var a := Reply();
      rc := a.rc;
      trace := trace + [Chmod(path, mode, rc)];
    }

    method SysUtimensat(dirfd: int, path: Text, times: seq<Timespec>, flags: bv32) returns (rc: int)
      modifies this
      ensures rc == Peek(old(answers)).rc && answers == Rest(old(answers))
      ensures trace == old(trace) + [Utimensat(dirfd, path, times, flags, rc)]
    {
      var a := Reply();
      rc := a.rc;
      trace := trace + [Utimensat(dirfd, path, times, flags, rc)];
    }

    method SysStatfs(path: Text) returns (rc: int, fs: LklStatFs)
      modifies this
      ensures rc == Peek(old(answers)).rc && fs == Peek(old(answers)).statfs
      ensures answers == Rest(old(answers))
      ensures trace == old(trace) + [Statfs(path, rc, fs)]
    {
      var a := Reply();
      rc, fs := a.rc, a.statfs;
      trace := trace + [Statfs(path, rc, fs)];
    }

    /** `lkl_opendir`: a negative reply is the error it stores through its
        `err` pointer, and then no directory handle is returned. */
    method LklOpendir(path: Text) returns (rc: int)
      modifies this
      ensures rc == Peek(old(answers)).rc && answers == Rest(old(answers))
      ensures trace == old(trace) + [Opendir(path, rc)]
    {
      var a := Reply();
      rc := a.rc;
      trace := trace + [Opendir(path, rc)];
    }

    /** `lkl_readdir`: the next entry's name, or none at the end. */
    method LklReaddir() returns (entry: Option<Text>)
      modifies this
      ensures entry == Peek(old(answers)).entry && answers == Rest(old(answers))
      ensures trace == old(trace) + [Readdir(entry)]
    {
      var a := Reply();
      entry := a.entry;
      trace := trace + [Readdir(entry)];
    }

    method LklClosedir() returns (rc: int)
      modifies this
      ensures rc == Peek(old(answers)).rc && answers == Rest(old(answers))
      ensures trace == old(trace) + [Closedir(rc)]
    {
      var a := Reply();
      rc := a.rc;
      trace := trace + [Closedir(rc)];
    }

    method LklStartKernel(memory: int, cmdline: Text) returns (rc: int)
      modifies this
      ensures rc == Peek(old(answers)).rc && answers == Rest(old(answers))
      ensures trace == old(trace) + [StartKernel(memory, cmdline, rc)]
    {
      var a := Reply();
      rc := a.rc;
      trace := trace + [StartKernel(memory, cmdline, rc)];
    }

    /** `lkl_mount_dev`: also writes the mount point it chose. */
    method LklMountDev(disk: int, fstype: Option<Text>, flags: bv32, bufferSize: int) returns (rc: int, mountPoint: Text)
      modifies this
      ensures rc == Peek(old(answers)).rc && mountPoint == Peek(old(answers)).mountPoint
      ensures answers == Rest(old(answers))
      ensures trace == old(trace) + [MountDev(disk, fstype, flags, bufferSize, rc, mountPoint)]
    {
      var a := Reply();
      rc, mountPoint := a.rc, a.mountPoint;
      trace := trace + [MountDev(disk, fstype, flags, bufferSize, rc, mountPoint)];
    }

    method SysChroot(path: Text) returns (rc: int)
      modifies this
      ensures rc == Peek(old(answers)).rc && answers == Rest(old(answers))
      ensures trace == old(trace) + [Chroot(path, rc)]
    {
      var a := Reply();
      rc := a.rc;
      trace := trace + [Chroot(path, rc)];
    }

    method LklUmountDev(disk: int, flags: bv32, timeoutMs: int) returns (rc: int)
      modifies this
      ensures rc == Peek(old(answers)).rc && answers == Rest(old(answers))
      ensures trace == old(trace) + [UmountDev(disk, flags, timeoutMs, rc)]
    {
      var a := Reply();
      rc := a.rc;
      trace := trace + [UmountDev(disk, flags, timeoutMs, rc)];
    }

    method SysHalt() returns (rc: int)
      modifies this
      ensures rc == Peek(old(answers)).rc && answers == Rest(old(answers))
      ensures trace == old(trace) + [Halt(rc)]
    {
      var a := Reply();
      rc := a.rc;
      trace := trace + [Halt(rc)];
    }

    method SysChdir(path: Text) returns (rc: int)
      modifies this
      ensures rc == Peek(old(answers)).rc && answers == Rest(old(answers))
      ensures trace == old(trace) + [Chdir(path, rc)]
    {
      var a := Reply();
      rc := a.rc;
      trace := trace + [Chdir(path, rc)];
    }

    method SysUmount(path: Text, flags: bv32) returns (rc: int)
      modifies this
      ensures rc == Peek(old(answers)).rc && answers == Rest(old(answers))
      ensures trace == old(trace) + [Umount(path, flags, rc)]
    {
      var a := Reply();
      rc := a.rc;
      trace := trace + [Umount(path, flags, rc)];
    }
  }
}

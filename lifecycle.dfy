/** `start_lkl`, `stop_lkl` and their use in `wmain` (dokany_lkl.c): booting
    the in-process kernel, mounting the disk and making it the root, and
    tearing all of that down again. */
module Lifecycle {
  import opened Types
  import opened Kernel

  /** The kernel's memory: 64 MiB. */
  const KERNEL_MEMORY := 64 * 1024 * 1024
  /** `sizeof(lkl_mount_point)`: `MAX_PATH`. */
  const MOUNT_POINT_SIZE := 260
  /** The timeout `lkl_umount_dev` is given, in milliseconds. */
  const UMOUNT_TIMEOUT_MS := 1000
  const EXIT_SUCCESS := 0
  const ROOT: Text := [SLASH]

  /** The bridge's globals that the lifecycle reads and writes. */
  class Bridge {
    /** `disk_id`: the disk added to the kernel before `start_lkl`. */
    var diskId: int
    /** `lkl_mount_point`: written by `lkl_mount_dev`. */
    var mountPoint: Text

    constructor (diskId: int)
      ensures this.diskId == diskId && this.mountPoint == []
    {
      this.diskId := diskId;
      this.mountPoint := [];
    }
  }

  /** The result of `start_lkl`, the mount point `lkl_mount_dev` wrote (None
      if it was not called), the kernel calls and the unread tape. */
  datatype Started = Started(ret: int, mountPoint: Option<Text>, calls: seq<Call>, tape: seq<Answer>)

  /** `start_lkl` on a tape. Each step runs only when the ones before it
      succeeded; a failure unwinds what was done, in reverse order: a failed
      mount halts the kernel, a failed `chroot` unmounts the disk and halts.
      The unwinding calls' own results are ignored. */
  function StartSpec(disk: int, fstype: Option<Text>, tape: seq<Answer>): Started {
    var boot := Peek(tape).rc;
    var t1 := Rest(tape);
    var start := [StartKernel(KERNEL_MEMORY, [], boot)];
    if boot != 0 then Started(boot, None, start, t1)
    else
      var m := Peek(t1);
      var t2 := Rest(t1);
      var mount := start + [MountDev(disk, fstype, 0, MOUNT_POINT_SIZE, m.rc, m.mountPoint)];
      if m.rc != 0 then Started(m.rc, Some(m.mountPoint), mount + [Halt(Peek(t2).rc)], Rest(t2))
      else
        var c := Peek(t2).rc;
        var t3 := Rest(t2);
        var root := mount + [Chroot(m.mountPoint, c)];
        if c != 0 then
          var t4 := Rest(t3);
          Started(c, Some(m.mountPoint), root + [UmountDev(disk, 0, UMOUNT_TIMEOUT_MS, Peek(t3).rc), Halt(Peek(t4).rc)], Rest(t4))
        else Started(0, Some(m.mountPoint), root, t3)
  }

  /** The handler. The `fstype` argument is the converted
      `lkl_mount_fstype` (None when the conversion failed). */
  method StartLkl(k: Lkl, b: Bridge, fstype: Option<Text>) returns (ret: int)
    modifies k, b
    ensures var s := StartSpec(old(b.diskId), fstype, old(k.answers));
            && ret == s.ret
            && b.mountPoint == (if s.mountPoint.Some? then s.mountPoint.value else old(b.mountPoint))
            && b.diskId == old(b.diskId)
            && k.trace == old(k.trace) + s.calls && k.answers == s.tape
  {
    ghost var spec := StartSpec(b.diskId, fstype, k.answers);
    ghost var t0 := k.trace;
    ret := k.LklStartKernel(KERNEL_MEMORY, []);
    ghost var start := [StartKernel(KERNEL_MEMORY, [], ret)];
    if ret != 0 {
      return;
    }
    var mountPoint;
    ret, mountPoint := k.LklMountDev(b.diskId, fstype, 0, MOUNT_POINT_SIZE);
    b.mountPoint := mountPoint;
    ghost var mount := start + [MountDev(b.diskId, fstype, 0, MOUNT_POINT_SIZE, ret, mountPoint)];
    assert k.trace == t0 + mount by {
      AppendAssoc(t0, start, [MountDev(b.diskId, fstype, 0, MOUNT_POINT_SIZE, ret, mountPoint)]);
    }
    if ret != 0 {
      var h := k.SysHalt();
      assert spec.calls == mount + [Halt(h)];
      AppendAssoc(t0, mount, [Halt(h)]);
      return;
    }
    ret := k.SysChroot(b.mountPoint);
    ghost var root := mount + [Chroot(mountPoint, ret)];
    AppendAssoc(t0, mount, [Chroot(mountPoint, ret)]);
    if ret != 0 {
      var u := k.LklUmountDev(b.diskId, 0, UMOUNT_TIMEOUT_MS);
      var h := k.SysHalt();
      assert spec.calls == root + [UmountDev(b.diskId, 0, UMOUNT_TIMEOUT_MS, u), Halt(h)];
      AppendAssoc(t0, root, [UmountDev(b.diskId, 0, UMOUNT_TIMEOUT_MS, u)]);
      AppendAssoc(t0 + root, [UmountDev(b.diskId, 0, UMOUNT_TIMEOUT_MS, u)], [Halt(h)]);
      AppendAssoc(root, [UmountDev(b.diskId, 0, UMOUNT_TIMEOUT_MS, u)], [Halt(h)]);
      return;
    }
    ret := 0;
  }

  /** `stop_lkl` on a tape: `chdir("/")`, `umount("/", 0)`, halt; failures
      are only reported on the console. */
  function StopCalls(tape: seq<Answer>): (r: (seq<Call>, seq<Answer>)) {
    var t1 := Rest(tape);
    var t2 := Rest(t1);
    ([Chdir(ROOT, Peek(tape).rc), Umount(ROOT, 0, Peek(t1).rc), Halt(Peek(t2).rc)], Rest(t2))
  }

  method StopLkl(k: Lkl)
    modifies k
    ensures var r := StopCalls(old(k.answers));
            k.trace == old(k.trace) + r.0 && k.answers == r.1
  {
    var _ := k.SysChdir(ROOT);
    var _ := k.SysUmount(ROOT, 0);
    var _ := k.SysHalt();
  }

  /** What the kernel has been brought to, as far as the lifecycle calls
      tell. */
  datatype Phase = Down | Booted | Mounted | Rooted

  /** The phase after one call: each step that succeeds moves the phase on,
      unmounting moves it back, halting always ends it. */
  function After(ph: Phase, c: Call): Phase {
    match c
    case StartKernel(_, _, rc) => if rc == 0 then Booted else ph
    case MountDev(_, _, _, _, rc, _) => if rc == 0 then Mounted else ph
    case Chroot(_, rc) => if rc == 0 then Rooted else ph
    case UmountDev(_, _, _, rc) => if rc == 0 then Booted else ph
    case Umount(_, _, rc) => if rc == 0 then Booted else ph
    case Halt(_) => Down
    case _ => ph
  }

  function Replay(ph: Phase, calls: seq<Call>): Phase
    decreases |calls|
  {
    if calls == [] then ph else Replay(After(ph, calls[0]), calls[1..])
  }

  /** `start_lkl` returns 0 exactly when booting, mounting and `chroot` all
      succeed, and then leaves the kernel rooted at the mounted disk without
      any unwinding call. On any failure it returns that step's code and
      the calls it made leave the kernel down: either it never booted, or
      it was halted after the completed steps were undone in reverse
      order. */
  lemma StartUnwinds(disk: int, fstype: Option<Text>, tape: seq<Answer>)
    ensures var s := StartSpec(disk, fstype, tape);
            var boot := Peek(tape).rc;
            var mount := Peek(Rest(tape)).rc;
            var root := Peek(Rest(Rest(tape))).rc;
            && (s.ret == 0 <==> boot == 0 && mount == 0 && root == 0)
            && (s.ret == 0 ==> Replay(Down, s.calls) == Rooted && |s.calls| == 3)
            && (s.ret != 0 ==> Replay(Down, s.calls) == Down)
            && (boot != 0 ==> s.ret == boot && |s.calls| == 1)
            && (boot == 0 && mount != 0 ==> s.ret == mount && |s.calls| == 3 && s.calls[2].Halt?)
            && (boot == 0 && mount == 0 && root != 0 ==>
                  s.ret == root && |s.calls| == 5 && s.calls[3].UmountDev? && s.calls[4].Halt?)
  {
    var t1 := Rest(tape);
    var t2 := Rest(t1);
    if Peek(tape).rc != 0 {
      BootFails(disk, fstype, tape);
    } else if Peek(t1).rc != 0 {
      MountFails(disk, fstype, tape);
    } else if Peek(t2).rc != 0 {
      ChrootFails(disk, fstype, tape);
    } else {
      StartSucceeds(disk, fstype, tape);
    }
  }

  lemma BootFails(disk: int, fstype: Option<Text>, tape: seq<Answer>)
    requires Peek(tape).rc != 0
    ensures var s := StartSpec(disk, fstype, tape);
            s.ret == Peek(tape).rc && |s.calls| == 1 && Replay(Down, s.calls) == Down
  {
    ReplaySteps(Down, StartSpec(disk, fstype, tape).calls, 1);
  }

  lemma MountFails(disk: int, fstype: Option<Text>, tape: seq<Answer>)
    requires Peek(tape).rc == 0 && Peek(Rest(tape)).rc != 0
    ensures var s := StartSpec(disk, fstype, tape);
            && s.ret == Peek(Rest(tape)).rc && |s.calls| == 3 && s.calls[2].Halt?
            && Replay(Down, s.calls) == Down
  {
    ReplaySteps(Down, StartSpec(disk, fstype, tape).calls, 3);
  }

  lemma ChrootFails(disk: int, fstype: Option<Text>, tape: seq<Answer>)
    requires Peek(tape).rc == 0 && Peek(Rest(tape)).rc == 0 && Peek(Rest(Rest(tape))).rc != 0
    ensures var s := StartSpec(disk, fstype, tape);
            && s.ret == Peek(Rest(Rest(tape))).rc && |s.calls| == 5
            && s.calls[3].UmountDev? && s.calls[4].Halt?
            && Replay(Down, s.calls) == Down
  {
    ReplaySteps(Down, StartSpec(disk, fstype, tape).calls, 5);
  }

  lemma StartSucceeds(disk: int, fstype: Option<Text>, tape: seq<Answer>)
    requires Peek(tape).rc == 0 && Peek(Rest(tape)).rc == 0 && Peek(Rest(Rest(tape))).rc == 0
    ensures var s := StartSpec(disk, fstype, tape);
            s.ret == 0 && |s.calls| == 3 && Replay(Down, s.calls) == Rooted
  {
    ReplaySteps(Down, StartSpec(disk, fstype, tape).calls, 3);
  }

  /** Replaying a list is replaying its first `n` calls one by one; unrolled
      for the short lists the lifecycle makes. */
  lemma {:induction false} ReplaySteps(ph: Phase, c: seq<Call>, n: nat)
    requires n == |c| && 1 <= n <= 5
    ensures n == 1 ==> Replay(ph, c) == After(ph, c[0])
    ensures n == 3 ==> Replay(ph, c) == After(After(After(ph, c[0]), c[1]), c[2])
    ensures n == 5 ==> Replay(ph, c) == After(After(After(After(After(ph, c[0]), c[1]), c[2]), c[3]), c[4])
    decreases n
  {
    if n == 1 {
      assert c[1..] == [];
    } else {
      var d := c[1..];
      var e := d[1..];
      if n >= 3 {
        ReplaySteps(After(After(ph, c[0]), c[1]), e, n - 2);
      }
    }
  }

  /** `stop_lkl` ends with a halt, and a halt leaves the kernel down from
      any phase, whatever the earlier calls returned. */
  lemma StopHalts(ph: Phase, tape: seq<Answer>)
    ensures Replay(ph, StopCalls(tape).0) == Down
  {
    ReplaySteps(ph, StopCalls(tape).0, 3);
  }

  /** `wmain` after the setup it is not modelled for: `start_lkl` with its
      result ignored, Dokan serving requests, then `stop_lkl`; the exit code
      is always `EXIT_SUCCESS`. */
  method Serve(k: Lkl, b: Bridge, fstype: Option<Text>) returns (exitCode: int)
    modifies k, b
    ensures exitCode == EXIT_SUCCESS
    ensures var s := StartSpec(old(b.diskId), fstype, old(k.answers));
            var stop := StopCalls(s.tape);
            k.trace == old(k.trace) + s.calls + stop.0 && k.answers == stop.1
  {
    var _ := StartLkl(k, b, fstype);
    StopLkl(k);
    exitCode := EXIT_SUCCESS;
  }

  /** Because `wmain` ignores `start_lkl`'s result, a kernel that failed to
      boot is still sent `chdir`, `umount` and halt, and the process still
      exits with `EXIT_SUCCESS`. */
  lemma StartFailureIgnored(disk: int, fstype: Option<Text>, tape: seq<Answer>)
    requires Peek(tape).rc != 0
    ensures var s := StartSpec(disk, fstype, tape);
            var stop := StopCalls(s.tape).0;
            && s.ret != 0
            && Replay(Down, s.calls) == Down
            && (s.calls + stop)[|s.calls|] == Chdir(ROOT, Peek(s.tape).rc)
            && |s.calls + stop| == 4
  {
    StartUnwinds(disk, fstype, tape);
  }
}

/** What every Dokan callback of the bridge shares: the per-open
    `DOKAN_FILE_INFO` record, the creation mode, and the shape of a
    handler's outcome. */
module DokanInfo {
  import opened Translation
  import opened Kernel

  /** `default_mode`: 0755, used for `mkdir`, `open` and `chmod`. */
  const DEFAULT_MODE: bv32 := 0x1ED

  /** The part of `DOKAN_FILE_INFO` the handlers read and write. */
  class FileInfo {
    /** `Context`: the bridge keeps the LKL file descriptor here. */
    var context: int
    /** `IsDirectory`. */
    var isDirectory: bool
    /** `DeleteOnClose`, set by Dokan before `Cleanup`. */
    var deleteOnClose: bool

    constructor (context: int, isDirectory: bool, deleteOnClose: bool)
      ensures this.context == context && this.isDirectory == isDirectory
      ensures this.deleteOnClose == deleteOnClose
    {
      this.context := context;
      this.isDirectory := isDirectory;
      this.deleteOnClose := deleteOnClose;
    }
  }

  /** A handler's NTSTATUS, the kernel calls it made, and the unread tape. */
  datatype Reply = Reply(status: NtStatus, calls: seq<Call>, tape: seq<Answer>)

  /** A handler that makes one kernel call and returns its translated
      result. */
  function Single(call: int -> Call, tape: seq<Answer>): Reply {
    var rc := Peek(tape).rc;
    Reply(ErrnoToStatus(rc), [call(rc)], Rest(tape))
  }
}

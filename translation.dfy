/** The fixed translation tables of dokany_lkl.c: LKL errno to NTSTATUS,
    NTSTATUS to LKL errno, Win32 error to NTSTATUS, and the access mask to
    the open mode. */
module Translation {

  /** The NTSTATUS values the bridge names. `Unnamed` stands for every other
      (non-zero) NTSTATUS value; none of the tables distinguishes among them. */
  datatype NtStatus =
    | Success
    | AccessDenied | AccessViolation | BufferTooSmall | InvalidParameter
    | NotImplemented | NotSupported | InvalidAddress | InvalidAddressComponent
    | NoSuchDevice | NoSuchFile | ObjectNameNotFound | ObjectPathNotFound
    | NetworkBusy | InvalidNetworkResponse | UnexpectedNetworkError
    | BadNetworkPath | NetworkUnreachable | ProtocolUnreachable
    | LocalDisconnect | TransactionAborted | ConnectionAborted
    | RemoteDisconnect | LinkFailed | ConnectionDisconnected | ConnectionReset | PortUnreachable
    | InsufficientResources
    | PagefileQuota | NoMemory | ConflictingAddresses | QuotaExceeded | TooManyPagingFiles
    | WorkingSetQuota | CommitmentLimit | TooManyAddresses | RemoteResources
    | InvalidConnection | PipeDisconnected
    | Timeout | IoTimeout | LinkTimeout
    | RemoteNotListening | ConnectionRefused | HostUnreachable
    | Pending | DeviceNotReady | Cancelled | RequestAborted
    | BufferOverflow | InvalidBufferSize | AddressAlreadyExists
    | DeviceBusy | DiskFull | PossibleDeadlock | ObjectNameCollision | UnexpectedIoError
    | NotADirectory | FileIsADirectory | DirectoryNotEmpty | Unsuccessful
    | SharingViolation | PrivilegeNotHeld
    | Unnamed

  // LKL error numbers (the Linux asm-generic values); the kernel reports -E.
  const EPERM := 1
  const ENOENT := 2
  const EINTR := 4
  const EIO := 5
  const ENXIO := 6
  const EBADF := 9
  const EAGAIN := 11
  const ENOMEM := 12
  const EACCES := 13
  const EFAULT := 14
  const EBUSY := 16
  const EEXIST := 17
  const ENODEV := 19
  const ENOTDIR := 20
  const EISDIR := 21
  const EINVAL := 22
  const EFBIG := 27
  const ENOSPC := 28
  const EDEADLK := 35
  const ENOSYS := 38
  const ENOTEMPTY := 39
  const EBADMSG := 74
  const EMSGSIZE := 90
  const EOPNOTSUPP := 95
  const EADDRINUSE := 98
  const EADDRNOTAVAIL := 99
  const ENETDOWN := 100
  const ENETUNREACH := 101
  const ECONNABORTED := 103
  const ECONNRESET := 104
  const ENOBUFS := 105
  const ENOTCONN := 107
  const ESHUTDOWN := 108
  const ETIMEDOUT := 110
  const ECONNREFUSED := 111
  const EHOSTUNREACH := 113

  /** The return codes `lkl_errno_to_ntstatus` has a case for. */
  predicate IsListedErrno(rc: int) {
    rc in {0, -EPERM, -EACCES, -ENOENT, -EFAULT, -EBADMSG, -EBADF, -EINVAL, -EFBIG, -EBUSY, -ENOSYS,
           -ENOSPC, -EOPNOTSUPP, -EDEADLK, -EEXIST, -EIO, -ENOTDIR, -EISDIR, -ENOTEMPTY, -ENODEV,
           -ENXIO, -EADDRNOTAVAIL, -ENETDOWN, -ENETUNREACH, -ECONNABORTED, -ECONNRESET, -ENOMEM,
           -ENOBUFS, -ENOTCONN, -ESHUTDOWN, -ETIMEDOUT, -ECONNREFUSED, -EHOSTUNREACH, -EAGAIN,
           -EINTR, -EMSGSIZE, -EADDRINUSE}
  }

  /** `lkl_errno_to_ntstatus`: a kernel return code to the status the host sees. */
  function ErrnoToStatus(rc: int): (s: NtStatus)
    ensures s == Success <==> rc == 0
  {
    if rc == 0 then Success
    else if rc == -EPERM || rc == -EACCES then AccessDenied
    else if rc == -ENOENT then ObjectNameNotFound
    else if rc == -EFAULT then AccessViolation
    else if rc == -EBADMSG || rc == -EBADF || rc == -EINVAL || rc == -EFBIG then InvalidParameter
    else if rc == -EBUSY then DeviceBusy
    else if rc == -ENOSYS then NotImplemented
    else if rc == -ENOSPC then DiskFull
    else if rc == -EOPNOTSUPP then NotSupported
    else if rc == -EDEADLK then PossibleDeadlock
    else if rc == -EEXIST then ObjectNameCollision
    else if rc == -EIO then UnexpectedIoError
    else if rc == -ENOTDIR then NotADirectory
    else if rc == -EISDIR then FileIsADirectory
    else if rc == -ENOTEMPTY then DirectoryNotEmpty
    else if rc == -ENODEV then NoSuchDevice
    else if rc == -ENXIO || rc == -EADDRNOTAVAIL then InvalidAddress
    else if rc == -ENETDOWN then UnexpectedNetworkError
    else if rc == -ENETUNREACH then NetworkUnreachable
    else if rc == -ECONNABORTED then ConnectionAborted
    else if rc == -ECONNRESET then ConnectionReset
    else if rc == -ENOMEM then InsufficientResources
    else if rc == -ENOBUFS then NoMemory
    else if rc == -ENOTCONN then InvalidConnection
    else if rc == -ESHUTDOWN then ConnectionDisconnected
    else if rc == -ETIMEDOUT then Timeout
    else if rc == -ECONNREFUSED then ConnectionRefused
    else if rc == -EHOSTUNREACH then HostUnreachable
    else if rc == -EAGAIN then DeviceNotReady
    else if rc == -EINTR then Cancelled
    else if rc == -EMSGSIZE then InvalidBufferSize
    else if rc == -EADDRINUSE then AddressAlreadyExists
    else Unsuccessful
  }

  /** Exactly the return codes without a case of their own become
      `STATUS_UNSUCCESSFUL`. */
  lemma UnlistedErrnoUnsuccessful(rc: int)
    ensures ErrnoToStatus(rc) == Unsuccessful <==> !IsListedErrno(rc)
  {
  }

  /** The statuses `ntstatus_to_lkl_errno` has a `case` for (STATUS_SUCCESS is
      handled after the switch). */
  predicate IsListedStatus(s: NtStatus) {
    s in {AccessDenied, AccessViolation, BufferTooSmall, InvalidParameter, NotImplemented,
          NotSupported, InvalidAddress, InvalidAddressComponent, NoSuchDevice, NoSuchFile,
          ObjectNameNotFound, ObjectPathNotFound, NetworkBusy, InvalidNetworkResponse,
          UnexpectedNetworkError, BadNetworkPath, NetworkUnreachable, ProtocolUnreachable,
          LocalDisconnect, TransactionAborted, ConnectionAborted, RemoteDisconnect, LinkFailed,
          ConnectionDisconnected, ConnectionReset, PortUnreachable, InsufficientResources,
          PagefileQuota, NoMemory, ConflictingAddresses, QuotaExceeded, TooManyPagingFiles,
          WorkingSetQuota, CommitmentLimit, TooManyAddresses, RemoteResources, InvalidConnection,
          PipeDisconnected, Timeout, IoTimeout, LinkTimeout, RemoteNotListening, ConnectionRefused,
          HostUnreachable, Pending, DeviceNotReady, Cancelled, RequestAborted, BufferOverflow,
          InvalidBufferSize, AddressAlreadyExists}
  }

  /** `ntstatus_to_lkl_errno`: a status to the (non-positive) kernel error code. */
  function StatusToErrno(s: NtStatus): (rc: int)
    ensures rc <= 0
    ensures rc == 0 <==> s == Success
    ensures IsListedStatus(s) ==> rc < 0
    ensures !IsListedStatus(s) && s != Success ==> rc == -EINVAL
  {
    match s
    case AccessDenied => -EACCES
    case AccessViolation => -EFAULT
    case BufferTooSmall | InvalidParameter => -EINVAL
    case NotImplemented | NotSupported => -EOPNOTSUPP
    case InvalidAddress | InvalidAddressComponent => -EADDRNOTAVAIL
    case NoSuchDevice | NoSuchFile | ObjectNameNotFound | ObjectPathNotFound
      | NetworkBusy | InvalidNetworkResponse | UnexpectedNetworkError => -ENETDOWN
    case BadNetworkPath | NetworkUnreachable | ProtocolUnreachable => -ENETUNREACH
    case LocalDisconnect | TransactionAborted | ConnectionAborted => -ECONNABORTED
    case RemoteDisconnect | LinkFailed | ConnectionDisconnected | ConnectionReset
      | PortUnreachable => -ECONNRESET
    case InsufficientResources => -ENOMEM
    case PagefileQuota | NoMemory | ConflictingAddresses | QuotaExceeded | TooManyPagingFiles
      | WorkingSetQuota | CommitmentLimit | TooManyAddresses | RemoteResources => -ENOBUFS
    case InvalidConnection => -ENOTCONN
    case PipeDisconnected => -ESHUTDOWN
    case Timeout | IoTimeout | LinkTimeout => -ETIMEDOUT
    case RemoteNotListening | ConnectionRefused => -ECONNREFUSED
    case HostUnreachable => -EHOSTUNREACH
    case Pending | DeviceNotReady => -EAGAIN
    case Cancelled | RequestAborted => -EINTR
    case BufferOverflow | InvalidBufferSize => -EMSGSIZE
    case AddressAlreadyExists => -EADDRINUSE
    case Success => 0
    case _ => -EINVAL
  }

  /** The two tables are not inverse to each other: "no such entry" comes
      back as "network down", and the code `ntstatus_to_lkl_errno` gives
      for a disconnected pipe comes back as "connection reset". */
  lemma NotInverse()
    ensures ErrnoToStatus(-ENOENT) == ObjectNameNotFound
    ensures StatusToErrno(ErrnoToStatus(-ENOENT)) == -ENETDOWN
    ensures StatusToErrno(PipeDisconnected) == -ESHUTDOWN
    ensures StatusToErrno(ErrnoToStatus(-ESHUTDOWN)) == -ECONNRESET
  {
  }

  /** The kernel codes that survive a trip through both tables unchanged. */
  predicate IsRoundTripErrno(rc: int) {
    rc in {0, -EACCES, -EFAULT, -EINVAL, -EOPNOTSUPP, -EADDRNOTAVAIL, -ENETDOWN, -ENETUNREACH,
           -ECONNABORTED, -ECONNRESET, -ENOMEM, -ENOBUFS, -ENOTCONN, -ETIMEDOUT, -ECONNREFUSED,
           -EHOSTUNREACH, -EAGAIN, -EINTR, -EMSGSIZE, -EADDRINUSE}
  }

  /** Going errno -> status -> errno gives back exactly the codes above and
      changes every other code. */
  lemma RoundTripFixedPoints(rc: int)
    ensures StatusToErrno(ErrnoToStatus(rc)) == rc <==> IsRoundTripErrno(rc)
  {
    if IsRoundTripErrno(rc) {
      RoundTripKept(rc);
    } else if IsListedErrno(rc) {
      RoundTripChanged(rc);
    } else {
      UnlistedErrnoUnsuccessful(rc);
    }
  }

  lemma RoundTripKept(rc: int)
    requires IsRoundTripErrno(rc)
    ensures StatusToErrno(ErrnoToStatus(rc)) == rc
  {
  }

  lemma RoundTripChanged(rc: int)
    requires IsListedErrno(rc) && !IsRoundTripErrno(rc)
    ensures StatusToErrno(ErrnoToStatus(rc)) != rc
  {
  }

  /** The round trip picks one representative per class of kernel codes:
      applying it to its own result changes nothing, so two codes are in the
      same class exactly when they have the same representative. */
  lemma RoundTripIsProjection(rc: int)
    ensures var c := StatusToErrno(ErrnoToStatus(rc));
            StatusToErrno(ErrnoToStatus(c)) == c
  {
    var c := StatusToErrno(ErrnoToStatus(rc));
    RoundTripLands(rc);
    RoundTripKept(c);
  }

  /** The round trip always ends on one of the codes it keeps. */
  lemma RoundTripLands(rc: int)
    ensures IsRoundTripErrno(StatusToErrno(ErrnoToStatus(rc)))
  {
    if !IsListedErrno(rc) {
      UnlistedErrnoUnsuccessful(rc);
    }
  }

  // Win32 error codes understood by ToNtStatus.
  const ERROR_FILE_NOT_FOUND := 2
  const ERROR_PATH_NOT_FOUND := 3
  const ERROR_ACCESS_DENIED := 5
  const ERROR_NOT_READY := 21
  const ERROR_SHARING_VIOLATION := 32
  const ERROR_FILE_EXISTS := 80
  const ERROR_INVALID_PARAMETER := 87
  const ERROR_INVALID_NAME := 123
  const ERROR_ALREADY_EXISTS := 183
  const ERROR_PRIVILEGE_NOT_HELD := 1314

  /** The Win32 error codes `ToNtStatus` has a `case` for. */
  predicate IsListedWin32Error(err: int) {
    err in {ERROR_FILE_NOT_FOUND, ERROR_PATH_NOT_FOUND, ERROR_INVALID_PARAMETER, ERROR_ACCESS_DENIED,
            ERROR_SHARING_VIOLATION, ERROR_INVALID_NAME, ERROR_FILE_EXISTS, ERROR_ALREADY_EXISTS,
            ERROR_PRIVILEGE_NOT_HELD, ERROR_NOT_READY}
  }

  /** `ToNtStatus`: a Win32 error code to an NTSTATUS (defined in the source
      but not called by any handler). */
  function Win32ToStatus(err: int): (s: NtStatus)
    ensures s != Success
    ensures s == ObjectNameCollision <==> err == ERROR_FILE_EXISTS || err == ERROR_ALREADY_EXISTS
    ensures s == ObjectNameNotFound <==> err == ERROR_FILE_NOT_FOUND || err == ERROR_INVALID_NAME
    ensures !IsListedWin32Error(err) ==> s == AccessDenied
  {
    if err == ERROR_FILE_NOT_FOUND then ObjectNameNotFound
    else if err == ERROR_PATH_NOT_FOUND then ObjectPathNotFound
    else if err == ERROR_INVALID_PARAMETER then InvalidParameter
    else if err == ERROR_ACCESS_DENIED then AccessDenied
    else if err == ERROR_SHARING_VIOLATION then SharingViolation
    else if err == ERROR_INVALID_NAME then ObjectNameNotFound
    else if err == ERROR_FILE_EXISTS || err == ERROR_ALREADY_EXISTS then ObjectNameCollision
    else if err == ERROR_PRIVILEGE_NOT_HELD then PrivilegeNotHeld
    else if err == ERROR_NOT_READY then DeviceNotReady
    else AccessDenied
  }

  // Access-mask bits and LKL open flags (asm-generic octal values in hex).
  const GENERIC_READ: bv32 := 0x8000_0000
  const GENERIC_WRITE: bv32 := 0x4000_0000
  const O_RDONLY: bv32 := 0x0
  const O_WRONLY: bv32 := 0x1
  const O_RDWR: bv32 := 0x2
  const O_CREAT: bv32 := 0x40           // 0100
  const O_LARGEFILE: bv32 := 0x8000     // 0100000
  const O_DIRECTORY: bv32 := 0x1_0000   // 0200000

  /** `convert_flags`: the open mode for a desired-access mask. Read-only and
      write-only need exactly one of the two generic bits; everything else,
      including neither bit, opens read-write. */
  function ConvertFlags(access: bv32): (mode: bv32)
    ensures mode == O_RDONLY || mode == O_WRONLY || mode == O_RDWR
    ensures mode == O_RDONLY <==> access & GENERIC_READ != 0 && access & GENERIC_WRITE == 0
    ensures mode == O_WRONLY <==> access & GENERIC_READ == 0 && access & GENERIC_WRITE != 0
  {
    var wantRead := access & GENERIC_READ != 0;
    var wantWrite := access & GENERIC_WRITE != 0;
    if wantRead && !wantWrite then O_RDONLY
    else if !wantRead && wantWrite then O_WRONLY
    else O_RDWR
  }

  /** Asking for neither read nor write access still opens read-write. */
  lemma ConvertFlagsNeither(access: bv32)
    requires access & (GENERIC_READ | GENERIC_WRITE) == 0
    ensures ConvertFlags(access) == O_RDWR
  {
    assert access & GENERIC_READ == 0 && access & GENERIC_WRITE == 0 by {
      assert access & GENERIC_READ == (access & (GENERIC_READ | GENERIC_WRITE)) & GENERIC_READ;
      assert access & GENERIC_WRITE == (access & (GENERIC_READ | GENERIC_WRITE)) & GENERIC_WRITE;
    }
  }
}

# dokany_lkl in Dafny

dokany_lkl serves a Windows drive through Dokan from an in-process Linux
kernel (LKL): every Dokan callback (`LklCreateFile`, `LklReadFile`,
`LklFindFiles`, ...) turns a Windows request into LKL system calls and turns
the kernel's answer back into an NTSTATUS. This project models the bridge's
own logic, proves properties about that model, and treats the kernel as a
black box:

- `Types` holds the C integer widths: `DWORD`, `LONG` and the 32-bit `int`
  that holds every `lkl_ret`. It also holds C strings as NUL-free byte
  sequences, FILETIME words and the LKL stat records.
- `Translation` holds the three status tables: `lkl_errno_to_ntstatus`,
  `ntstatus_to_lkl_errno` and `ToNtStatus`. It also holds `convert_flags`.
- `Paths` holds the path helpers of utils.c. `win_path_to_unix` and
  `unix_path_to_win` rewrite an `array<byte>` in place. `append_unix_path`
  allocates and fills a fresh array. The prologue shared by every
  name-taking handler is also here.
- `FileTimes` holds the FILETIME <-> Unix seconds arithmetic of utils.c.
- `StatMapping` holds the `lkl_stat_to_def` macro of utils.h, both as a
  function from the record before to the record after, and as a method that
  updates a caller's record object field by field.
- `Kernel` models LKL as a class `Lkl`. Its `trace` records every call
  together with its reply. The replies come in order from `answers`, a tape
  chosen in advance and otherwise unconstrained, so every property holds for
  every kernel behaviour.
- `DokanInfo` holds the mutable `DOKAN_FILE_INFO` fields (`Context`,
  `IsDirectory`, `DeleteOnClose`).
- `Create` holds `LklCreateFile`, `LklCloseFile` and `LklCleanup`.
- `Transfers` holds `LklReadFile` and `LklWriteFile`. Their `do ... while`
  loop is a method with loop invariants, proved against the recursive
  function `Loop`.
- `Handlers` holds the one-call handlers: flush, set end of file, set
  allocation size, delete file, delete directory, move, set attributes,
  set file time and free disk space.
- `Listing` holds `LklGetFileInformation` and `LklFindFiles`. The `readdir`
  loop is a method proved against the recursive function `Enumerate`.
- `Lifecycle` holds `start_lkl` with its goto-based unwinding, `stop_lkl`,
  and the part of `wmain` that calls them.

Each handler is a method that changes the kernel object and the file-info
object. Its postcondition ties the status, the stored fields, the new trace
and the unread tape to a pure function of the inputs and the old tape. The
lemmas then prove what the bridge promises about that function.

## Model

| member | source | states |
|---|---|---|
| Translation.ErrnoToStatus | dokany_lkl.c:212-321 | `lkl_errno_to_ntstatus`: the result is `STATUS_SUCCESS` exactly for 0, so no non-zero code is ever reported as success |
| Translation.UnlistedErrnoUnsuccessful | dokany_lkl.c:318-320 | the default arm: a code gives `STATUS_UNSUCCESSFUL` exactly when it is not one of the listed cases |
| Translation.StatusToErrno | dokany_lkl.c:109-210 | `ntstatus_to_lkl_errno`: never positive; 0 exactly for `STATUS_SUCCESS`; strictly negative for every listed status; `-EINVAL` for every other status |
| Translation.NotInverse | dokany_lkl.c:109-321 | the tables are not inverses: `-ENOENT` becomes `OBJECT_NAME_NOT_FOUND` and comes back as `-ENETDOWN`; `PIPE_DISCONNECTED` becomes `-ESHUTDOWN`, and `-ESHUTDOWN` comes back as `-ECONNRESET` |
| Translation.RoundTripFixedPoints | dokany_lkl.c:109-321 | errno -> status -> errno returns the code unchanged exactly for the codes in `IsRoundTripErrno` |
| Translation.RoundTripKept | dokany_lkl.c:109-321 | every code in `IsRoundTripErrno` survives the round trip |
| Translation.RoundTripChanged | dokany_lkl.c:109-321 | every listed code outside `IsRoundTripErrno` is changed by the round trip |
| Translation.RoundTripLands | dokany_lkl.c:109-321 | whatever the code, the round trip ends on a code that survives it |
| Translation.RoundTripIsProjection | dokany_lkl.c:109-321 | the round trip is idempotent: it picks one representative per class of codes |
| Translation.Win32ToStatus | dokany_lkl.c:82-107 | `ToNtStatus`: never success; `OBJECT_NAME_COLLISION` exactly for file-exists and already-exists; `OBJECT_NAME_NOT_FOUND` exactly for file-not-found and invalid-name; every unlisted error gives `ACCESS_DENIED` |
| Translation.ConvertFlags | dokany_lkl.c:327-337 | the open mode is `O_RDONLY` exactly when only `GENERIC_READ` is set and `O_WRONLY` exactly when only `GENERIC_WRITE` is set; otherwise it is `O_RDWR` |
| Translation.ConvertFlagsNeither | dokany_lkl.c:333-336 | an access mask with neither generic bit opens read-write |
| Paths.StrLen | utils.c:95 | `strlen`: the index of the first NUL |
| Paths.RewriteIdempotent | utils.c:96-100 | rewriting one byte value into another twice is the same as doing it once |
| Paths.RewriteRemovesSource | utils.c:96-100 | after the rewrite the replaced byte is gone and every other byte is unchanged |
| Paths.UnixFormNormal | utils.c:92-103 | the Unix form has no backslash and is idempotent |
| Paths.WinFormNormal | utils.c:105-116 | the Windows form has no slash and is idempotent |
| Paths.SeparatorsInterchangeable | utils.c:92-116 | converting to one form first does not change the other form |
| Paths.ReplaceBeforeNul | utils.c:95-100 | the shared `for` loop: the bytes before the NUL are rewritten in place, and the NUL and everything after it are left alone |
| Paths.WinPathToUnix | utils.c:92-103 | `win_path_to_unix` returns the same buffer, with every backslash before the NUL turned into a slash in place |
| Paths.UnixPathToWin | utils.c:105-116 | `unix_path_to_win` returns the same buffer, with every slash before the NUL turned into a backslash in place |
| Paths.DecodePath | dokany_lkl.c:347-351 | the handlers' prologue with the NULL test first (the corrected half of the first finding): a failed conversion yields no path; otherwise the path is the converted name, rewritten in place to Unix form |
| Paths.DecodedPath | dokany_lkl.c:347-351 | the path a handler holds after its prologue with the NULL test first: none for a failed conversion, otherwise the name in Unix form |
| Paths.PrologueAsWritten | dokany_lkl.c:347-351 | the prologue as written: a failed conversion faults in `strlen`, otherwise the handler proceeds with the Unix form |
| Paths.CheckedPrologue | dokany_lkl.c:347-351 | the prologue with the NULL test first: a failed conversion reaches `INSUFFICIENT_RESOURCES` |
| Paths.NullCheckTooLate | dokany_lkl.c:347-351 | as written, the insufficient-resources branch cannot be reached because a failed conversion faults first; with the check first, exactly the failed conversions reach it |
| Paths.AppendResult | utils.c:55-85 | `append_unix_path` as written: NULL exactly when a length argument is 0, before a -1 length is resolved |
| Paths.AppendResultChecked | utils.c:61-69 | the corrected emptiness test: NULL exactly when a resolved length is 0 |
| Paths.JoinedShape | utils.c:72-83 | the joined path starts with the directory and ends with the name, with exactly one slash between them; its length is the two lengths plus 1, or plus 0 when the directory already ends in a slash |
| Paths.Joined | utils.c:71-83 | the directory, one slash unless it already ends in one, then the name |
| Paths.AppendTexts | utils.c:55-85 | with both lengths -1, the corrected join of two C strings is NULL exactly when one of them is empty, and is otherwise the joined path with its NUL |
| Paths.AppendTextsAsWritten | utils.c:55-85 | as written, with both lengths -1 and a non-empty directory, the result is the joined path with its NUL, even for an empty name |
| Paths.AppendEmptyNameAsWritten | utils.c:61-69 | as written, directory "d" with an empty name passed as -1 gives "d/" instead of NULL |
| Paths.MemCopy | utils.c:81-83 | `memcpy` into the result buffer changes exactly the copied range |
| Paths.AppendUnixPath | utils.c:55-85 | the imperative `append_unix_path` (zeroed buffer, two copies, slash patched) returns null or a fresh array holding `AppendResult` |
| Paths.JoinedBuffer | utils.c:75-84 | the allocation, `memset`, `memcpy`s and slash patch produce the joined path followed by NUL |
| Paths.AppendUnixPathChecked | utils.c:55-85 | the corrected routine returns null or a fresh array holding `AppendResultChecked` |
| FileTimes.UnixTimeToFiletime | utils.c:118-128 | the two words' 64-bit value is the time, truncated to a 32-bit `LONG`, times 10^7 plus 116444736000000000 |
| FileTimes.UnixTimeToFiletimeExact | utils.c:118-128 | for every time a `LONG` holds, the value is exactly `t * 10^7 + 116444736000000000` |
| FileTimes.UnixTimeToFiletimeWraps | utils.c:123 | times 2^32 seconds apart give the same FILETIME |
| FileTimes.IsFiletimeSet | utils.c:130-136 | false exactly for a NULL pointer or a FILETIME whose value is 0 |
| FileTimes.FiletimeToUnixtime | utils.c:138-145 | 0 when not set; never negative; for a FILETIME from 1970 on, the whole seconds since 1970 |
| FileTimes.FiletimeRoundTrip | utils.c:118-145 | every time in [0, 2^31) survives the trip to FILETIME and back |
| FileTimes.BeforeUnixEpochWraps | utils.c:143-144 | a FILETIME before 1970 gives a huge time, because the subtraction is unsigned |
| StatMapping.StampOrKeep | utils.h:34-39 | a timestamp field is replaced by the converted time exactly when the stat time is non-zero, and is otherwise kept |
| StatMapping.StatToFindData | utils.h:18-45 | a NULL stat leaves the record untouched; otherwise the directory bit is set exactly for a directory, the normal bit exactly for a non-directory, the read-only bit exactly when no write permission bit is set, and no other attribute bit is set |
| StatMapping.SizeSplit | utils.h:31-32 | `nFileSizeHigh * 2^32 + nFileSizeLow` is the size, for every size below 2^64 |
| StatMapping.TimestampsKeptWhenUnset | utils.h:34-39 | each of the three timestamps is overwritten exactly when its stat time is non-zero, and is otherwise the prior value |
| StatMapping.FindDataBuffer.FillFromStat | utils.h:23-42 | the in-place macro body leaves the caller's record equal to `StatToFindData` of the record before |
| Create.OpenAndStore | dokany_lkl.c:391-397 | the final open: the descriptor is stored in `Context` only when it is non-negative; otherwise the error is translated |
| Create.Creates | dokany_lkl.c:354 | `FILE_CREATE` and `FILE_OPEN_IF` take the creating branch |
| Create.OpenStep | dokany_lkl.c:391-397 | the final open with mode 0755: a non-negative result is the context, a negative one is translated |
| Create.MkdirBranch | dokany_lkl.c:354-369 | mkdir with mode 0755; a failure other than EEXIST, or EEXIST under a disposition other than `FILE_CREATE`, ends the handler; otherwise an `O_DIRECTORY` open follows |
| Create.LstatBranch | dokany_lkl.c:370-389 | lstat; an error ends the handler; a directory under `FILE_NON_DIRECTORY_FILE` gives `FILE_IS_A_DIRECTORY`; otherwise an open with `O_DIRECTORY` or the converted flags |
| Create.CreateSpec | dokany_lkl.c:340-404 | the whole handler on a tape: access flags with `O_LARGEFILE`, the prologue, then the create-file, mkdir or lstat branch |
| Create.MakeDirectory | dokany_lkl.c:354-397 | the mkdir branch as a method: status, stored fields, trace and tape are those of `MkdirBranch` |
| Create.LookUp | dokany_lkl.c:371-397 | the lstat branch as a method: status, stored fields, trace and tape are those of `LstatBranch` |
| Create.CreateFile | dokany_lkl.c:340-404 | the handler: status, stored `IsDirectory`/`Context`, trace and tape are those of `CreateSpec`, and `DeleteOnClose` is untouched |
| Create.CreateDecodeFailure | dokany_lkl.c:347-351 | with the NULL test first, a name that does not convert gives `INSUFFICIENT_RESOURCES`, with no kernel call and nothing stored |
| Create.CreateContextOnSuccess | dokany_lkl.c:340-404 | success exactly when a descriptor is stored; a stored descriptor is the non-negative result of the last call, an open, and `IsDirectory` was stored too |
| Create.CreateOpenExisting | dokany_lkl.c:370-397 | the non-create dispositions: an lstat error is returned without an open; a directory with `FILE_NON_DIRECTORY_FILE` gives `FILE_IS_A_DIRECTORY`; otherwise one open follows, with exactly `O_DIRECTORY` for a directory or the access mode with `O_LARGEFILE`, and never `O_CREAT` |
| Create.CreateDirectory | dokany_lkl.c:355-368 | mkdir with mode 0755. A failure other than EEXIST is returned. EEXIST under `FILE_OPEN_IF` gives `OBJECT_NAME_COLLISION`. Success, or EEXIST under `FILE_CREATE`, opens with exactly `O_DIRECTORY` and sets `IsDirectory` |
| Create.CreateRegular | dokany_lkl.c:354-397 | the file branch: a single open with `O_CREAT` and without `O_EXCL`; `IsDirectory` is cleared, and a non-negative result is stored |
| Create.CloseFile | dokany_lkl.c:406-409 | the context becomes 0 and nothing else changes |
| Create.Cleanup | dokany_lkl.c:411-429 | the context becomes 0 and the calls are those of `CleanupCalls` |
| Create.CleanupCalls | dokany_lkl.c:411-429 | the calls of `LklCleanup`: close the context, then unlink or rmdir the name on delete-on-close |
| Create.CleanupEffects | dokany_lkl.c:411-429 | the old descriptor is always closed first, whatever its value. A second call happens exactly when delete-on-close is set and the name converts (with the NULL test done first); it is `rmdir` exactly for a directory and `unlink` otherwise. The results are ignored |
| Transfers.Sub32Wraps | dokany_lkl.c:447-455 | `BufferLength -= lkl_ret` is subtraction modulo 2^32 |
| Transfers.Sub32 | dokany_lkl.c:452 | `BufferLength -= lkl_ret` on a `DWORD` for a positive reply |
| Transfers.Loop | dokany_lkl.c:447-455 | the `do ... while` loop on a tape: stop on a reply <= 0, otherwise subtract, advance offset and buffer, and go on while something remains |
| Transfers.TransferSpec | dokany_lkl.c:431-466 | the handler on a tape: directory guard, zeroed count, the loop, a negative last reply translated, and `orig - BufferLength` on success |
| Transfers.LoopStarts | dokany_lkl.c:447-448 | the loop always makes its first call, asking for the whole remaining length, even 0 |
| Transfers.LoopReplies | dokany_lkl.c:447-455 | call i gets reply i, and the loop uses exactly as many replies as it makes calls |
| Transfers.LoopChain | dokany_lkl.c:449-455 | each call after the first follows a positive reply; it asks for the remaining length (computed in 32 bits and non-zero), at the offset and buffer position advanced by that reply |
| Transfers.LoopEnd | dokany_lkl.c:449-455 | the loop stops at the first reply <= 0 (leaving the length it asked for) or when the remaining length reaches 0; the last reply is its final `lkl_ret` |
| Transfers.LoopBalance | dokany_lkl.c:447-455 | the positive replies sum to the decrease of the remaining length, plus 2^32 for every reply that exceeded its request |
| Transfers.LoopCount | dokany_lkl.c:447-463 | `orig - BufferLength`, in 32 bits, is the sum of the replies modulo 2^32, whatever the kernel answers |
| Transfers.LoopCountHonest | dokany_lkl.c:447-463 | when no reply exceeds its request, `orig - BufferLength` is exactly the sum of the replies and at most the requested length |
| Transfers.LoopCapped | dokany_lkl.c:447-455 | against a kernel that moves at most `cap` bytes per call, `N > 0` bytes take ceil(N / cap) calls, move exactly N bytes and leave nothing remaining |
| Transfers.LoopCappedSteps | dokany_lkl.c:447-455 | against that kernel every call but the last gets `cap` bytes, and the last gets exactly what it asked for, between 1 and `cap` |
| Transfers.TransferDirectoryGuard | dokany_lkl.c:439-440 | a directory gives `INVALID_PARAMETER`, with no kernel call and the out-parameter not written |
| Transfers.TransferStarts | dokany_lkl.c:442-448 | a file always gets at least one call, the first asking for the whole length at the given offset |
| Transfers.TransferErrors | dokany_lkl.c:457-463 | the status is an error exactly when the last reply is negative; the error is that reply translated, and the count stays 0 |
| Transfers.TransferFileRun | dokany_lkl.c:457-463 | on success the reported count is `orig - BufferLength` modulo 2^32 |
| Transfers.TransferCounts | dokany_lkl.c:447-463 | on success the reported count is the sum of the replies modulo 2^32 |
| Transfers.TransferCountsHonest | dokany_lkl.c:447-463 | on success, with replies never above their requests, the count is exactly the bytes moved and at most the requested length |
| Transfers.TransferCapped | dokany_lkl.c:431-466 | a read or write of `N > 0` bytes against a kernel capped at `cap` bytes per call succeeds after ceil(N / cap) calls and reports exactly N |
| Transfers.ShortReadThenEnd | dokany_lkl.c:447-463 | 10 bytes asked, replies 4 then 0: two calls (the second for 6 bytes at offset 4) and 4 reported |
| Transfers.ErrorAfterProgress | dokany_lkl.c:457-463 | replies 4 then `-EIO`: the translated error and a count of 0 |
| Transfers.OverlongReplyWraps | dokany_lkl.c:452-455 | a reply of 20 to a request of 10 makes the next call ask for 2^32 - 10 bytes |
| Transfers.TransferLoop | dokany_lkl.c:447-455 | the `do ... while` loop: the calls made, the final remaining length, the last reply and the tape are those of `Loop` |
| Transfers.TransferFile | dokany_lkl.c:431-466 | the shared handler body: status, count, trace and tape are those of `TransferSpec` |
| Transfers.ReadFile | dokany_lkl.c:431-466 | `LklReadFile` is `TransferSpec` with `pread64` calls |
| Transfers.WriteFile | dokany_lkl.c:468-504 | `LklWriteFile` is `TransferSpec` with `pwrite64` calls |
| Handlers.FlushFileBuffers | dokany_lkl.c:506-514 | status, trace and tape are those of `FlushSpec` |
| Handlers.FlushSpec | dokany_lkl.c:506-514 | success with no call on a directory, otherwise one `fsync` of the context, translated |
| Handlers.SetEndOfFileSpec | dokany_lkl.c:675-683 | `INVALID_PARAMETER` on a directory, otherwise one `ftruncate` of the context, translated |
| Handlers.SetAllocationSizeSpec | dokany_lkl.c:685-693 | `INVALID_PARAMETER` on a directory, otherwise one `fallocate` of the context, translated |
| Handlers.SetEndOfFile | dokany_lkl.c:675-683 | status, trace and tape are those of `SetEndOfFileSpec` |
| Handlers.SetAllocationSize | dokany_lkl.c:685-693 | status, trace and tape are those of `SetAllocationSizeSpec` |
| Handlers.DescriptorGuards | dokany_lkl.c:506-693 | on a directory, flush succeeds and the two size handlers give `INVALID_PARAMETER`, all with no call. Otherwise each makes one call on the context's descriptor, and succeeds exactly when it returns 0 |
| Handlers.DeleteFile | dokany_lkl.c:617-632 | status, trace and tape are those of one `unlink` on the name |
| Handlers.DeleteDirectory | dokany_lkl.c:634-649 | status, trace and tape are those of one `rmdir` on the name |
| Handlers.PathCall | dokany_lkl.c:617-649 | a name handler: the prologue, then one kernel call on the path, translated |
| Handlers.PathCallOutcome | dokany_lkl.c:617-649 | a name handler fails on the conversion with no call, or makes exactly one call on the Unix-form name and returns its translated result |
| Handlers.MoveAllocated | dokany_lkl.c:656-657 | a name buffer exists exactly when its conversion succeeded |
| Handlers.MoveReleasedAsWritten | dokany_lkl.c:664-669 | the buffers freed as written: the source buffer under each of the two guards |
| Handlers.MoveReleased | dokany_lkl.c:664-669 | the buffers freed with the intended guards: each buffer under its own guard |
| Handlers.MoveSpec | dokany_lkl.c:651-663 | both names converted; a failure gives `INSUFFICIENT_RESOURCES`, otherwise one rename, translated |
| Handlers.MoveFileDoubleFree | dokany_lkl.c:664-669 | as written, when both names convert, the source buffer is freed twice and the target buffer never |
| Handlers.MoveFileReleasesOnce | dokany_lkl.c:664-669 | with the intended guards, exactly the allocated buffers are freed, each once |
| Handlers.MoveFile | dokany_lkl.c:651-672 | status, trace and tape are those of `MoveSpec`; the buffers handed to `free_char_buf` are `MoveReleasedAsWritten`: the source buffer once for each name that converted, and the target buffer never |
| Handlers.MoveOutcome | dokany_lkl.c:656-663 | a rename is made exactly when both names convert, on the two Unix-form names, and its result is translated; `ReplaceIfExisting` plays no part |
| Handlers.SetFileAttributes | dokany_lkl.c:695-724 | status, trace and tape are those of `SetAttributesSpec` |
| Handlers.SetAttributesSpec | dokany_lkl.c:695-724 | `FILE_ATTRIBUTE_NORMAL` alone chmods 0755; otherwise read-only chmods 0444 and temporary gives `NOT_IMPLEMENTED` |
| Handlers.SetAttributesOutcome | dokany_lkl.c:707-717 | at most one chmod. `FILE_ATTRIBUTE_NORMAL` alone gives mode 0755. Otherwise mode 0444 is set exactly when the read-only bit is set. The temporary bit always gives `NOT_IMPLEMENTED`, and any other value succeeds with no call |
| Handlers.ReadOnlyReadsBack | dokany_lkl.c:707-717 | a file with mode 0444 reads back as read-only through the stat mapping, and one with 0755 as writable |
| Handlers.TimeFor | dokany_lkl.c:740-753 | a NULL time gives `{0, UTIME_OMIT}`; any other gives the converted seconds with 0 nanoseconds |
| Handlers.SetFileTime | dokany_lkl.c:728-762 | status, trace and tape are those of one `utimensat(-1, name, [access, write], AT_SYMLINK_NOFOLLOW)` |
| Handlers.SetFileTimeSpec | dokany_lkl.c:728-762 | one `utimensat(-1, path, [access, write], AT_SYMLINK_NOFOLLOW)`; the creation time is unused |
| Handlers.SetFileTimeValues | dokany_lkl.c:740-756 | two NULL times pass the omit sentinel twice; a FILETIME made from an in-range Unix time passes that time; an all-zero FILETIME sets time 0 |
| Handlers.Bytes | dokany_lkl.c:782-788 | a block product stored in a `ULONGLONG` is in range, and is exact when it fits |
| Handlers.GetDiskFreeSpace | dokany_lkl.c:764-791 | status, the three stored quantities, trace and tape are those of `DiskFreeSpaceSpec` |
| Handlers.DiskFreeSpaceSpec | dokany_lkl.c:764-791 | one `statfs("/")`; on success each requested quantity is the block count times the `LONG` block size, as a `ULONGLONG` |
| Handlers.DiskFreeSpaceReported | dokany_lkl.c:774-790 | one `statfs("/")`; success exactly when it returns 0; each quantity is stored exactly on success and when its pointer is given |
| Handlers.DiskFreeSpaceExact | dokany_lkl.c:779-788 | for a positive `LONG` block size and totals that fit 64 bits, the numbers are the exact products, and available never exceeds total |
| Handlers.DiskFreeSpaceExample | dokany_lkl.c:779-782 | 1000 available blocks of 4096 bytes are reported as 4096000 bytes |
| Listing.GetFileInformation | dokany_lkl.c:518-546 | on success the link count, `IsDirectory` and the record (through the stat mapping, without clearing it first) are stored; on failure nothing is stored; the call is one lstat |
| Listing.FileInformationSpec | dokany_lkl.c:518-546 | one lstat of the name; the stat record only on success |
| Listing.FileInformationAgrees | dokany_lkl.c:529-540 | success exactly when the name converts and lstat returns 0; then the stored stat is the reply's, and the record's directory attribute agrees with `IsDirectory` |
| Listing.ReadRound | dokany_lkl.c:572-606 | one round of the loop: no entry ends it with success; otherwise the entry, even one with an empty name, is joined to the directory and looked up through `EntryRound`; a round that goes on uses up at least one reply |
| Listing.EntryRound | dokany_lkl.c:587-603 | lstat of the joined path (a failure ends the loop with it), then the name converted (a failure ends it), and a zeroed record filled by the stat mapping |
| Listing.Enumerate | dokany_lkl.c:572-606 | the `readdir` loop on a tape: rounds until one stops, records in order |
| Listing.JoinEntry | dokany_lkl.c:580-585 | `append_unix_path(dir, name, -1, -1)` as written: for a non-empty directory the joined path, starting with the directory and ending with the name, also for an empty name; NULL exactly for an empty directory |
| Listing.ReadOne | dokany_lkl.c:572-606 | one round of the loop as a method, against `ReadRound` |
| Listing.LookUpEntry | dokany_lkl.c:587-603 | the lstat and the name conversion of one entry, against `EntryRound` |
| Listing.ReadAll | dokany_lkl.c:572-606 | the `readdir` loop: status, records handed to `FillFindData`, trace and tape are those of `Enumerate` |
| Listing.FindFiles | dokany_lkl.c:550-615 | the handler: status, records, trace and tape are those of `FindFilesSpec` |
| Listing.FindFilesSpec | dokany_lkl.c:550-615 | opendir (a failure ends the handler without closedir), the loop, then closedir |
| Listing.EnumerateShape | dokany_lkl.c:572-606 | every enumeration starts with a readdir. It succeeds exactly when its last call is a readdir that found nothing, and no earlier call is one. Every lstat but the last call succeeded, so the first failing lstat ends the loop. There are fewer than half as many records as calls |
| Listing.FindFilesOpenDir | dokany_lkl.c:565-608 | a failed opendir gives its translated error with no records and no closedir; a successful one is followed by a readdir and ends with a closedir |
| Listing.FindFilesExample | dokany_lkl.c:572-606 | listing "/" with a 5-byte file "a.txt" and a directory "b" gives two records in order (normal, then directory), looked up as "/a.txt" and "/b" |
| Listing.EnumerateTwo | dokany_lkl.c:572-606 | two entries that are found and converted, then the end: two records and five calls, with every reply used |
| Listing.EmptyEntryNameLookedUp | dokany_lkl.c:580-592 | an entry with an empty name in directory "d" is not refused: it is looked up as "d/", and the round goes on when that lookup succeeds |
| Lifecycle.StartLkl | dokany_lkl.c:832-872 | the return value, the stored mount point, trace and tape are those of `StartSpec` |
| Lifecycle.StartSpec | dokany_lkl.c:832-872 | boot, mount, chroot in turn; a failed mount halts, a failed chroot unmounts and halts |
| Lifecycle.StopLkl | dokany_lkl.c:874-887 | `chdir("/")`, `umount("/", 0)`, halt, whatever each returns |
| Lifecycle.StopCalls | dokany_lkl.c:874-887 | `chdir("/")`, `umount("/", 0)`, halt |
| Lifecycle.StartUnwinds | dokany_lkl.c:837-871 | returns 0 exactly when boot, mount and chroot all succeed, leaving the kernel rooted. Otherwise it returns the failing step's code and the kernel is down again: a failed mount is followed by a halt, a failed chroot by an unmount and a halt |
| Lifecycle.StopHalts | dokany_lkl.c:874-887 | `stop_lkl` ends with a halt, so from any phase it leaves the kernel down |
| Lifecycle.Serve | dokany_lkl.c:1063-1104 | `wmain` runs `start_lkl` and then `stop_lkl` whatever the result, and always exits with `EXIT_SUCCESS` |
| Lifecycle.StartFailureIgnored | dokany_lkl.c:1063-1096 | a kernel that failed to boot is still sent `chdir`, `umount` and halt |

## Findings

| source | as written | input that shows it | evidently intended | confidence | as-written member | corrected member |
|---|---|---|---|---|---|---|
| dokany_lkl.c:347-348 (and the same two lines in every name-taking handler) | `win_path_to_unix` runs `strlen` on the conversion's result before the handler tests it for NULL | a conversion that returns NULL (utils.c:39-40) | test for NULL first and return `STATUS_INSUFFICIENT_RESOURCES` | not executed | Paths.PrologueAsWritten, Paths.NullCheckTooLate | Paths.CheckedPrologue, Paths.DecodePath |
| utils.c:61-69 | the "empty path or name" test looks at the length arguments before a -1 length is replaced by `strlen` | `append_unix_path("d", "", -1, -1)` returns "d/" | return NULL for an empty string passed with length -1 | not executed | Paths.AppendResult, Paths.AppendEmptyNameAsWritten | Paths.AppendResultChecked, Paths.AppendUnixPathChecked |
| dokany_lkl.c:668-669 | the second release is guarded by `unix_new_filename` but frees `unix_filename` | any move whose two names both convert | free `unix_new_filename` | not executed | Handlers.MoveReleasedAsWritten, Handlers.MoveFileDoubleFree | Handlers.MoveReleased, Handlers.MoveFileReleasesOnce |

## Where the code and its description differ

The model follows the code in each of these cases:

- Creating a directory: mkdir's EEXIST gives `OBJECT_NAME_COLLISION` under
  `FILE_OPEN_IF`. Under `FILE_CREATE` the existing directory is opened. This
  is the reverse of the usual create-new / open-if meaning
  (`Create.CreateDirectory`).
- Creating a file under `FILE_CREATE` passes `O_CREAT` without `O_EXCL`, so
  an existing file is opened rather than refused (`Create.CreateRegular`).
- Cleanup closes the context's descriptor whatever it holds, including the
  0 that `LklCloseFile` leaves (`Create.CleanupEffects`).
- Setting file times: a non-NULL all-zero FILETIME sets the time to 0 (1970)
  rather than leaving it alone (`Handlers.SetFileTimeValues`).
- An errno missing from the table gives `STATUS_UNSUCCESSFUL`
  (`Translation.UnlistedErrnoUnsuccessful`).
- `-ESHUTDOWN` comes back from the two tables as `-ECONNRESET`
  (`Translation.NotInverse`).
- `wmain` ignores `start_lkl`'s result and returns `EXIT_SUCCESS`
  (`Lifecycle.Serve`).
- The first failing per-entry lstat ends a directory listing with that
  status (`Listing.EnumerateShape`).
- `LklGetFileInformation` does not clear the caller's record, so unset
  timestamps keep their earlier values (`Listing.GetFileInformation`).
- `LklMoveFile` ignores `ReplaceIfExisting` (`Handlers.MoveOutcome`).

## Left out

- Text encoding: `utf8_to_wchar_buf` and `wchar_to_utf8_buf` wrap Windows conversion functions. The handlers take the conversion's result as a parameter (`Option<Text>`, or a `toWide` function in `LklFindFiles`).
- The LKL kernel is not modelled. Its replies come from an unconstrained tape, and a tape that runs out answers 0 with no directory entry.
- `LklGetVolumeInformation`, `LklMounted` and `LklUnmounted` only copy constant strings or log, so they are not modelled.
- `DbgPrint` and the `fprintf` diagnostics are output only, so they are not modelled.
- `wmain`'s argument parsing, Dokan option set-up, disk opening and `DokanMain` dispatch are host plumbing, so they are not modelled. `Lifecycle.Serve` keeps only the `start_lkl` / `stop_lkl` sequence and the exit code.
- Dokan calls handlers from several threads at once. Each handler is modelled as one sequential call.
- `malloc` and `free` are not modelled as a heap, so a failed allocation inside `append_unix_path` is not modelled. `LklMoveFile`'s releases are modelled as a multiset of buffers.
- The bytes moved by read and write are not modelled. The loop models the lengths, offsets and buffer positions it passes to the kernel, not the buffer's contents.
- Transfers.TransferLoop: the 64-bit `Offset` is an unbounded integer, because overflow would need more than 2^63 bytes of replies.
- `LklFindFiles` copies `nr_char` wide characters into the fixed `cFileName` array; the model hands the converted name over whole and does not model an overflow of that array.
- The security context, file attributes and share access arguments of `LklCreateFile` are never read by the code, so they are not parameters.
- Listing.ReadRound: the `lkl_linux_dirent64` record is reduced to its name.
- Kernel replies are C `int`s (`Int32`). The `long` that `lkl_sys_pread64` returns is assumed to fit, as it does for any transfer below 2^31 bytes.
- Paths.DecodePath: every handler model takes its name through this prologue, with the NULL test done first. As written, a failed conversion faults in `strlen` before that test (first finding), so the `INSUFFICIENT_RESOURCES` outcome below is the intended one, not the one the code reaches.
- Create.CreateDecodeFailure: states the checked prologue's `INSUFFICIENT_RESOURCES` for a failed conversion; as written the handler faults instead.
- Handlers.PathCallOutcome: the failed-conversion case states the checked prologue, not the fault of the code as written.
- Handlers.MoveOutcome: the failed-conversion case states the checked prologue, not the fault of the code as written.
- Listing.FileInformationAgrees: the failed-conversion case states the checked prologue, not the fault of the code as written.
- Create.CleanupEffects: with delete-on-close set, a name that does not convert ends the handler after the close; as written, `LklCleanup` faults in `strlen` before its NULL test (first finding).
- Listing.JoinEntry: an empty directory path makes `append_unix_path` read the byte before its buffer; the model answers NULL there, which `ReadRound` turns into `INSUFFICIENT_RESOURCES`.
- Handlers.GetDiskFreeSpace: the `statfs` counts are unbounded integers; the product is reduced modulo 2^64 as the `ULONGLONG` store does.

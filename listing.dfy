/** `LklGetFileInformation` and `LklFindFiles` of dokany_lkl.c: metadata of
    one name, and the listing of a directory through `readdir`. */
module Listing {
  import opened Types
  import opened Translation
  import opened Paths
  import opened StatMapping
  import opened Kernel
  import opened DokanInfo

  // ----- LklGetFileInformation -----

  /** The caller's `BY_HANDLE_FILE_INFORMATION`: the link count, and the
      fields it shares with the find-data record. */
  class HandleInformation {
    var numberOfLinks: Dword
    const data: FindDataBuffer

    constructor (numberOfLinks: Dword, data: FindDataBuffer)
      ensures this.numberOfLinks == numberOfLinks && this.data == data
    {
      this.numberOfLinks := numberOfLinks;
      this.data := data;
    }
  }

  /** A handler's status with the stat record it obtained (None when it
      obtained none). */
  datatype Looked = Looked(status: NtStatus, stat: Option<LklStat>, calls: seq<Call>, tape: seq<Answer>)

  /** `LklGetFileInformation` on a tape: one `lstat` of the name. */
  function FileInformationSpec(utf8: Option<Text>, tape: seq<Answer>): Looked {
    match DecodedPath(utf8)
    case None => Looked(InsufficientResources, None, [], tape)
    case Some(p) =>
      var a := Peek(tape);
      var calls := [Lstat(p, a.rc, a.stat)];
      if ErrnoToStatus(a.rc) != Success then Looked(ErrnoToStatus(a.rc), None, calls, Rest(tape))
      else Looked(Success, Some(a.stat), calls, Rest(tape))
  }

  /** The handler: on success it stores the link count, sets `IsDirectory`
      from the file type and fills the record through the stat mapping;
      the record is not cleared first, so unset timestamps keep whatever
      the caller's record held. On failure nothing is stored. */
  method GetFileInformation(k: Lkl, info: FileInfo, record: HandleInformation, utf8: Option<Text>)
    returns (status: NtStatus)
    modifies k, info, record, record.data
    ensures var s := FileInformationSpec(utf8, old(k.answers));
            && status == s.status
            && k.trace == old(k.trace) + s.calls && k.answers == s.tape
            && record.data.Value() == StatToFindData(s.stat, old(record.data.Value()))
            && record.numberOfLinks == (if s.stat.Some? then ToDword(s.stat.value.nlink) else old(record.numberOfLinks))
            && info.isDirectory == (if s.stat.Some? then IsDir(s.stat.value.mode) else old(info.isDirectory))
            && info.context == old(info.context) && info.deleteOnClose == old(info.deleteOnClose)
  {
    ghost var spec := FileInformationSpec(utf8, k.answers);
    var path := DecodePath(utf8);
    if path.None? {
      return InsufficientResources;
    }
    var rc, st := k.SysLstat(path.value);
    status := ErrnoToStatus(rc);
    assert spec.calls == [Lstat(path.value, rc, st)] && spec.tape == k.answers;
    if status != Success {
      assert spec.stat == None;
      return;
    }
    assert spec.stat == Some(st);
    record.numberOfLinks := ToDword(st.nlink);
    info.isDirectory := IsDir(st.mode);
    record.data.FillFromStat(Some(st));
  }

  /** The handler succeeds exactly when the name converts and `lstat`
      returns 0; then the `IsDirectory` flag it stores agrees with the
      directory attribute it reports, and the size words hold the size. */
  lemma FileInformationAgrees(utf8: Option<Text>, tape: seq<Answer>, prior: FindData)
    ensures var s := FileInformationSpec(utf8, tape);
            && (s.status == Success <==> utf8.Some? && Peek(tape).rc == 0)
            && (s.stat.Some? <==> s.status == Success)
            && (s.stat.Some? ==>
                  && s.stat.value == Peek(tape).stat
                  && var r := StatToFindData(s.stat, prior);
                     (r.attributes & FILE_ATTRIBUTE_DIRECTORY != 0 <==> IsDir(s.stat.value.mode)))
  {
  }

  // ----- LklFindFiles -----

  /** One record handed to Dokan's `FillFindData`: the mapped stat fields
      and the entry's name in UTF-16. */
  datatype Entry = Entry(data: FindData, name: WideText)

  /** A listing: its status, the records handed to `FillFindData` in order,
      the kernel calls and the unread tape. */
  datatype Listed = Listed(status: NtStatus, entries: seq<Entry>, calls: seq<Call>, tape: seq<Answer>)

  /** One round of the `readdir` loop: it either ends the loop with a
      status, or produces one record and goes on. */
  datatype Round =
    | Stop(status: NtStatus, calls: seq<Call>, tape: seq<Answer>)
    | Next(entry: Entry, calls: seq<Call>, tape: seq<Answer>)

  /** One round for the directory `p`; `toWide` stands for
      `utf8_to_wchar_buf`. No entry ends the loop successfully. Otherwise
      the entry is joined to the directory and looked up; an empty entry
      name is joined too (the directory with a trailing slash), since
      `append_unix_path` only refuses a zero length argument and both are
      -1 here. */
  function ReadRound(p: Text, toWide: Text -> Option<WideText>, tape: seq<Answer>): (r: Round)
    ensures r.Next? ==> |r.tape| < |tape|
  {
    var e := Peek(tape).entry;
    var rest := Rest(tape);
    var rd := Readdir(e);
    if e.None? then Stop(Success, [rd], rest)
    else if |p| == 0 then Stop(InsufficientResources, [rd], rest)
    else
      JoinedIsText(p, e.value);
      WithCall(rd, EntryRound(Joined(p, e.value), e.value, toWide, rest))
  }

  /** The rest of a round that found the entry `name` at `full`: `lstat`
      (a failure ends the loop with its status), then the name converted
      (a failure ends it too); the record starts zeroed and is filled by
      the stat mapping. */
  function EntryRound(full: Text, name: Text, toWide: Text -> Option<WideText>, tape: seq<Answer>): (r: Round)
    ensures |r.tape| <= |tape|
  {
    var a := Peek(tape);
    var calls := [Lstat(full, a.rc, a.stat)];
    if ErrnoToStatus(a.rc) != Success then Stop(ErrnoToStatus(a.rc), calls, Rest(tape))
    else match toWide(name)
      case None => Stop(InsufficientResources, calls, Rest(tape))
      case Some(w) => Next(Entry(StatToFindData(Some(a.stat), ZeroFindData), w), calls, Rest(tape))
  }

  /** `r` with the call `c` made before it. */
  function WithCall(c: Call, r: Round): Round {
    match r
    case Stop(status, calls, tape) => Stop(status, [c] + calls, tape)
    case Next(entry, calls, tape) => Next(entry, [c] + calls, tape)
  }

  /** The whole `readdir` loop of `LklFindFiles` on a tape. */
  function Enumerate(p: Text, toWide: Text -> Option<WideText>, tape: seq<Answer>): Listed
    decreases |tape|
  {
    match ReadRound(p, toWide, tape)
    case Stop(status, calls, rest) => Listed(status, [], calls, rest)
    case Next(entry, calls, rest) =>
      var more := Enumerate(p, toWide, rest);
      Listed(more.status, [entry] + more.entries, calls + more.calls, more.tape)
  }

  /** `LklFindFiles` on a tape: `opendir`, the loop, then `closedir` (whose
      result is ignored). A failed `opendir` ends the handler without a
      `closedir`. */
  function FindFilesSpec(utf8: Option<Text>, toWide: Text -> Option<WideText>, tape: seq<Answer>): Listed {
    match DecodedPath(utf8)
    case None => Listed(InsufficientResources, [], [], tape)
    case Some(p) =>
      var rc := Peek(tape).rc;
      if rc < 0 then Listed(ErrnoToStatus(rc), [], [Opendir(p, rc)], Rest(tape))
      else
        var l := Enumerate(p, toWide, Rest(tape));
        Listed(l.status, l.entries, [Opendir(p, rc)] + l.calls + [Closedir(Peek(l.tape).rc)], Rest(l.tape))
  }

  /** A listing with records and calls already produced in front. */
  function Behind(entries: seq<Entry>, calls: seq<Call>, l: Listed): Listed {
    Listed(l.status, entries + l.entries, calls + l.calls, l.tape)
  }

  /** A round that goes on moves one record and its calls in front of the
      rest of the loop. */
  lemma EnumerateNext(whole: Listed, entries: seq<Entry>, calls: seq<Call>, p: Text,
                      toWide: Text -> Option<WideText>, tape: seq<Answer>, r: Round,
                      start: seq<Call>, before: seq<Call>, after: seq<Call>)
    requires whole == Behind(entries, calls, Enumerate(p, toWide, tape))
    requires r == ReadRound(p, toWide, tape) && r.Next?
    requires before == start + calls && after == before + r.calls
    ensures whole == Behind(entries + [r.entry], calls + r.calls, Enumerate(p, toWide, r.tape))
    ensures after == start + (calls + r.calls)
  {
    var more := Enumerate(p, toWide, r.tape);
    assert Enumerate(p, toWide, tape) == Listed(more.status, [r.entry] + more.entries, r.calls + more.calls, more.tape);
    AppendAssoc(entries, [r.entry], more.entries);
    AppendAssoc(calls, r.calls, more.calls);
    AppendAssoc(start, calls, r.calls);
  }

  /** A round that stops ends the loop with its status. */
  lemma EnumerateStop(whole: Listed, entries: seq<Entry>, calls: seq<Call>, p: Text,
                      toWide: Text -> Option<WideText>, tape: seq<Answer>, r: Round,
                      start: seq<Call>, before: seq<Call>, after: seq<Call>)
    requires whole == Behind(entries, calls, Enumerate(p, toWide, tape))
    requires r == ReadRound(p, toWide, tape) && r.Stop?
    requires before == start + calls && after == before + r.calls
    ensures whole == Listed(r.status, entries, calls + r.calls, r.tape)
    ensures after == start + (calls + r.calls)
  {
    AppendAssoc(start, calls, r.calls);
  }

  /** `append_unix_path(dir, name, -1, -1)` as `LklFindFiles` calls it,
      with the NUL dropped from the result. An empty directory would make
      it read before its buffer; the model answers NULL there. */
  method JoinEntry(p: Text, name: Text) returns (full: Option<Text>)
    ensures full.None? <==> |p| == 0
    ensures |p| > 0 ==> full.Some? && full.value == Joined(p, name)
    ensures |p| > 0 ==> full.value[..|p|] == p && full.value[|full.value| - |name|..] == name
  {
    if |p| == 0 {
      return None;
    }
    AppendTextsAsWritten(p, name);
    var joined := AppendUnixPath(p + [NUL], name + [NUL], -1, -1);
    JoinedIsText(p, name);
    JoinedShape(p, name);
    var t: Text := joined[..joined.Length - 1];
    full := Some(t);
  }

  /** The body of the `readdir` loop: one round, with its kernel calls. */
  method ReadOne(k: Lkl, p: Text, toWide: Text -> Option<WideText>)
    returns (more: bool, status: NtStatus, entry: Entry, ghost round: Round)
    modifies k
    ensures round == ReadRound(p, toWide, old(k.answers))
    ensures more == round.Next?
    ensures round.Stop? ==> status == round.status
    ensures round.Next? ==> entry == round.entry
    ensures k.trace == old(k.trace) + round.calls && k.answers == round.tape
  {
    round := ReadRound(p, toWide, k.answers);
    entry := Entry(ZeroFindData, []);
    status := Success;
    more := false;
    var de := k.LklReaddir();
    if de.None? {
      return;
    }
    var name := de.value;
    var joined := JoinEntry(p, name);
    if joined.None? {
      status := InsufficientResources;
      return;
    }
    ghost var t1 := k.trace;
    ghost var r;
    more, status, entry, r := LookUpEntry(k, joined.value, name, toWide);
    AppendAssoc(old(k.trace), [Readdir(de)], r.calls);
  }

  /** The `lstat` of a joined entry and its conversion to a record. */
  method LookUpEntry(k: Lkl, full: Text, name: Text, toWide: Text -> Option<WideText>)
    returns (more: bool, status: NtStatus, entry: Entry, ghost round: Round)
    modifies k
    ensures round == EntryRound(full, name, toWide, old(k.answers))
    ensures more == round.Next?
    ensures round.Stop? ==> status == round.status
    ensures round.Next? ==> entry == round.entry
    ensures k.trace == old(k.trace) + round.calls && k.answers == round.tape
  {
    round := EntryRound(full, name, toWide, k.answers);
    entry := Entry(ZeroFindData, []);
    more := false;
    var rc, st := k.SysLstat(full);
    status := ErrnoToStatus(rc);
    if status != Success {
      return;
    }
    var w := toWide(name);
    if w.None? {
      status := InsufficientResources;
      return;
    }
    var record := new FindDataBuffer.Zeroed();
    record.FillFromStat(Some(st));
    more, entry := true, Entry(record.Value(), w.value);
  }

  /** The `readdir` loop. */
  method ReadAll(k: Lkl, p: Text, toWide: Text -> Option<WideText>) returns (status: NtStatus, entries: seq<Entry>)
    modifies k
    ensures var l := Enumerate(p, toWide, old(k.answers));
            && status == l.status && entries == l.entries
            && k.trace == old(k.trace) + l.calls && k.answers == l.tape
  {
    ghost var tape := k.answers;
    ghost var whole := Enumerate(p, toWide, tape);
    ghost var calls: seq<Call> := [];
    entries := [];
    while true
      invariant k.trace == old(k.trace) + calls
      invariant whole == Behind(entries, calls, Enumerate(p, toWide, k.answers))
      decreases |k.answers|
    {
      ghost var before, traceBefore := k.answers, k.trace;
      var more, roundStatus, entry, round := ReadOne(k, p, toWide);
      if !more {
        EnumerateStop(whole, entries, calls, p, toWide, before, round, old(k.trace), traceBefore, k.trace);
        calls := calls + round.calls;
        status := roundStatus;
        break;
      }
      EnumerateNext(whole, entries, calls, p, toWide, before, round, old(k.trace), traceBefore, k.trace);
      calls := calls + round.calls;
      entries := entries + [entry];
    }
    assert tape == old(k.answers);
  }

  /** The handler's three phases put together, for the method's proof. */
  lemma FindFilesPhases(utf8: Option<Text>, toWide: Text -> Option<WideText>, tape: seq<Answer>,
                        l: Listed, t0: seq<Call>, t1: seq<Call>, t2: seq<Call>, t3: seq<Call>)
    requires DecodedPath(utf8).Some? && Peek(tape).rc >= 0
    requires l == Enumerate(DecodedPath(utf8).value, toWide, Rest(tape))
    requires t1 == t0 + [Opendir(DecodedPath(utf8).value, Peek(tape).rc)]
    requires t2 == t1 + l.calls && t3 == t2 + [Closedir(Peek(l.tape).rc)]
    ensures var f := FindFilesSpec(utf8, toWide, tape);
            && f.status == l.status && f.entries == l.entries
            && t3 == t0 + f.calls && f.tape == Rest(l.tape)
  {
    var p := DecodedPath(utf8).value;
    var o := [Opendir(p, Peek(tape).rc)];
    var c := [Closedir(Peek(l.tape).rc)];
    assert FindFilesSpec(utf8, toWide, tape) == Listed(l.status, l.entries, o + l.calls + c, Rest(l.tape));
    AppendAssoc(t0, o, l.calls);
    AppendAssoc(t0, o + l.calls, c);
  }

  /** The handler. `entries` are the records handed to `FillFindData`. */
  method FindFiles(k: Lkl, utf8: Option<Text>, toWide: Text -> Option<WideText>)
    returns (status: NtStatus, entries: seq<Entry>)
    modifies k
    ensures var l := FindFilesSpec(utf8, toWide, old(k.answers));
            && status == l.status && entries == l.entries
            && k.trace == old(k.trace) + l.calls && k.answers == l.tape
  {
    entries := [];
    var path := DecodePath(utf8);
    if path.None? {
      return InsufficientResources, [];
    }
    var p := path.value;
    ghost var tape, t0 := k.answers, k.trace;
    var rc := k.LklOpendir(p);
    if rc < 0 {
      return ErrnoToStatus(rc), [];
    }
    ghost var t1 := k.trace;
    ghost var l := Enumerate(p, toWide, k.answers);
    status, entries := ReadAll(k, p, toWide);
    ghost var t2 := k.trace;
    var _ := k.LklClosedir();
    FindFilesPhases(utf8, toWide, tape, l, t0, t1, t2, k.trace);
  }

  /** The shape of every enumeration. It starts with a `readdir`. It
      succeeds exactly when its last call is a `readdir` that found no
      entry, and no earlier call is one. Every `lstat` but the last call
      succeeded: the first failing lookup ends the enumeration. Each
      record handed to Dokan comes from a successful `lstat`, so there are
      never more records than calls. */
  lemma {:induction false} EnumerateShape(p: Text, toWide: Text -> Option<WideText>, tape: seq<Answer>)
    ensures Shaped(Enumerate(p, toWide, tape))
    decreases |tape|
  {
    var r := ReadRound(p, toWide, tape);
    RoundShape(p, toWide, tape);
    EnumerateUnfold(p, toWide, tape);
    if r.Next? {
      var more := Enumerate(p, toWide, r.tape);
      EnumerateShape(p, toWide, r.tape);
      ShapePrefix(r.calls, more.calls);
      ShapedAfter(r.calls, r.entry, more, Enumerate(p, toWide, tape));
    } else {
      ShapedStop(r);
    }
  }

  /** The shape `EnumerateShape` states, of one listing. */
  predicate Shaped(l: Listed) {
    && |l.calls| >= 1 && l.calls[0].Readdir?
    && (l.status == Success <==> l.calls[|l.calls| - 1] == Readdir(None))
    && (forall i :: 0 <= i < |l.calls| - 1 ==> l.calls[i] != Readdir(None))
    && (forall i :: 0 <= i < |l.calls| - 1 && l.calls[i].Lstat? ==> l.calls[i].rc == 0)
    && 2 * |l.entries| < |l.calls|
  }

  /** A round that went on, in front of a well-shaped rest. */
  lemma ShapedAfter(x: seq<Call>, e: Entry, more: Listed, l: Listed)
    requires Shaped(more) && |x| == 2 && x[0].Readdir?
    requires forall i :: 0 <= i < |x + more.calls| - 1 ==> (x + more.calls)[i] != Readdir(None)
    requires forall i :: 0 <= i < |x + more.calls| - 1 && (x + more.calls)[i].Lstat? ==> (x + more.calls)[i].rc == 0
    requires l == Listed(more.status, [e] + more.entries, x + more.calls, more.tape)
    ensures Shaped(l)
  {
    assert l.calls[|l.calls| - 1] == more.calls[|more.calls| - 1];
  }

  /** The facts about one round that `EnumerateShape` needs. */
  predicate RoundShaped(r: Round) {
    && 1 <= |r.calls| <= 2 && r.calls[0].Readdir?
    && (|r.calls| == 1 ==> r.Stop? && (r.status == Success <==> r.calls[0] == Readdir(None)))
    && (|r.calls| == 2 ==> r.calls[0] != Readdir(None) && r.calls[1].Lstat?)
    && (r.Stop? && |r.calls| == 2 ==> r.status != Success)
    && (r.Next? ==> |r.calls| == 2 && r.calls[1].rc == 0)
  }

  /** A round that stops is a well-shaped listing on its own. */
  lemma ShapedStop(r: Round)
    requires RoundShaped(r) && r.Stop?
    ensures Shaped(Listed(r.status, [], r.calls, r.tape))
  {
  }

  /** One round makes a `readdir`, and then an `lstat` that succeeded when
      the round goes on. */
  lemma RoundShape(p: Text, toWide: Text -> Option<WideText>, tape: seq<Answer>)
    ensures RoundShaped(ReadRound(p, toWide, tape))
  {
    var e := Peek(tape).entry;
    if e.Some? && |p| > 0 {
      JoinedIsText(p, e.value);
      var full: Text := Joined(p, e.value);
      EntryShape(full, e.value, toWide, Rest(tape));
      WithCallShaped(Readdir(e), EntryRound(full, e.value, toWide, Rest(tape)));
    }
  }

  /** A found entry's `readdir` in front of its lookup makes a well-shaped
      round. */
  lemma WithCallShaped(c: Call, r: Round)
    requires c.Readdir? && c != Readdir(None)
    requires |r.calls| == 1 && r.calls[0].Lstat?
    requires r.Stop? ==> r.status != Success
    requires r.Next? ==> r.calls[0].rc == 0
    ensures RoundShaped(WithCall(c, r))
  {
  }

  /** The lookup of an entry makes one `lstat`; it goes on only when that
      succeeded, and otherwise ends with an error. */
  lemma EntryShape(full: Text, name: Text, toWide: Text -> Option<WideText>, tape: seq<Answer>)
    ensures var r := EntryRound(full, name, toWide, tape);
            && |r.calls| == 1 && r.calls[0].Lstat?
            && (r.Stop? ==> r.status != Success)
            && (r.Next? ==> r.calls[0].rc == 0)
  {
  }

  /** A round that went on, put in front of calls that end the loop
      properly, keeps no early end. */
  lemma ShapePrefix(x: seq<Call>, y: seq<Call>)
    requires |x| == 2 && x[0].Readdir? && x[0] != Readdir(None) && x[1].Lstat? && x[1].rc == 0
    requires |y| >= 1
    requires forall i :: 0 <= i < |y| - 1 ==> y[i] != Readdir(None)
    requires forall i :: 0 <= i < |y| - 1 && y[i].Lstat? ==> y[i].rc == 0
    ensures forall i :: 0 <= i < |x + y| - 1 ==> (x + y)[i] != Readdir(None)
    ensures forall i :: 0 <= i < |x + y| - 1 && (x + y)[i].Lstat? ==> (x + y)[i].rc == 0
  {
    forall i | 0 <= i < |x + y| - 1
      ensures (x + y)[i] != Readdir(None)
      ensures (x + y)[i].Lstat? ==> (x + y)[i].rc == 0
    {
      if i >= 2 {
        assert (x + y)[i] == y[i - 2];
      }
    }
  }

  /** A failed `opendir` ends the handler with its translated error, no
      records and no `closedir`; a successful one is always matched by a
      `closedir` as the last call. */
  lemma FindFilesOpenDir(t: Text, toWide: Text -> Option<WideText>, tape: seq<Answer>)
    ensures var f := FindFilesSpec(Some(t), toWide, tape);
            var rc := Peek(tape).rc;
            && f.calls[0] == Opendir(UnixForm(t), rc)
            && (rc < 0 ==> f.status == ErrnoToStatus(rc) != Success && f.entries == [] && |f.calls| == 1)
            && (rc >= 0 ==> |f.calls| >= 3 && f.calls[|f.calls| - 1].Closedir? && f.calls[1].Readdir?)
  {
    var rc := Peek(tape).rc;
    if rc >= 0 {
      EnumerateShape(UnixForm(t), toWide, Rest(tape));
    }
  }

  /** The listing of the root holding a file "a.txt" (mode 0644, 5 bytes)
      and a directory "b" (mode 0755): two records in readdir order, the
      first marked normal and the second directory, with their sizes and
      the never-set timestamps left zero, looked up as "/a.txt" and "/b"
      (the root's slash is not doubled). */
  lemma FindFilesExample(toWide: Text -> Option<WideText>, wa: WideText, wb: WideText)
    requires toWide([0x61, 0x2E, 0x74, 0x78, 0x74]) == Some(wa) && toWide([0x62]) == Some(wb)
    ensures var file := LklStat(0x81A4, 5, 1, 0, 0, 0);
            var dir := LklStat(0x41ED, 4096, 2, 0, 0, 0);
            var zero := FileTime(0, 0);
            var tape := [Answer(0, ZeroStat, ZeroStatFs, Some([0x61, 0x2E, 0x74, 0x78, 0x74]), []),
                         Answer(0, file, ZeroStatFs, None, []),
                         Answer(0, ZeroStat, ZeroStatFs, Some([0x62]), []),
                         Answer(0, dir, ZeroStatFs, None, []),
                         Answer(0, ZeroStat, ZeroStatFs, None, [])];
            Enumerate([SLASH], toWide, tape) ==
              Listed(Success,
                     [Entry(FindData(FILE_ATTRIBUTE_NORMAL, 5, 0, zero, zero, zero), wa),
                      Entry(FindData(FILE_ATTRIBUTE_DIRECTORY, 4096, 0, zero, zero, zero), wb)],
                     [Readdir(Some([0x61, 0x2E, 0x74, 0x78, 0x74])), Lstat([SLASH, 0x61, 0x2E, 0x74, 0x78, 0x74], 0, file),
                      Readdir(Some([0x62])), Lstat([SLASH, 0x62], 0, dir), Readdir(None)],
                     [])
  {
    var file := LklStat(0x81A4, 5, 1, 0, 0, 0);
    var dir := LklStat(0x41ED, 4096, 2, 0, 0, 0);
    var a: Text := [0x61, 0x2E, 0x74, 0x78, 0x74];
    var b: Text := [0x62];
    var tape := [Answer(0, ZeroStat, ZeroStatFs, Some([0x61, 0x2E, 0x74, 0x78, 0x74]), []),
                 Answer(0, file, ZeroStatFs, None, []),
                 Answer(0, ZeroStat, ZeroStatFs, Some([0x62]), []),
                 Answer(0, dir, ZeroStatFs, None, []),
                 Answer(0, ZeroStat, ZeroStatFs, None, [])];
    ExampleAttributes(file, dir);
    assert Joined([SLASH], a) == [SLASH, 0x61, 0x2E, 0x74, 0x78, 0x74];
    assert Joined([SLASH], b) == [SLASH, 0x62];
    EnumerateTwo([SLASH], toWide, a, b, file, dir, wa, wb, tape);
  }

  /** Two entries that are both found and converted, then the end of the
      directory: two records and five calls, with every reply used. */
  lemma EnumerateTwo(p: Text, toWide: Text -> Option<WideText>, a: Text, b: Text,
                     sa: LklStat, sb: LklStat, wa: WideText, wb: WideText, tape: seq<Answer>)
    requires |p| > 0 && toWide(a) == Some(wa) && toWide(b) == Some(wb)
    requires |tape| == 5 && tape[0].entry == Some(a) && tape[1].rc == 0 && tape[1].stat == sa
    requires tape[2].entry == Some(b) && tape[3].rc == 0 && tape[3].stat == sb && tape[4].entry.None?
    ensures Enumerate(p, toWide, tape)
         == Listed(Success,
                   [Entry(StatToFindData(Some(sa), ZeroFindData), wa), Entry(StatToFindData(Some(sb), ZeroFindData), wb)],
                   [Readdir(Some(a)), Lstat(Joined(p, a), 0, sa), Readdir(Some(b)), Lstat(Joined(p, b), 0, sb), Readdir(None)],
                   [])
  {
    var ea := Entry(StatToFindData(Some(sa), ZeroFindData), wa);
    var eb := Entry(StatToFindData(Some(sb), ZeroFindData), wb);
    RoundFound(p, toWide, a, sa, wa, tape);
    RoundFound(p, toWide, b, sb, wb, tape[2..]);
    assert tape[2..][2..] == tape[4..];
    EnumerateUnfold(p, toWide, tape[4..]);
    var e4 := Enumerate(p, toWide, tape[4..]);
    assert e4 == Listed(Success, [], [Readdir(None)], []);
    EnumerateUnfold(p, toWide, tape[2..]);
    var e2 := Enumerate(p, toWide, tape[2..]);
    assert e2 == Listed(Success, [eb], [Readdir(Some(b)), Lstat(Joined(p, b), 0, sb)] + [Readdir(None)], []);
    EnumerateUnfold(p, toWide, tape);
  }

  /** One round of `Enumerate`, spelled out. */
  lemma EnumerateUnfold(p: Text, toWide: Text -> Option<WideText>, tape: seq<Answer>)
    ensures var r := ReadRound(p, toWide, tape);
            && (r.Stop? ==> Enumerate(p, toWide, tape) == Listed(r.status, [], r.calls, r.tape))
            && (r.Next? ==>
                  var more := Enumerate(p, toWide, r.tape);
                  Enumerate(p, toWide, tape) == Listed(more.status, [r.entry] + more.entries, r.calls + more.calls, more.tape))
  {
  }

  /** A round whose `readdir` names an entry, whose `lstat` succeeds and
      whose name converts hands one record on and uses two replies. */
  lemma RoundFound(p: Text, toWide: Text -> Option<WideText>, n: Text, st: LklStat, w: WideText, tape: seq<Answer>)
    requires |p| > 0 && toWide(n) == Some(w)
    requires |tape| >= 2 && tape[0].entry == Some(n) && tape[1].rc == 0 && tape[1].stat == st
    ensures ReadRound(p, toWide, tape)
         == Next(Entry(StatToFindData(Some(st), ZeroFindData), w), [Readdir(Some(n)), Lstat(Joined(p, n), 0, st)], tape[2..])
  {
    JoinedIsText(p, n);
    var full: Text := Joined(p, n);
    assert Rest(tape) == tape[1..];
    EntryFound(full, n, toWide, st, w, tape[1..]);
  }

  /** A directory entry with an empty name is not refused: directory "d"
      gives the lookup of "d/", and the round goes on when that succeeds. */
  lemma EmptyEntryNameLookedUp(toWide: Text -> Option<WideText>, st: LklStat, w: WideText, tape: seq<Answer>)
    requires toWide([]) == Some(w)
    requires |tape| >= 2 && tape[0].entry == Some([]) && tape[1].rc == 0 && tape[1].stat == st
    ensures var r := ReadRound([0x64], toWide, tape);
            r.Next? && r.calls == [Readdir(Some([])), Lstat([0x64, SLASH], 0, st)]
  {
    RoundFound([0x64], toWide, [], st, w, tape);
    assert Joined([0x64], []) == [0x64, SLASH];
  }

  /** The `lstat` and conversion half of that round. */
  lemma EntryFound(full: Text, n: Text, toWide: Text -> Option<WideText>, st: LklStat, w: WideText, tape: seq<Answer>)
    requires toWide(n) == Some(w) && |tape| >= 1 && tape[0].rc == 0 && tape[0].stat == st
    ensures EntryRound(full, n, toWide, tape) == Next(Entry(StatToFindData(Some(st), ZeroFindData), w), [Lstat(full, 0, st)], tape[1..])
  {
    assert Peek(tape) == tape[0] && Rest(tape) == tape[1..];
  }

  /** The records of the example's file and directory. */
  lemma ExampleAttributes(file: LklStat, dir: LklStat)
    requires file == LklStat(0x81A4, 5, 1, 0, 0, 0) && dir == LklStat(0x41ED, 4096, 2, 0, 0, 0)
    ensures StatToFindData(Some(file), ZeroFindData) == FindData(FILE_ATTRIBUTE_NORMAL, 5, 0, FileTime(0, 0), FileTime(0, 0), FileTime(0, 0))
    ensures StatToFindData(Some(dir), ZeroFindData) == FindData(FILE_ATTRIBUTE_DIRECTORY, 4096, 0, FileTime(0, 0), FileTime(0, 0), FileTime(0, 0))
  {
    assert !IsDir(file.mode) && file.mode & S_IWANY != 0;
    assert IsDir(dir.mode) && dir.mode & S_IWANY != 0;
  }
}

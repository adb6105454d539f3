/** Path utilities of utils.c: in-place separator rewriting and joining a
    directory path with an entry name. */
module Paths {
  import opened Types

  /** `strlen`: the index of the first NUL. */
  function StrLen(s: seq<byte>): (n: nat)
    requires NUL in s
    ensures n < |s| && s[n] == NUL && NUL !in s[..n]
  {
    if s[0] == NUL then 0
    else
      var n := StrLen(s[1..]);
      assert s[..n + 1] == [s[0]] + s[1..][..n];
      n + 1
  }

  /** A C string built from text: its length is the text's length. */
  lemma StrLenOfText(t: Text)
    ensures NUL in t + [NUL] && StrLen(t + [NUL]) == |t|
  {
    var s := t + [NUL];
    assert s[|t|] == NUL;
    assert forall i :: 0 <= i < |t| ==> s[i] == t[i] && s[i] != NUL;
    var n := StrLen(s);
    assert s[n] == NUL;
  }

  /** The byte string with every `from` byte replaced by `to`. */
  function Rewritten(s: seq<byte>, from: byte, to: byte): (r: seq<byte>)
    ensures |r| == |s|
  {
    seq(|s|, i requires 0 <= i < |s| => if s[i] == from then to else s[i])
  }

  /** `win_path_to_unix` on a string's characters. */
  function UnixForm(t: Text): (r: Text)
    ensures |r| == |t|
  {
    Rewritten(t, BACKSLASH, SLASH)
  }

  /** `unix_path_to_win` on a string's characters. */
  function WinForm(t: Text): (r: Text)
    ensures |r| == |t|
  {
    Rewritten(t, SLASH, BACKSLASH)
  }

  /** Rewriting twice is rewriting once. */
  lemma RewriteIdempotent(s: seq<byte>, from: byte, to: byte)
    ensures Rewritten(Rewritten(s, from, to), from, to) == Rewritten(s, from, to)
  {
  }

  /** After rewriting, the replaced byte no longer occurs; every other byte
      is where it was. */
  lemma RewriteRemovesSource(s: seq<byte>, from: byte, to: byte)
    requires from != to
    ensures from !in Rewritten(s, from, to)
    ensures forall i :: 0 <= i < |s| && s[i] != from ==> Rewritten(s, from, to)[i] == s[i]
  {
    var r := Rewritten(s, from, to);
    assert forall i :: 0 <= i < |r| ==> r[i] != from;
  }

  /** A path in Unix form has no backslash, and normalising it again
      changes nothing. */
  lemma UnixFormNormal(t: Text)
    ensures BACKSLASH !in UnixForm(t)
    ensures UnixForm(UnixForm(t)) == UnixForm(t)
  {
    RewriteRemovesSource(t, BACKSLASH, SLASH);
    RewriteIdempotent(t, BACKSLASH, SLASH);
  }

  /** A path in Windows form has no slash, and normalising it again changes
      nothing. */
  lemma WinFormNormal(t: Text)
    ensures SLASH !in WinForm(t)
    ensures WinForm(WinForm(t)) == WinForm(t)
  {
    RewriteRemovesSource(t, SLASH, BACKSLASH);
    RewriteIdempotent(t, SLASH, BACKSLASH);
  }

  /** The two directions forget which separator a path was written with:
      converting to one form first does not change the other form. */
  lemma SeparatorsInterchangeable(t: Text)
    ensures WinForm(UnixForm(t)) == WinForm(t)
    ensures UnixForm(WinForm(t)) == UnixForm(t)
  {
  }

  /** The loop both rewriting routines share: replace `from` by `to` in the
      characters before the terminating NUL, leaving the buffer's other
      bytes alone. */
  method ReplaceBeforeNul(path: array<byte>, from: byte, to: byte)
    requires NUL in path[..]
    modifies path
    ensures var n := StrLen(old(path[..]));
            path[..] == Rewritten(old(path[..])[..n], from, to) + old(path[..])[n..]
  {
    ghost var s := path[..];
    var len := StrLen(path[..]);
    for i := 0 to len
      invariant forall j :: 0 <= j < i ==> path[j] == (if s[j] == from then to else s[j])
      invariant forall j :: i <= j < path.Length ==> path[j] == s[j]
    {
      var ch := path[i];
      if ch == from {
        path[i] := to;
      }
    }
    assert path[..] == Rewritten(s[..len], from, to) + s[len..];
  }

  /** `win_path_to_unix`: turns every backslash of the C string into a slash,
      in place, and hands back the same buffer. */
  method WinPathToUnix(path: array<byte>) returns (r: array<byte>)
    requires NUL in path[..]
    modifies path
    ensures r == path
    ensures var n := StrLen(old(path[..]));
            path[..] == Rewritten(old(path[..])[..n], BACKSLASH, SLASH) + old(path[..])[n..]
  {
    ReplaceBeforeNul(path, BACKSLASH, SLASH);
    r := path;
  }

  /** `unix_path_to_win`: turns every slash of the C string into a backslash,
      in place, and hands back the same buffer. */
  method UnixPathToWin(path: array<byte>) returns (r: array<byte>)
    requires NUL in path[..]
    modifies path
    ensures r == path
    ensures var n := StrLen(old(path[..]));
            path[..] == Rewritten(old(path[..])[..n], SLASH, BACKSLASH) + old(path[..])[n..]
  {
    ReplaceBeforeNul(path, SLASH, BACKSLASH);
    r := path;
  }

  /** What the handlers hold after `win_path_to_unix(wchar_to_utf8_buf(name))`
      when the NULL check runs before the rewrite (see `Prologue`). */
  function DecodedPath(utf8: Option<Text>): Option<Text> {
    if utf8.None? then None else Some(UnixForm(utf8.value))
  }

  /** The handlers' common first step: the UTF-8 buffer the conversion
      produced is rewritten in place to Unix form. A failed conversion
      yields no path. */
  method DecodePath(utf8: Option<Text>) returns (p: Option<Text>)
    ensures p == DecodedPath(utf8)
  {
    if utf8.None? {
      return None;
    }
    var t := utf8.value;
    var buf := new byte[|t| + 1](i => if 0 <= i < |t| then t[i] else NUL);
    assert buf[..] == t + [NUL];
    StrLenOfText(t);
    var same := WinPathToUnix(buf);
    assert buf[..|t|] == UnixForm(t);
    p := Some(buf[..|t|]);
  }

  /** The outcome of the first lines of every path-taking handler. */
  datatype Prologue = Faults | NoResources | Proceeds(path: Text)

  /** The prologue as written: `win_path_to_unix` runs `strlen` on the
      conversion's result before the handler tests it for NULL, so a failed
      conversion dereferences NULL. */
  function PrologueAsWritten(utf8: Option<Text>): Prologue {
    if utf8.None? then Faults else Proceeds(UnixForm(utf8.value))
  }

  /** The prologue with the NULL test first, as the handlers' error path
      intends; the handler models use this one. */
  function CheckedPrologue(utf8: Option<Text>): Prologue {
    match DecodedPath(utf8)
    case None => NoResources
    case Some(p) => Proceeds(p)
  }

  /** As written, the handlers' `STATUS_INSUFFICIENT_RESOURCES` branch for a
      failed conversion can never be reached: the NULL pointer is
      dereferenced first. With the test first, exactly the failed
      conversions reach it, and both agree on every successful one. */
  lemma NullCheckTooLate(utf8: Option<Text>)
    ensures PrologueAsWritten(utf8) != NoResources
    ensures utf8.None? ==> PrologueAsWritten(utf8) == Faults
    ensures CheckedPrologue(utf8) == NoResources <==> utf8.None?
    ensures utf8.Some? ==> CheckedPrologue(utf8) == PrologueAsWritten(utf8)
  {
  }

  /** `path` and `name` joined with a single slash between them: no slash is
      added when `path` already ends in one. */
  function Joined(p: seq<byte>, n: seq<byte>): seq<byte>
    requires |p| > 0
  {
    if p[|p| - 1] == SLASH then p + n else p + [SLASH] + n
  }

  /** A length argument of `append_unix_path`: negative means "use strlen". */
  function Resolved(s: seq<byte>, len: int): int
    requires NUL in s
  {
    if len < 0 then StrLen(s) else len
  }

  /** The memory `append_unix_path` reads stays inside the caller's buffers,
      for the lengths it resolves (both are C strings). */
  predicate AppendArgsInBounds(path: seq<byte>, name: seq<byte>, pathLen: int, nameLen: int) {
    && NUL in path && NUL in name
    && (pathLen > 0 ==> pathLen < |path| || (pathLen <= |path| && path[pathLen - 1] == SLASH))
    && (nameLen > 0 ==> nameLen <= |name|)
  }

  /** The buffer `append_unix_path` returns, or None for NULL, as written:
      the "empty is not allowed" test looks at the length arguments before a
      negative one is replaced by the string's length. */
  function AppendResult(path: seq<byte>, name: seq<byte>, pathLen: int, nameLen: int): (r: Option<seq<byte>>)
    requires AppendArgsInBounds(path, name, pathLen, nameLen)
    requires pathLen < 0 && nameLen != 0 ==> StrLen(path) > 0
    ensures r.None? <==> pathLen == 0 || nameLen == 0
  {
    if pathLen == 0 || nameLen == 0 then None
    else
      var l := Resolved(path, pathLen);
      var n := Resolved(name, nameLen);
      Some(Joined(path[..l], name[..n]) + [NUL])
  }

  /** `append_unix_path` with the emptiness test after the lengths are
      resolved, as its comment intends. */
  function AppendResultChecked(path: seq<byte>, name: seq<byte>, pathLen: int, nameLen: int): (r: Option<seq<byte>>)
    requires AppendArgsInBounds(path, name, pathLen, nameLen)
    ensures r.None? <==> Resolved(path, pathLen) == 0 || Resolved(name, nameLen) == 0
  {
    var l := Resolved(path, pathLen);
    var n := Resolved(name, nameLen);
    if l == 0 || n == 0 then None else AppendResult(path, name, l, n)
  }

  /** The joined path starts with the directory, ends with the name, has a
      slash right before the name, and is one byte longer than the two
      parts exactly when the directory did not already end in a slash. */
  lemma JoinedShape(p: seq<byte>, n: seq<byte>)
    requires |p| > 0
    ensures var r := Joined(p, n);
            && |r| == |p| + (if p[|p| - 1] == SLASH then 0 else 1) + |n|
            && r[..|p|] == p
            && r[|r| - |n|..] == n
            && r[|r| - |n| - 1] == SLASH
  {
  }

  /** Joining two C strings gives a C string. */
  lemma JoinedIsText(p: Text, n: Text)
    requires |p| > 0
    ensures NUL !in Joined(p, n)
  {
  }

  /** For two C strings passed with length -1 (as `LklFindFiles` does), the
      checked join is NULL exactly when either string is empty, and is
      otherwise the joined path followed by its NUL. */
  lemma AppendTexts(p: Text, n: Text)
    ensures AppendArgsInBounds(p + [NUL], n + [NUL], -1, -1)
    ensures AppendResultChecked(p + [NUL], n + [NUL], -1, -1) ==
            if |p| == 0 || |n| == 0 then None else Some(Joined(p, n) + [NUL])
  {
    StrLenOfText(p);
    StrLenOfText(n);
    assert (p + [NUL])[..|p|] == p;
    assert (n + [NUL])[..|n|] == n;
  }

  /** The same call as written: for a non-empty directory the result is
      the joined path followed by its NUL, even when the name is empty
      (then the directory with a trailing slash). */
  lemma AppendTextsAsWritten(p: Text, n: Text)
    requires |p| > 0
    ensures AppendArgsInBounds(p + [NUL], n + [NUL], -1, -1)
    ensures StrLen(p + [NUL]) > 0
    ensures AppendResult(p + [NUL], n + [NUL], -1, -1) == Some(Joined(p, n) + [NUL])
  {
    StrLenOfText(p);
    StrLenOfText(n);
    assert (p + [NUL])[..|p|] == p;
    assert (n + [NUL])[..|n|] == n;
  }

  /** As written, an empty name passed with length -1 slips past the
      emptiness test: directory "d" and name "" give "d/" instead of NULL. */
  lemma AppendEmptyNameAsWritten()
    ensures AppendArgsInBounds([0x64, NUL], [NUL], -1, -1)
    ensures AppendResult([0x64, NUL], [NUL], -1, -1) == Some([0x64, SLASH, NUL])
    ensures AppendResultChecked([0x64, NUL], [NUL], -1, -1) == None
  {
    var path: seq<byte> := [0x64, NUL];
    var name: seq<byte> := [NUL];
    assert StrLen(path) == 1 by {
      assert path[1..] == [NUL];
    }
    assert StrLen(name) == 0;
    assert path[..1] == [0x64];
    assert name[..0] == [];
    assert Joined(path[..1], name[..0]) == [0x64, SLASH];
    assert Resolved(path, -1) == 1 && Resolved(name, -1) == 0;
    assert AppendResult(path, name, -1, -1) == Some([0x64, SLASH] + [NUL]);
    assert [0x64, SLASH] + [NUL] == [0x64, SLASH, NUL];
  }

  /** `memcpy(dst + at, src, count)`. */
  method MemCopy(dst: array<byte>, at: nat, src: seq<byte>, count: nat)
    requires at + count <= dst.Length && count <= |src|
    modifies dst
    ensures dst[..] == old(dst[..at]) + src[..count] + old(dst[at + count..])
  {
    ghost var before := dst[..];
    for i := 0 to count
      invariant forall j :: 0 <= j < dst.Length ==>
                  dst[j] == if at <= j < at + i then src[j - at] else before[j]
    {
      dst[at + i] := src[i];
    }
    assert dst[..] == before[..at] + src[..count] + before[at + count..];
  }

  /** `append_unix_path`: a fresh NUL-terminated buffer holding `path`, one
      slash and `name`; NULL when either length argument is 0. */
  method AppendUnixPath(path: seq<byte>, name: seq<byte>, pathLen: int, nameLen: int) returns (r: array?<byte>)
    requires AppendArgsInBounds(path, name, pathLen, nameLen)
    requires pathLen < 0 && nameLen != 0 ==> StrLen(path) > 0
    ensures r == null <==> AppendResult(path, name, pathLen, nameLen).None?
    ensures r != null ==> fresh(r) && r[..] == AppendResult(path, name, pathLen, nameLen).value
  {
    if pathLen == 0 || nameLen == 0 {
      return null;
    }
    var pl := if pathLen < 0 then StrLen(path) else pathLen;
    var nl := if nameLen < 0 then StrLen(name) else nameLen;
    r := JoinedBuffer(path, pl, name, nl);
  }

  /** The allocation and copies of `append_unix_path` once both lengths are
      known: `malloc`, `memset` to zero, copy the directory (one byte more
      when a slash must follow it), write the slash, copy the name. */
  method JoinedBuffer(path: seq<byte>, l: nat, name: seq<byte>, nl: nat) returns (r: array<byte>)
    requires 0 < l <= |path| && nl <= |name|
    requires path[l - 1] != SLASH ==> l < |path|
    ensures fresh(r) && r[..] == Joined(path[..l], name[..nl]) + [NUL]
  {
    var pl := l;
    var slashed := path[pl - 1] == SLASH;
    if !slashed {
      pl := pl + 1;
    }
    var allocSize := pl + nl + 1;
    r := new byte[allocSize](_ => NUL);
    ghost var zeros := r[..];
    MemCopy(r, 0, path, pl);
    assert r[..] == path[..pl] + zeros[pl..];
    r[pl - 1] := SLASH;
    assert r[..] == path[..pl - 1] + [SLASH] + zeros[pl..];
    ghost var mid := r[..];
    assert mid[..pl] == path[..pl - 1] + [SLASH];
    assert mid[pl + nl..] == [NUL] by {
      assert |mid[pl + nl..]| == 1 && mid[pl + nl] == zeros[pl + nl] == NUL;
    }
    MemCopy(r, pl, name, nl);
    assert r[..] == mid[..pl] + name[..nl] + mid[pl + nl..];
    JoinedLayout(path, l, name[..nl], slashed);
  }

  /** The layout `append_unix_path` produces is the joined path. */
  lemma JoinedLayout(path: seq<byte>, l: nat, n: seq<byte>, slashed: bool)
    requires 0 < l <= |path|
    requires slashed <==> path[l - 1] == SLASH
    requires !slashed ==> l < |path|
    ensures var pl := if slashed then l else l + 1;
            path[..pl - 1] + [SLASH] + n + [NUL] == Joined(path[..l], n) + [NUL]
  {
    if slashed {
      assert path[..l] == path[..l - 1] + [SLASH];
    }
  }

  /** `append_unix_path` with the emptiness test moved after the lengths are
      resolved. */
  method AppendUnixPathChecked(path: seq<byte>, name: seq<byte>, pathLen: int, nameLen: int) returns (r: array?<byte>)
    requires AppendArgsInBounds(path, name, pathLen, nameLen)
    ensures r == null <==> AppendResultChecked(path, name, pathLen, nameLen).None?
    ensures r != null ==> fresh(r) && r[..] == AppendResultChecked(path, name, pathLen, nameLen).value
  {
    var pl := if pathLen < 0 then StrLen(path) else pathLen;
    var nl := if nameLen < 0 then StrLen(name) else nameLen;
    if pl == 0 || nl == 0 {
      return null;
    }
    r := AppendUnixPath(path, name, pl, nl);
  }
}

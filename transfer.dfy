/** `LklReadFile` and `LklWriteFile`: the partial-transfer `do ... while`
    loop that keeps calling `pread64` / `pwrite64` until the kernel returns
    zero or an error, or nothing is left to move. */
module Transfers {
  import opened Types
  import opened Translation
  import opened Kernel
  import opened DokanInfo

  /** One iteration: the buffer position and file offset it transferred
      at, the count it asked for (`BufferLength`, a `DWORD`) and the reply. */
  datatype Step = Step(at: int, count: Dword, offset: int, rc: Int32)

  /** What a run of the loop leaves behind: its iterations, the final
      `BufferLength`, the last `lkl_ret`, and the unread tape. */
  datatype Run = Run(steps: seq<Step>, remaining: Dword, last: int, tape: seq<Answer>)

  /** The kernel calls the iterations make. */
  function Calls(dir: Direction, fd: int, steps: seq<Step>): (calls: seq<Call>)
    ensures |calls| == |steps|
  {
    seq(|steps|, i requires 0 <= i < |steps| =>
      Transfer(dir, fd, steps[i].at, steps[i].count, steps[i].offset, steps[i].rc))
  }

  lemma CallsAppend(dir: Direction, fd: int, a: seq<Step>, b: seq<Step>)
    ensures Calls(dir, fd, a + b) == Calls(dir, fd, a) + Calls(dir, fd, b)
  {
  }

  /** `run` with the iterations `done` made before it. */
  function Prepend(done: seq<Step>, run: Run): Run {
    Run(done + run.steps, run.remaining, run.last, run.tape)
  }

  /** The tape with its first `n` replies used. */
  function Drop(tape: seq<Answer>, n: nat): seq<Answer> {
    if n >= |tape| then [] else tape[n..]
  }

  /** `BufferLength -= lkl_ret` for a positive `lkl_ret`: the `int` is
      converted to `DWORD` and the difference wraps below zero. */
  function Sub32(length: Dword, rc: Int32): Dword
    requires rc > 0
  {
    if rc <= length then length - rc else length - rc + TWO_32
  }

  /** That is subtraction modulo 2^32. */
  lemma Sub32Wraps(length: Dword, rc: Int32)
    requires rc > 0
    ensures Sub32(length, rc) == ToDword(length - rc)
  {
    if rc > length {
      assert (length - rc + TWO_32) % TWO_32 == (length - rc) % TWO_32;
    }
  }

  /** The loop from one iteration on: transfer `remaining` bytes at file
      `offset` from buffer position `at`; stop on a reply <= 0, otherwise
      subtract it (in 32 bits) and go on while something remains. */
  function Loop(at: int, remaining: Dword, offset: int, tape: seq<Answer>): Run
    decreases |tape|
  {
    var rc := Peek(tape).rc;
    var step := Step(at, remaining, offset, rc);
    if rc <= 0 then Run([step], remaining, rc, Rest(tape))
    else
      var left := Sub32(remaining, rc);
      if left == 0 then Run([step], 0, rc, Rest(tape))
      else Prepend([step], Loop(at + rc, left, offset + rc, Rest(tape)))
  }

  /** The bytes the kernel reports having moved: the sum of the positive
      replies. */
  function Moved(steps: seq<Step>): (n: int)
    ensures n >= 0
  {
    if |steps| == 0 then 0
    else (if steps[0].rc > 0 then steps[0].rc else 0) + Moved(steps[1..])
  }

  /** How one iteration leads to the next: it got a positive reply, and the
      next asks for what is left (non-zero, computed in 32 bits) at the
      offset and buffer position moved on by that reply. */
  predicate Continues(s: Step, t: Step) {
    && s.rc > 0
    && t.count == Sub32(s.count, s.rc) != 0
    && t.offset == s.offset + s.rc
    && t.at == s.at + s.rc
  }

  /** No reply exceeds the count its call asked for. */
  predicate Honest(steps: seq<Step>) {
    forall i :: 0 <= i < |steps| ==> steps[i].rc <= steps[i].count
  }

  /** At least one call is made, the first asking for the whole length
      (even 0). */
  lemma LoopStarts(at: int, remaining: Dword, offset: int, tape: seq<Answer>)
    ensures var run := Loop(at, remaining, offset, tape);
            |run.steps| >= 1 && run.steps[0] == Step(at, remaining, offset, Peek(tape).rc)
  {
  }

  /** Call i gets reply i of the tape, and the loop uses up exactly as many
      replies as it makes calls. */
  lemma {:induction false} LoopReplies(at: int, remaining: Dword, offset: int, tape: seq<Answer>)
    ensures var run := Loop(at, remaining, offset, tape);
            && run.tape == Drop(tape, |run.steps|)
            && forall i :: 0 <= i < |run.steps| ==> run.steps[i].rc == Peek(Drop(tape, i)).rc
    decreases |tape|
  {
    var run := Loop(at, remaining, offset, tape);
    var rc := Peek(tape).rc;
    var step := Step(at, remaining, offset, rc);
    if rc > 0 && Sub32(remaining, rc) != 0 {
      var sub := Loop(at + rc, Sub32(remaining, rc), offset + rc, Rest(tape));
      assert run == Prepend([step], sub);
      LoopReplies(at + rc, Sub32(remaining, rc), offset + rc, Rest(tape));
      RepliesCons(step, sub.steps, tape);
      DropRest(tape, |run.steps|);
    } else {
      RepliesCons(step, [], tape);
      DropRest(tape, 1);
    }
  }

  /** Using one reply and then `n - 1` is using `n`. */
  lemma DropRest(tape: seq<Answer>, n: nat)
    requires n >= 1
    ensures Drop(tape, n) == Drop(Rest(tape), n - 1)
  {
  }

  /** A step that got the first reply, in front of steps that got the
      following ones in order. */
  lemma RepliesCons(step: Step, rest: seq<Step>, tape: seq<Answer>)
    requires step.rc == Peek(tape).rc
    requires forall i :: 0 <= i < |rest| ==> rest[i].rc == Peek(Drop(Rest(tape), i)).rc
    ensures forall i :: 0 <= i < |[step] + rest| ==> ([step] + rest)[i].rc == Peek(Drop(tape, i)).rc
  {
    forall i | 0 <= i < |[step] + rest|
      ensures ([step] + rest)[i].rc == Peek(Drop(tape, i)).rc
    {
      if i == 0 {
        assert Drop(tape, 0) == tape;
      } else {
        assert ([step] + rest)[i] == rest[i - 1];
        DropRest(tape, i);
      }
    }
  }

  /** The loop goes on only after a positive reply that leaves something
      to move, each next call asking for the rest at the advanced offset. */
  lemma {:induction false} LoopChain(at: int, remaining: Dword, offset: int, tape: seq<Answer>)
    ensures Chained(Loop(at, remaining, offset, tape).steps)
    decreases |tape|
  {
    var run := Loop(at, remaining, offset, tape);
    var rc := Peek(tape).rc;
    var step := Step(at, remaining, offset, rc);
    if rc > 0 && Sub32(remaining, rc) != 0 {
      var sub := Loop(at + rc, Sub32(remaining, rc), offset + rc, Rest(tape));
      assert run == Prepend([step], sub);
      LoopChain(at + rc, Sub32(remaining, rc), offset + rc, Rest(tape));
      LoopStarts(at + rc, Sub32(remaining, rc), offset + rc, Rest(tape));
      ChainCons(step, sub.steps);
    }
  }

  /** Each iteration after the first continues the one before it. */
  predicate Chained(steps: seq<Step>) {
    forall i :: 0 < i < |steps| ==> Continues(steps[i - 1], steps[i])
  }

  /** A step in front of a chain it continues into. */
  lemma ChainCons(s: Step, rest: seq<Step>)
    requires Chained(rest) && |rest| > 0 && Continues(s, rest[0])
    ensures Chained([s] + rest)
  {
    var all := [s] + rest;
    forall i | 0 < i < |all|
      ensures Continues(all[i - 1], all[i])
    {
      if i > 1 {
        assert all[i - 1] == rest[i - 2] && all[i] == rest[i - 1];
      }
    }
  }

  /** The loop ends on the last call: `lkl_ret` is its reply; a reply <= 0
      leaves the length it asked for, otherwise that reply consumed all of
      it. */
  lemma {:induction false} LoopEnd(at: int, remaining: Dword, offset: int, tape: seq<Answer>)
    ensures |Loop(at, remaining, offset, tape).steps| >= 1
    ensures var run := Loop(at, remaining, offset, tape);
            var s := run.steps[|run.steps| - 1];
            && run.last == s.rc
            && (s.rc <= 0 ==> run.remaining == s.count)
            && (s.rc > 0 ==> run.remaining == 0 == Sub32(s.count, s.rc))
    decreases |tape|
  {
    var rc := Peek(tape).rc;
    if rc > 0 && Sub32(remaining, rc) != 0 {
      var inner := Loop(at + rc, Sub32(remaining, rc), offset + rc, Rest(tape));
      LoopEnd(at + rc, Sub32(remaining, rc), offset + rc, Rest(tape));
      var run := Prepend([Step(at, remaining, offset, rc)], inner);
      assert Loop(at, remaining, offset, tape) == run;
      assert run.steps[|run.steps| - 1] == inner.steps[|inner.steps| - 1];
    }
  }

  /** The iterations whose reply exceeded the count they asked for: each
      makes `BufferLength` wrap past zero. */
  function Wraps(steps: seq<Step>): (n: nat)
    ensures n <= |steps|
  {
    if |steps| == 0 then 0
    else (if steps[0].rc > steps[0].count then 1 else 0) + Wraps(steps[1..])
  }

  /** The balance of the loop, in unbounded integers: the replies add up to
      what `BufferLength` lost, plus 2^32 for every wrap. */
  lemma {:induction false} LoopBalance(at: int, remaining: Dword, offset: int, tape: seq<Answer>)
    ensures var run := Loop(at, remaining, offset, tape);
            Moved(run.steps) == remaining - run.remaining + TWO_32 * Wraps(run.steps)
    decreases |tape|
  {
    var run := Loop(at, remaining, offset, tape);
    var rc := Peek(tape).rc;
    var step := Step(at, remaining, offset, rc);
    MovedCons(step, []);
    WrapsCons(step, []);
    if rc > 0 && Sub32(remaining, rc) != 0 {
      var left := Sub32(remaining, rc);
      var sub := Loop(at + rc, left, offset + rc, Rest(tape));
      assert run == Prepend([step], sub);
      LoopBalance(at + rc, left, offset + rc, Rest(tape));
      MovedCons(step, sub.steps);
      WrapsCons(step, sub.steps);
    }
  }

  /** `orig - BufferLength`, computed in 32 bits as the handler does, is the
      sum of the replies modulo 2^32, whatever the kernel replies. */
  lemma LoopCount(at: int, remaining: Dword, offset: int, tape: seq<Answer>)
    ensures var run := Loop(at, remaining, offset, tape);
            ToDword(remaining - run.remaining) == ToDword(Moved(run.steps))
  {
    var run := Loop(at, remaining, offset, tape);
    LoopBalance(at, remaining, offset, tape);
    AddMultiple(remaining - run.remaining, Wraps(run.steps));
  }

  /** When no reply exceeds the count it was asked for, `orig -
      BufferLength` is exactly the sum of the replies, and so at most the
      requested length. */
  lemma LoopCountHonest(at: int, remaining: Dword, offset: int, tape: seq<Answer>)
    requires Honest(Loop(at, remaining, offset, tape).steps)
    ensures var run := Loop(at, remaining, offset, tape);
            remaining - run.remaining == Moved(run.steps) <= remaining
  {
    LoopBalance(at, remaining, offset, tape);
    HonestNoWraps(Loop(at, remaining, offset, tape).steps);
  }

  function Min(a: int, b: int): int {
    if a <= b then a else b
  }

  /** A kernel that moves at most `cap` bytes per call: every reply is
      `cap` or what is left, whichever is smaller, until nothing is left. */
  predicate CappedTape(tape: seq<Answer>, remaining: int, cap: int)
    decreases remaining
  {
    && Peek(tape).rc == Min(cap, remaining)
    && (remaining > cap > 0 ==> CappedTape(Rest(tape), remaining - cap, cap))
  }

  /** Against such a kernel a transfer of `remaining > 0` bytes takes
      ceil(remaining / cap) calls, and moves exactly `remaining` bytes with
      nothing left over. */
  lemma {:induction false} LoopCapped(at: int, remaining: Dword, offset: int, tape: seq<Answer>, cap: int)
    requires 0 < cap < 0x8000_0000 && remaining > 0
    requires CappedTape(tape, remaining, cap)
    ensures var run := Loop(at, remaining, offset, tape);
            && |run.steps| == (remaining + cap - 1) / cap
            && run.remaining == 0 && run.last > 0
            && Moved(run.steps) == remaining
    decreases remaining
  {
    var rc: Int32 := Min(cap, remaining);
    assert Peek(tape).rc == rc;
    var step := Step(at, remaining, offset, rc);
    var run := Loop(at, remaining, offset, tape);
    MovedCons(step, []);
    if remaining <= cap {
      assert Sub32(remaining, rc) == 0;
      assert run == Run([step], 0, rc, Rest(tape));
      CeilOne(remaining, cap);
    } else {
      var left: Dword := remaining - cap;
      assert Sub32(remaining, rc) == left;
      var sub := Loop(at + cap, left, offset + cap, Rest(tape));
      assert run == Prepend([step], sub);
      LoopCapped(at + cap, left, offset + cap, Rest(tape), cap);
      MovedCons(step, sub.steps);
      CeilNext(remaining, cap);
    }
  }

  /** The calls against such a kernel: every call but the last gets `cap`
      bytes, and the last gets exactly what it asked for, between 1 and
      `cap` bytes. */
  lemma {:induction false} LoopCappedSteps(at: int, remaining: Dword, offset: int, tape: seq<Answer>, cap: int)
    requires 0 < cap < 0x8000_0000 && remaining > 0
    requires CappedTape(tape, remaining, cap)
    ensures var run := Loop(at, remaining, offset, tape);
            && |run.steps| >= 1
            && (forall i :: 0 <= i < |run.steps| - 1 ==> run.steps[i].rc == cap)
            && var s := run.steps[|run.steps| - 1];
               0 < s.rc == s.count <= cap
    decreases remaining
  {
    var rc: Int32 := Min(cap, remaining);
    assert Peek(tape).rc == rc;
    var step := Step(at, remaining, offset, rc);
    var run := Loop(at, remaining, offset, tape);
    if remaining <= cap {
      assert Sub32(remaining, rc) == 0;
      assert run.steps == [step];
    } else {
      var left: Dword := remaining - cap;
      assert Sub32(remaining, rc) == left;
      var sub := Loop(at + cap, left, offset + cap, Rest(tape));
      assert run.steps == [step] + sub.steps;
      LoopCappedSteps(at + cap, left, offset + cap, Rest(tape), cap);
      assert run.steps[|run.steps| - 1] == sub.steps[|sub.steps| - 1];
      forall i | 1 <= i < |run.steps| - 1
        ensures run.steps[i].rc == cap
      {
        assert run.steps[i] == sub.steps[i - 1];
      }
    }
  }

  /** ceil(n / c) is 1 for 0 < n <= c. */
  lemma CeilOne(n: int, c: int)
    requires 0 < n <= c
    ensures (n + c - 1) / c == 1
  {
    DivUnique(n + c - 1, c, 1);
  }

  /** ceil(n / c) is one more than ceil((n - c) / c) for n > c > 0. */
  lemma CeilNext(n: int, c: int)
    requires n > c > 0
    ensures (n + c - 1) / c == (n - c + c - 1) / c + 1
  {
    var q := (n - 1) / c;
    DivBounds(n - 1, c);
    assert c * (q + 1) == c * q + c;
    DivUnique(n + c - 1, c, q + 1);
  }

  /** `x / c` brackets `x` between two multiples of `c`. */
  lemma DivBounds(x: int, c: int)
    requires c > 0
    ensures c * (x / c) <= x < c * (x / c) + c
  {
  }

  /** The quotient is the `q` whose multiples of `c` bracket `x`. */
  lemma DivUnique(x: int, c: int, q: int)
    requires c > 0
    requires c * q <= x < c * q + c
    ensures x / c == q
  {
    var r, m := x / c, x % c;
    assert x == c * r + m && 0 <= m < c;
    if r < q {
      MulAtLeast(c, q - r);
      assert false;
    } else if r > q {
      MulAtLeast(c, r - q);
      assert false;
    }
  }

  /** A positive multiple of a positive number is at least that number. */
  lemma {:induction false} MulAtLeast(c: int, k: int)
    requires c > 0 && k >= 1
    ensures c * k >= c
    decreases k
  {
    if k > 1 {
      MulAtLeast(c, k - 1);
      assert c * k == c * (k - 1) + c;
    }
  }

  /** `Moved` of a list with one more step in front. */
  lemma MovedCons(s: Step, rest: seq<Step>)
    ensures Moved([s] + rest) == (if s.rc > 0 then s.rc else 0) + Moved(rest)
  {
    assert ([s] + rest)[1..] == rest;
  }

  /** `Wraps` of a list with one more step in front. */
  lemma WrapsCons(s: Step, rest: seq<Step>)
    ensures Wraps([s] + rest) == (if s.rc > s.count then 1 else 0) + Wraps(rest)
  {
    assert ([s] + rest)[1..] == rest;
  }

  /** An honest kernel never makes the length wrap. */
  lemma {:induction false} HonestNoWraps(steps: seq<Step>)
    requires Honest(steps)
    ensures Wraps(steps) == 0
  {
    if |steps| > 0 {
      assert steps[0].rc <= steps[0].count;
      assert Honest(steps[1..]) by {
        forall i | 0 <= i < |steps[1..]|
          ensures steps[1..][i].rc <= steps[1..][i].count
        {
          assert steps[1..][i] == steps[i + 1];
        }
      }
      HonestNoWraps(steps[1..]);
    }
  }

  /** Adding whole multiples of 2^32 does not change the low 32 bits. */
  lemma {:induction false} AddMultiple(x: int, w: nat)
    ensures ToDword(x + TWO_32 * w) == ToDword(x)
    decreases w
  {
    if w > 0 {
      AddMultiple(x, w - 1);
      assert x + TWO_32 * w == (x + TWO_32 * (w - 1)) + TWO_32;
    }
  }

  /** What `LklReadFile` / `LklWriteFile` report: the NTSTATUS, the value
      left in the length out-parameter (`None` when it was not written),
      the iterations run and the unread tape. */
  datatype Outcome = Outcome(status: NtStatus, count: Option<Dword>, steps: seq<Step>, tape: seq<Answer>)

  /** The handler: a directory is refused before anything else; otherwise
      the out-parameter (when given) is zeroed, the loop runs, a negative
      last reply is translated, and on success the out-parameter gets
      `orig - BufferLength`. */
  function TransferSpec(isDirectory: bool, length: Dword, offset: int, hasCount: bool, tape: seq<Answer>): Outcome
  {
    if isDirectory then Outcome(InvalidParameter, None, [], tape)
    else
      var run := Loop(0, length, offset, tape);
      var status := if run.last < 0 then ErrnoToStatus(run.last) else Success;
      var count := if !hasCount then None
                   else if status == Success then Some(ToDword(length - run.remaining))
                   else Some(0);
      Outcome(status, count, run.steps, run.tape)
  }

  /** Directory guard: `STATUS_INVALID_PARAMETER`, no kernel call, and the
      length out-parameter left untouched. */
  lemma TransferDirectoryGuard(length: Dword, offset: int, hasCount: bool, tape: seq<Answer>)
    ensures var o := TransferSpec(true, length, offset, hasCount, tape);
            o.status == InvalidParameter && o.steps == [] && o.tape == tape && o.count.None?
  {
  }

  /** For a file: at least one call is made, the first asking for the whole
      length (even 0). */
  lemma TransferStarts(length: Dword, offset: int, hasCount: bool, tape: seq<Answer>)
    ensures var o := TransferSpec(false, length, offset, hasCount, tape);
            |o.steps| >= 1 && o.steps[0] == Step(0, length, offset, Peek(tape).rc)
  {
    LoopStarts(0, length, offset, tape);
  }

  /** The result is an error exactly when the last reply is negative; the
      error is then that reply translated, and the reported count stays
      0. */
  lemma TransferErrors(length: Dword, offset: int, tape: seq<Answer>)
    ensures var o := TransferSpec(false, length, offset, true, tape);
            && |o.steps| >= 1
            && (o.status != Success <==> o.steps[|o.steps| - 1].rc < 0)
            && (o.status != Success ==> o.status == ErrnoToStatus(o.steps[|o.steps| - 1].rc) && o.count == Some(0))
  {
    LoopEnd(0, length, offset, tape);
  }

  /** `TransferSpec` for a file, with the loop's run named. */
  lemma TransferFileRun(length: Dword, offset: int, tape: seq<Answer>, run: Run)
    requires run == Loop(0, length, offset, tape)
    ensures var o := TransferSpec(false, length, offset, true, tape);
            && o.steps == run.steps
            && (o.status == Success <==> run.last >= 0)
            && (o.status == Success ==> o.count == Some(ToDword(length - run.remaining)))
  {
  }

  /** On success the count is the sum of the replies modulo 2^32. */
  lemma TransferCounts(length: Dword, offset: int, tape: seq<Answer>)
    ensures var o := TransferSpec(false, length, offset, true, tape);
            o.status == Success ==> o.count == Some(ToDword(Moved(o.steps)))
  {
    TransferFileRun(length, offset, tape, Loop(0, length, offset, tape));
    LoopCount(0, length, offset, tape);
  }

  /** With a kernel that never returns more than it was asked for, the
      count on success is exactly the sum of the replies, and at most the
      requested length. */
  lemma TransferCountsHonest(length: Dword, offset: int, tape: seq<Answer>)
    ensures var o := TransferSpec(false, length, offset, true, tape);
            o.status == Success && Honest(o.steps) ==> o.count == Some(Moved(o.steps)) && Moved(o.steps) <= length
  {
    var run := Loop(0, length, offset, tape);
    TransferFileRun(length, offset, tape, run);
    if Honest(run.steps) {
      LoopCountHonest(0, length, offset, tape);
    }
  }

  /** A kernel that accepts at most `cap` bytes per call: a transfer of
      `length > 0` bytes succeeds after ceil(length / cap) calls and reports
      exactly `length`. */
  lemma TransferCapped(length: Dword, offset: int, tape: seq<Answer>, cap: int)
    requires 0 < cap < 0x8000_0000 && length > 0
    requires CappedTape(tape, length, cap)
    ensures var o := TransferSpec(false, length, offset, true, tape);
            && o.status == Success && o.count == Some(length)
            && |o.steps| == (length + cap - 1) / cap && Moved(o.steps) == length
            && (forall i :: 0 <= i < |o.steps| - 1 ==> o.steps[i].rc == cap)
            && 0 < o.steps[|o.steps| - 1].rc <= cap
  {
    LoopCapped(0, length, offset, tape, cap);
    LoopCappedSteps(0, length, offset, tape, cap);
  }

  /** A short read followed by end of file: 10 bytes asked, the kernel
      gives 4 and then 0; two calls, the second asking for the 6 left at
      offset 4, and 4 reported. */
  lemma ShortReadThenEnd(a: Answer, b: Answer)
    requires a.rc == 4 && b.rc == 0
    ensures var o := TransferSpec(false, 10, 0, true, [a, b]);
            o.status == Success && o.count == Some(4) && o.steps == [Step(0, 10, 0, 4), Step(4, 6, 4, 0)]
  {
    assert Peek([a, b]) == a && Rest([a, b]) == [b];
    assert Peek([b]) == b && Rest([b]) == [];
    assert ToDword(10 - 4) == 6;
    assert Loop(4, 6, 4, [b]) == Run([Step(4, 6, 4, 0)], 6, 0, []);
    assert Loop(0, 10, 0, [a, b]) == Run([Step(0, 10, 0, 4), Step(4, 6, 4, 0)], 6, 0, []);
  }

  /** An error after partial progress discards the progress: 4 bytes moved,
      then `-EIO`; the handler reports the translated error and a count
      of 0. */
  lemma ErrorAfterProgress(a: Answer, b: Answer)
    requires a.rc == 4 && b.rc == -EIO
    ensures var o := TransferSpec(false, 10, 0, true, [a, b]);
            o.status == ErrnoToStatus(-EIO) != Success && o.count == Some(0) && |o.steps| == 2
  {
    assert Peek([a, b]) == a && Rest([a, b]) == [b];
    assert Peek([b]) == b && Rest([b]) == [];
    assert ToDword(10 - 4) == 6;
    assert Loop(4, 6, 4, [b]) == Run([Step(4, 6, 4, -EIO)], 6, -EIO, []);
    assert Loop(0, 10, 0, [a, b]) == Run([Step(0, 10, 0, 4), Step(4, 6, 4, -EIO)], 6, -EIO, []);
  }

  /** A kernel that returns more than asked makes `BufferLength` wrap: 10
      asked, 20 returned, and the next call asks for 2^32 - 10 bytes. */
  lemma OverlongReplyWraps(a: Answer, b: Answer)
    requires a.rc == 20 && b.rc == 0
    ensures var o := TransferSpec(false, 10, 0, true, [a, b]);
            |o.steps| == 2 && o.steps[1].count == TWO_32 - 10 && o.count == Some(20)
  {
    assert Peek([a, b]) == a && Rest([a, b]) == [b];
    assert Peek([b]) == b && Rest([b]) == [];
    assert ToDword(10 - 20) == TWO_32 - 10;
    assert Loop(20, TWO_32 - 10, 20, [b]) == Run([Step(20, TWO_32 - 10, 20, 0)], TWO_32 - 10, 0, []);
    assert Loop(0, 10, 0, [a, b]) == Run([Step(0, 10, 0, 20), Step(20, TWO_32 - 10, 20, 0)], TWO_32 - 10, 0, []);
    assert ToDword(10 - (TWO_32 - 10)) == 20;
  }

  /** One iteration of `TransferLoop` in terms of `Loop`: when the whole
      run is `done` followed by the run from here, the call about to be made
      either ends it or leaves the rest of it to the next iteration. */
  lemma Advance(whole: Run, done: seq<Step>, at: int, remaining: Dword, offset: int, tape: seq<Answer>)
    requires whole == Prepend(done, Loop(at, remaining, offset, tape))
    ensures var rc := Peek(tape).rc;
            var step := Step(at, remaining, offset, rc);
            && (rc <= 0 ==> whole == Run(done + [step], remaining, rc, Rest(tape)))
            && (rc > 0 && Sub32(remaining, rc) == 0 ==> whole == Run(done + [step], 0, rc, Rest(tape)))
            && (rc > 0 && Sub32(remaining, rc) != 0 ==>
                  && |Rest(tape)| < |tape|
                  && whole == Prepend(done + [step], Loop(at + rc, Sub32(remaining, rc), offset + rc, Rest(tape))))
  {
    var rc := Peek(tape).rc;
    var step := Step(at, remaining, offset, rc);
    if rc > 0 && Sub32(remaining, rc) != 0 {
      var rest := Loop(at + rc, Sub32(remaining, rc), offset + rc, Rest(tape));
      assert done + ([step] + rest.steps) == (done + [step]) + rest.steps;
    }
  }

  /** The trace after one more iteration's call. */
  lemma TraceStep(dir: Direction, fd: int, done: seq<Step>, step: Step, start: seq<Call>, before: seq<Call>, after: seq<Call>)
    requires before == start + Calls(dir, fd, done)
    requires after == before + [Transfer(dir, fd, step.at, step.count, step.offset, step.rc)]
    ensures after == start + Calls(dir, fd, done + [step])
  {
    CallsAppend(dir, fd, done, [step]);
    AppendAssoc(start, Calls(dir, fd, done), Calls(dir, fd, [step]));
  }

  /** The loop itself, over the kernel object. */
  method TransferLoop(k: Lkl, dir: Direction, fd: int, length: Dword, offset: int) returns (remaining: Dword, last: int)
    modifies k
    ensures var run := Loop(0, length, offset, old(k.answers));
            && k.trace == old(k.trace) + Calls(dir, fd, run.steps) && k.answers == run.tape
            && remaining == run.remaining && last == run.last
  {
    ghost var whole := Loop(0, length, offset, k.answers);
    var at, rem, off := 0, length, offset;
    ghost var done: seq<Step> := [];
    while true
      invariant k.trace == old(k.trace) + Calls(dir, fd, done)
      invariant whole == Prepend(done, Loop(at, rem, off, k.answers))
      decreases |k.answers|
    {
      Advance(whole, done, at, rem, off, k.answers);
      ghost var before := k.trace;
      var rc := k.SysTransfer(dir, fd, at, rem, off);
      TraceStep(dir, fd, done, Step(at, rem, off, rc), old(k.trace), before, k.trace);
      done := done + [Step(at, rem, off, rc)];
      if rc <= 0 {
        remaining, last := rem, rc;
        break;
      }
      rem := Sub32(rem, rc);
      off := off + rc;
      at := at + rc;
      if rem == 0 {
        remaining, last := rem, rc;
        break;
      }
    }
  }

  /** `LklReadFile` and `LklWriteFile`, which differ only in the call. The
      descriptor is `Context` cast to `int`. The length out-parameter is
      modelled as a result: `None` when it was not written (no pointer, or
      a directory). */
  method TransferFile(k: Lkl, dir: Direction, info: FileInfo, length: Dword, offset: int, hasCount: bool)
    returns (status: NtStatus, count: Option<Dword>)
    modifies k
    ensures var o := TransferSpec(info.isDirectory, length, offset, hasCount, old(k.answers));
            && status == o.status && count == o.count
            && k.trace == old(k.trace) + Calls(dir, ToLong(info.context), o.steps) && k.answers == o.tape
  {
    if info.isDirectory {
      return InvalidParameter, None;
    }
    if hasCount {
      count := Some(0);
    } else {
      count := None;
    }
    var fd := ToLong(info.context);
    var remaining, last := TransferLoop(k, dir, fd, length, offset);
    if last < 0 {
      status := ErrnoToStatus(last);
    } else {
      status := Success;
    }
    if status == Success && hasCount {
      count := Some(ToDword(length - remaining));
    }
  }

  method ReadFile(k: Lkl, info: FileInfo, bufferLength: Dword, offset: int, hasReadLength: bool)
    returns (status: NtStatus, readLength: Option<Dword>)
    modifies k
    ensures var o := TransferSpec(info.isDirectory, bufferLength, offset, hasReadLength, old(k.answers));
            && status == o.status && readLength == o.count
            && k.trace == old(k.trace) + Calls(Read, ToLong(info.context), o.steps) && k.answers == o.tape
  {
    status, readLength := TransferFile(k, Read, info, bufferLength, offset, hasReadLength);
  }

  method WriteFile(k: Lkl, info: FileInfo, numberOfBytesToWrite: Dword, offset: int, hasBytesWritten: bool)
    returns (status: NtStatus, bytesWritten: Option<Dword>)
    modifies k
    ensures var o := TransferSpec(info.isDirectory, numberOfBytesToWrite, offset, hasBytesWritten, old(k.answers));
            && status == o.status && bytesWritten == o.count
            && k.trace == old(k.trace) + Calls(Write, ToLong(info.context), o.steps) && k.answers == o.tape
  {
    status, bytesWritten := TransferFile(k, Write, info, numberOfBytesToWrite, offset, hasBytesWritten);
  }
}

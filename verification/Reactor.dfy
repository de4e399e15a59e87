/** Newline framing and the event loop of examples/reactor/main.cpp.

    A source's pipe is the string of bytes its writer will ever put in it; the reader sees them one by
    one and then end of file, or a read error if the pipe is broken. `write` may take any part of what
    it is given, and `poll` may report any readiness. */
module Reactors {
  import opened Sequences
  import opened Sums

  // ---------- Splitting, independently of how it is done ----------

  predicate NewlineFree(s: string) { '\n' !in s }

  /** The pieces of `s` between newlines: one more than it has newlines. */
  function Split(s: string): (pieces: seq<string>)
    ensures pieces != []
  {
    if s == "" then [""]
    else
      var rest := Split(s[1..]);
      if s[0] == '\n' then [""] + rest else [[s[0]] + rest[0]] + rest[1..]
  }

  function Join(pieces: seq<string>): string
    requires pieces != []
  {
    if |pieces| == 1 then pieces[0] else pieces[0] + "\n" + Join(pieces[1..])
  }

  /** `Split` loses nothing and cuts at every newline ... */
  lemma {:induction false} JoinSplit(s: string)
    ensures Join(Split(s)) == s && forall i | 0 <= i < |Split(s)| :: NewlineFree(Split(s)[i])
  {
    if s != "" {
      JoinSplit(s[1..]);
      var rest := Split(s[1..]);
      if s[0] == '\n' {
        assert ([""] + rest)[1..] == rest;
      } else {
        assert ([[s[0]] + rest[0]] + rest[1..])[1..] == rest[1..];
      }
    }
  }

  /** ... and is the only way to do so. */
  lemma {:induction false} SplitJoin(pieces: seq<string>)
    requires pieces != [] && forall i | 0 <= i < |pieces| :: NewlineFree(pieces[i])
    ensures Split(Join(pieces)) == pieces
    decreases |pieces|
  {
    if |pieces| == 1 {
      SplitLine(pieces[0], "");
      assert pieces[0] + "" == pieces[0];
    } else {
      SplitJoin(pieces[1..]);
      SplitAtNewline(pieces[0], Join(pieces[1..]));
      assert pieces[0] + "\n" + Join(pieces[1..]) == pieces[0] + ("\n" + Join(pieces[1..]));
    }
  }

  /** A newline-free prefix only lengthens the first piece. */
  lemma {:induction false} SplitLine(line: string, rest: string)
    requires NewlineFree(line)
    ensures Split(line + rest) == [line + Split(rest)[0]] + Split(rest)[1..]
  {
    if line == "" {
      assert "" + rest == rest && "" + Split(rest)[0] == Split(rest)[0];
      assert [Split(rest)[0]] + Split(rest)[1..] == Split(rest);
    } else {
      assert (line + rest)[1..] == line[1..] + rest;
      SplitLine(line[1..], rest);
      assert [line[0]] + (line[1..] + Split(rest)[0]) == line + Split(rest)[0];
    }
  }

  lemma SplitAtNewline(line: string, rest: string)
    requires NewlineFree(line)
    ensures Split(line + ("\n" + rest)) == [line] + Split(rest)
  {
    SplitLine(line, "\n" + rest);
    assert ("\n" + rest)[1..] == rest;
    assert line + "" == line;
  }

  lemma FirstPiece(s: string, line: string, rest: string)
    requires NewlineFree(line) && s == line + ("\n" + rest)
    ensures HasNewline(s) && Split(s) == [line] + Split(rest) && Split(s)[0] == line
  {
    SplitAtNewline(line, rest);
    assert s[|line|] == '\n';
  }

  predicate HasNewline(s: string) { '\n' in s }

  lemma NewlineIffSplit(s: string)
    ensures HasNewline(s) <==> |Split(s)| > 1
  {
    if HasNewline(s) {
      JoinSplit(s);
    } else {
      SplitLine(s, "");
      assert s + "" == s;
    }
  }

  /** What a reader of `s` must be told: every line, and a last unterminated line if it is not empty. */
  function Messages(s: string): seq<string> {
    var pieces := Split(s);
    var last := pieces[|pieces| - 1];
    pieces[..|pieces| - 1] + if last == "" then [] else [last]
  }

  /** The bytes a source writes for its payloads. */
  function Encode(payloads: seq<string>): string {
    if payloads == [] then "" else Encode(payloads[..|payloads| - 1]) + payloads[|payloads| - 1] + "\n"
  }

  lemma {:induction false} EncodeIsJoin(payloads: seq<string>)
    ensures Encode(payloads) == Join(payloads + [""])
    decreases |payloads|
  {
    if payloads != [] {
      var m := |payloads| - 1;
      EncodeIsJoin(payloads[..m]);
      JoinAppend(payloads[..m], payloads[m]);
      assert payloads[..m] + [payloads[m], ""] == payloads + [""];
    }
  }

  lemma {:induction false} JoinAppend(front: seq<string>, last: string)
    ensures Join(front + [""]) + last + "\n" == Join(front + [last, ""])
    decreases |front|
  {
    if front == [] {
      assert ["", last][1..] == [last] && [last, ""][1..] == [""];
      assert "" + last + "\n" == last + "\n" + "";
    } else {
      JoinAppend(front[1..], last);
      assert (front + [""])[1..] == front[1..] + [""];
      assert (front + [last, ""])[1..] == front[1..] + [last, ""];
    }
  }

  lemma EncodeSplits(payloads: seq<string>)
    requires forall i | 0 <= i < |payloads| :: NewlineFree(payloads[i])
    ensures Split(Encode(payloads)) == payloads + [""]
  {
    EncodeIsJoin(payloads);
    SplitJoin(payloads + [""]);
  }

  /** Main result: newline-free payloads come back exactly, in order and with nothing added. */
  lemma FramingRoundTrip(payloads: seq<string>)
    requires forall i | 0 <= i < |payloads| :: NewlineFree(payloads[i])
    ensures Messages(Encode(payloads)) == payloads
  {
    EncodeSplits(payloads);
    assert (payloads + [""])[..|payloads|] == payloads;
  }

  // ---------- Writing ----------

  /** The write end of a pipe: every byte written so far. */
  class Pipe {
    var bytes: string

    constructor ()
      ensures bytes == ""
    {
      bytes := "";
    }
  }

  /** The kernel's answer to call `i` of `write` with `remaining` bytes: an error or a non-empty part. */
  ghost predicate WriteContract(kernel: (nat, nat) -> int) {
    forall i: nat, remaining: nat | remaining > 0 :: kernel(i, remaining) < 0 || 1 <= kernel(i, remaining) <= remaining
  }

  /** How many of `remaining` bytes the kernel takes, from call `i` on, before its first error. */
  function Accepted(kernel: (nat, nat) -> int, i: nat, remaining: nat): (taken: nat)
    requires WriteContract(kernel)
    ensures taken <= remaining
    decreases remaining
  {
    if remaining == 0 || kernel(i, remaining) < 0 then 0
    else kernel(i, remaining) + Accepted(kernel, i + 1, remaining - kernel(i, remaining))
  }

  /** Less than everything is taken only if a call made with just the rest of the bytes failed. */
  lemma {:induction false} ShortMeansError(kernel: (nat, nat) -> int, i: nat, remaining: nat) returns (c: nat)
    requires WriteContract(kernel) && Accepted(kernel, i, remaining) < remaining
    ensures i <= c && kernel(c, remaining - Accepted(kernel, i, remaining)) < 0
    decreases remaining
  {
    if kernel(i, remaining) < 0 {
      c := i;
    } else {
      c := ShortMeansError(kernel, i + 1, remaining - kernel(i, remaining));
    }
  }

  /** Call c takes part c of what the parts before it left. */
  predicate TakenBy(kernel: (nat, nat) -> int, i: nat, remaining: nat, parts: seq<int>, c: nat) {
    && c < |parts| && remaining > Sum(parts[..c], Identity)
    && parts[c] == kernel(i + c, remaining - Sum(parts[..c], Identity)) > 0
  }

  lemma TakenLater(kernel: (nat, nat) -> int, i: nat, remaining: nat, first: nat, more: seq<int>, c: nat)
    requires first <= remaining && TakenBy(kernel, i + 1, remaining - first, more, c)
    ensures TakenBy(kernel, i, remaining, [first] + more, c + 1)
  {
    var parts := [first] + more;
    assert parts[..c + 1][0] == first && parts[..c + 1][1..] == more[..c];
    assert Sum(parts[..c + 1], Identity) == first + Sum(more[..c], Identity);
    assert parts[c + 1] == more[c];
  }

  /** `Accepted` is the sum of the parts taken by calls numbered from `i` on, each made with what the earlier ones
      left, up to the end of the message or to the first call that fails, after which there is none. */
  lemma {:induction false} AcceptedByCalls(kernel: (nat, nat) -> int, i: nat, remaining: nat) returns (parts: seq<int>)
    requires WriteContract(kernel)
    ensures Accepted(kernel, i, remaining) == Sum(parts, Identity) <= remaining
    ensures forall c: nat | c < |parts| :: TakenBy(kernel, i, remaining, parts, c)
    ensures Sum(parts, Identity) < remaining ==> kernel(i + |parts|, remaining - Sum(parts, Identity)) < 0
    decreases remaining
  {
    if remaining == 0 || kernel(i, remaining) < 0 {
      parts := [];
    } else {
      var first := kernel(i, remaining);
      var more := AcceptedByCalls(kernel, i + 1, remaining - first);
      parts := [first] + more;
      assert parts[1..] == more;
      forall c: nat | c < |parts| ensures TakenBy(kernel, i, remaining, parts, c) {
        if c > 0 {
          TakenLater(kernel, i, remaining, first, more, c - 1);
        }
      }
    }
  }

  /** `write_message`: partial writes in any sizes put the whole message in the pipe; it throws only for an
      error of the kernel, and then leaves exactly the bytes taken before it. */
  method WriteMessage(pipe: Pipe, message: string, kernel: (nat, nat) -> int) returns (ok: bool)
    requires forall i: nat, remaining: nat | remaining > 0 ::
               kernel(i, remaining) < 0 || 1 <= kernel(i, remaining) <= remaining
    modifies pipe
    ensures pipe.bytes == old(pipe.bytes) + message[..Accepted(kernel, 0, |message|)]
    ensures ok <==> Accepted(kernel, 0, |message|) == |message|
    ensures !ok ==> exists c: nat, rest: nat | 0 < rest <= |message| :: kernel(c, rest) < 0
  {
    var data, remaining, calls := 0, |message|, 0;
    while remaining > 0
      invariant 0 <= data && 0 <= remaining && data + remaining == |message| && 0 <= calls
      invariant data + Accepted(kernel, calls, remaining) == Accepted(kernel, 0, |message|)
      invariant pipe.bytes == old(pipe.bytes) + message[..data]
    {
      var written := kernel(calls, remaining);
      if written < 0 {
        return false;
      }
      pipe.bytes := pipe.bytes + message[data..data + written];
      assert message[..data] + message[data..data + written] == message[..data + written];
      calls := calls + 1;
      data := data + written;
      remaining := remaining - written;
    }
    ok := true;
  }

  lemma {:induction false} EncodeConcat(first: seq<string>, more: seq<string>)
    ensures Encode(first + more) == Encode(first) + Encode(more)
    decreases |more|
  {
    if more == [] {
      assert first + more == first;
    } else {
      var m := |more| - 1;
      EncodeConcat(first, more[..m]);
      assert (first + more)[..|first| + m] == first + more[..m];
      Regroup(Encode(first), Encode(more[..m]), more[m]);
      Regroup(Encode(first), Encode(more[..m]) + more[m], "\n");
    }
  }

  /** Whether every byte of payload `i` and its newline is taken. */
  predicate Emitted(payloads: seq<string>, kernels: nat -> (nat, nat) -> int, i: nat)
    requires i < |payloads| && WriteContract(kernels(i))
  {
    Accepted(kernels(i), 0, |payloads[i]| + 1) == |payloads[i]| + 1
  }

  lemma EncodeSnoc(payloads: seq<string>, i: nat)
    requires i < |payloads|
    ensures Encode(payloads[..i + 1]) == Encode(payloads[..i]) + (payloads[i] + "\n")
  {
    assert payloads[..i + 1][..i] == payloads[..i];
  }

  /** Payload `i` is the first that is not taken in full. */
  ghost predicate StopsAt(payloads: seq<string>, kernels: nat -> (nat, nat) -> int, i: nat)
    requires forall j: nat :: WriteContract(kernels(j))
  {
    i < |payloads| && !Emitted(payloads, kernels, i) && forall j | 0 <= j < i :: Emitted(payloads, kernels, j)
  }

  /** The earlier payloads, and as much of payload `i` as is taken. */
  function SentUpTo(payloads: seq<string>, kernels: nat -> (nat, nat) -> int, i: nat): string
    requires i < |payloads| && WriteContract(kernels(i))
  {
    Encode(payloads[..i]) + (payloads[i] + "\n")[..Accepted(kernels(i), 0, |payloads[i]| + 1)]
  }

  lemma CutShort(before: string, line: string, after: string, taken: nat)
    requires taken < |line|
    ensures before + line[..taken] < (before + line) + after
  {
  }

  lemma StoppedShort(payloads: seq<string>, kernels: nat -> (nat, nat) -> int, i: nat)
    requires i < |payloads| && WriteContract(kernels(i)) && !Emitted(payloads, kernels, i)
    ensures SentUpTo(payloads, kernels, i) < Encode(payloads)
  {
    assert payloads == payloads[..i + 1] + payloads[i + 1..];
    EncodeConcat(payloads[..i + 1], payloads[i + 1..]);
    EncodeSnoc(payloads, i);
    var line := payloads[i] + "\n";
    CutShort(Encode(payloads[..i]), line, Encode(payloads[i + 1..]), Accepted(kernels(i), 0, |line|));
  }

  /** `simulate_source`: without write errors the pipe gets exactly the encoded payloads; otherwise a proper
      prefix of them, which ends with what was taken of the first payload that failed. */
  method SimulateSource(pipe: Pipe, payloads: seq<string>, kernels: nat -> (nat, nat) -> int) returns (ok: bool)
    requires forall j: nat :: WriteContract(kernels(j))
    modifies pipe
    ensures ok <==> forall i | 0 <= i < |payloads| :: Emitted(payloads, kernels, i)
    ensures ok ==> pipe.bytes == old(pipe.bytes) + Encode(payloads)
    ensures !ok ==> exists i: nat ::
                      && StopsAt(payloads, kernels, i)
                      && SentUpTo(payloads, kernels, i) < Encode(payloads)
                      && pipe.bytes == old(pipe.bytes) + SentUpTo(payloads, kernels, i)
  {
    var i: nat := 0;
    while i < |payloads|
      invariant i <= |payloads|
      invariant forall j | 0 <= j < i :: Emitted(payloads, kernels, j)
      invariant pipe.bytes == old(pipe.bytes) + Encode(payloads[..i])
    {
      ok := WriteMessage(pipe, payloads[i] + "\n", kernels(i));
      if !ok {
        StoppedShort(payloads, kernels, i);
        assert StopsAt(payloads, kernels, i);
        return false;
      }
      assert Emitted(payloads, kernels, i);
      EncodeSnoc(payloads, i);
      i := i + 1;
    }
    assert payloads[..i] == payloads;
    ok := true;
  }

  /** The bytes of complete payloads and of a cut one: every payload, and what there is of the last. */
  lemma {:induction false} EncodeThenTail(payloads: seq<string>, tail: string)
    requires NewlineFree(tail) && forall k | 0 <= k < |payloads| :: NewlineFree(payloads[k])
    ensures Messages(Encode(payloads) + tail) == payloads + if tail == "" then [] else [tail]
  {
    EncodeIsJoin(payloads);
    JoinExtend(payloads, tail);
    SplitJoin(payloads + [tail]);
    assert (payloads + [tail])[..|payloads|] == payloads;
  }

  lemma {:induction false} JoinExtend(front: seq<string>, tail: string)
    ensures Join(front + [""]) + tail == Join(front + [tail])
    decreases |front|
  {
    if front == [] {
      assert "" + tail == tail;
    } else {
      JoinExtend(front[1..], tail);
      assert (front + [""])[1..] == front[1..] + [""];
      assert (front + [tail])[1..] == front[1..] + [tail];
      Regroup(front[0] + "\n", Join(front[1..] + [""]), tail);
    }
  }

  /** What is read from a writer that failed: the payloads before the one that failed, and of that one, as if
      it were a whole message, as much as was taken. */
  lemma InterruptedSource(payloads: seq<string>, kernels: nat -> (nat, nat) -> int, i: nat)
    requires forall j: nat :: WriteContract(kernels(j))
    requires StopsAt(payloads, kernels, i)
    requires forall k | 0 <= k < |payloads| :: NewlineFree(payloads[k])
    ensures var taken := Accepted(kernels(i), 0, |payloads[i]| + 1);
            && taken <= |payloads[i]|
            && Messages(SentUpTo(payloads, kernels, i))
               == payloads[..i] + if taken == 0 then [] else [payloads[i][..taken]]
  {
    var taken := Accepted(kernels(i), 0, |payloads[i]| + 1);
    assert !Emitted(payloads, kernels, i);
    assert (payloads[i] + "\n")[..taken] == payloads[i][..taken];
    EncodeThenTail(payloads[..i], payloads[i][..taken]);
  }

  // ---------- What the handlers log ----------

  datatype Entry = Message(text: string) | Eof

  function Entries(messages: seq<string>): seq<Entry> {
    seq(|messages|, i requires 0 <= i < |messages| => Message(messages[i]))
  }

  /** All that is logged for a source that sends `s`: its messages in order, then one EOF. */
  function Log(s: string): seq<Entry> { Entries(Messages(s)) + [Eof] }

  /** How many calls of `drain_one_message` it takes to reach the end of `s`. */
  function Turns(s: string): int { |Split(s)| }

  /** What is logged by the first `t` of these calls. */
  function LogAfter(s: string, t: nat): seq<Entry>
    requires t <= Turns(s)
  {
    if t == Turns(s) then Log(s) else Log(s)[..t]
  }

  /** EOF is logged by the last call and by no other, after everything else. */
  lemma EofIsLast(s: string, t: nat)
    requires t <= Turns(s)
    ensures Eof in LogAfter(s, t) <==> t == Turns(s)
    ensures forall k | 0 <= k < |LogAfter(s, t)| :: LogAfter(s, t)[k] == Eof <==> t == Turns(s) && k == |Log(s)| - 1
  {
    if t == Turns(s) {
      assert Log(s)[|Log(s)| - 1] == Eof;
    }
  }

  /** A call that ends at a newline logs the line before it. */
  lemma LineLogged(s: string, t: nat)
    requires t + 1 < Turns(s)
    ensures LogAfter(s, t + 1) == LogAfter(s, t) + [Message(Split(s)[t])]
  {
    assert Log(s)[t] == Message(Messages(s)[t]) == Message(Split(s)[t]);
    TakeOneMore(Log(s), t);
  }

  /** The last call logs the tail, unless it is empty, and then EOF. */
  lemma TailLogged(s: string, t: nat)
    requires t + 1 == Turns(s)
    ensures LogAfter(s, t + 1)
         == LogAfter(s, t) + (if Split(s)[t] == "" then [] else [Message(Split(s)[t])]) + [Eof]
  {
    assert Entries(Messages(s))[..t] == LogAfter(s, t);
  }

  /** After `t` calls for a source that sends `stream`, `log` and the watcher are as they should be. */
  predicate Logged(stream: string, broken: bool, fd: int, log: seq<Entry>, t: nat) {
    && t <= Turns(stream)
    && (fd == -1 <==> t == Turns(stream))
    && (fd == -1 ==> !broken)
    && log == LogAfter(stream, t)
  }

  /** What is left to read is all that comes after the pieces already logged. */
  predicate Unread(stream: string, fd: int, rest: string, t: nat) {
    fd != -1 ==> t <= Turns(stream) && Split(rest) == Split(stream)[t..]
  }

  lemma LineStep(stream: string, broken: bool, fd: int, log: seq<Entry>, t: nat, rest: string, after: string)
    requires Logged(stream, broken, fd, log, t) && Unread(stream, fd, rest, t) && fd != -1
    requires Split(rest) == [Split(rest)[0]] + Split(after)
    ensures Logged(stream, broken, fd, log + [Message(Split(rest)[0])], t + 1) && Unread(stream, fd, after, t + 1)
  {
    LineLogged(stream, t);
    assert Split(after) == Split(rest)[1..] == Split(stream)[t..][1..] == Split(stream)[t + 1..];
  }

  lemma TailStep(stream: string, fd: int, log: seq<Entry>, t: nat, rest: string)
    requires Logged(stream, false, fd, log, t) && Unread(stream, fd, rest, t) && fd != -1
    requires !HasNewline(rest)
    ensures Logged(stream, false, -1, log + (if rest == "" then [] else [Message(rest)]) + [Eof], t + 1)
  {
    NewlineIffSplit(rest);
    JoinSplit(rest);
    TailLogged(stream, t);
  }

  // ---------- What the loop must do for given answers of `poll` ----------

  datatype Handled = KeepOpen | Retire | ReadFailed

  datatype Poll = PollFailed | Ready(flags: seq<bool>)

  datatype Status = AllRetired | Threw | Polling

  function IsActive(fd: int): int { if fd == -1 then 0 else 1 }

  function Min(a: int, b: int): int { if a < b then a else b }

  predicate Flags(poll: Poll, w: nat) { poll.Ready? && w < |poll.flags| && poll.flags[w] }

  /** How many of the answers flag source `w`. */
  function Flagged(polls: seq<Poll>, w: nat): nat {
    if polls == [] then 0
    else Flagged(polls[..|polls| - 1], w) + if Flags(polls[|polls| - 1], w) then 1 else 0
  }

  lemma {:induction false} FlaggedIs(polls: seq<Poll>, w: nat)
    ensures Flagged(polls, w) == |set k: nat | k < |polls| && Flags(polls[k], w)|
  {
    var all := set k: nat | k < |polls| && Flags(polls[k], w);
    if polls == [] {
      assert all == {};
    } else {
      var m := |polls| - 1;
      FlaggedIs(polls[..m], w);
      var before := set k: nat | k < |polls[..m]| && Flags(polls[..m][k], w);
      assert all == if Flags(polls[m], w) then before + {m} else before;
    }
  }

  /** How many calls source `w` has had after these answers if it had `start[w]` before. */
  function Had(streams: seq<string>, start: seq<nat>, polls: seq<Poll>, w: nat): int
    requires w < |streams| == |start|
  {
    Min(Turns(streams[w]), start[w] + Flagged(polls, w))
  }

  /** Whether the answers give every source all the calls it needs. */
  ghost predicate Enough(streams: seq<string>, start: seq<nat>, polls: seq<Poll>)
    requires |streams| == |start|
  {
    forall w: nat | w < |streams| :: Had(streams, start, polls, w) == Turns(streams[w])
  }

  /** Answer `k` is an error while some source is unfinished, or it flags a broken source at its end. */
  ghost predicate FailsAt(streams: seq<string>, broken: seq<bool>, start: seq<nat>, polls: seq<Poll>, k: nat)
    requires |streams| == |start| == |broken| && k < |polls|
  {
    if polls[k].PollFailed? then !Enough(streams, start, polls[..k])
    else exists w: nat | w < |streams| ::
           Flags(polls[k], w) && broken[w] && Had(streams, start, polls[..k], w) == Turns(streams[w]) - 1
  }

  /** Whether one of the first `k` answers fails. */
  ghost predicate FailsBefore(streams: seq<string>, broken: seq<bool>, start: seq<nat>, polls: seq<Poll>, k: nat)
    requires |streams| == |start| == |broken| && k <= |polls|
  {
    exists j: nat | j < k :: FailsAt(streams, broken, start, polls, j)
  }

  /** In plain terms: at some answer a source is unfinished and `poll` fails, or a source that is broken and has
      nothing left but its end is flagged. */
  lemma FailsBeforeIff(streams: seq<string>, broken: seq<bool>, start: seq<nat>, polls: seq<Poll>)
    requires |streams| == |start| == |broken|
    ensures FailsBefore(streams, broken, start, polls, |polls|) <==>
            exists k: nat, w: nat | k < |polls| && w < |streams| ::
              var had := Had(streams, start, polls[..k], w);
              if polls[k].PollFailed? then had < Turns(streams[w])
              else Flags(polls[k], w) && broken[w] && had == Turns(streams[w]) - 1
  {
    if FailsBefore(streams, broken, start, polls, |polls|) {
      var k: nat :| k < |polls| && FailsAt(streams, broken, start, polls, k);
      if polls[k].PollFailed? {
        var w: nat :| w < |streams| && Had(streams, start, polls[..k], w) != Turns(streams[w]);
      } else {
        var w: nat :| w < |streams| && Flags(polls[k], w) && broken[w]
                      && Had(streams, start, polls[..k], w) == Turns(streams[w]) - 1;
      }
    }
    if k: nat, w: nat :| k < |polls| && w < |streams| &&
                         var had := Had(streams, start, polls[..k], w);
                         if polls[k].PollFailed? then had < Turns(streams[w])
                         else Flags(polls[k], w) && broken[w] && had == Turns(streams[w]) - 1 {
      assert FailsAt(streams, broken, start, polls, k);
    }
  }

  lemma FailsNowOrBefore(streams: seq<string>, broken: seq<bool>, start: seq<nat>, polls: seq<Poll>, k: nat)
    requires |streams| == |start| == |broken| && k < |polls|
    ensures FailsBefore(streams, broken, start, polls, k + 1)
       <==> FailsBefore(streams, broken, start, polls, k) || FailsAt(streams, broken, start, polls, k)
    ensures FailsBefore(streams, broken, start, polls, k + 1) ==> FailsBefore(streams, broken, start, polls, |polls|)
  {
  }

  lemma {:induction false} FlaggedGrows(polls: seq<Poll>, k: nat, w: nat)
    requires k <= |polls|
    ensures Flagged(polls[..k], w) <= Flagged(polls, w)
    decreases |polls| - k
  {
    if k == |polls| {
      assert polls[..k] == polls;
    } else {
      assert polls[..k + 1][..k] == polls[..k];
      FlaggedGrows(polls, k + 1, w);
    }
  }

  lemma EnoughStays(streams: seq<string>, start: seq<nat>, polls: seq<Poll>, k: nat)
    requires |streams| == |start| && k <= |polls| && Enough(streams, start, polls[..k])
    ensures Enough(streams, start, polls)
  {
    forall w: nat | w < |streams| ensures Had(streams, start, polls, w) == Turns(streams[w]) {
      assert Had(streams, start, polls[..k], w) == Turns(streams[w]);
      FlaggedGrows(polls, k, w);
    }
  }

  /** An answer flags some source that still has bytes or its end to be read. */
  ghost predicate Useful(streams: seq<string>, start: seq<nat>, polls: seq<Poll>, k: nat)
    requires |streams| == |start| && k < |polls|
  {
    exists w: nat | w < |streams| :: Flags(polls[k], w) && Had(streams, start, polls[..k], w) < Turns(streams[w])
  }

  /** The calls made by then, for each source. */
  function AllHad(streams: seq<string>, start: seq<nat>, polls: seq<Poll>): (had: seq<int>)
    requires |streams| == |start|
    ensures |had| == |streams|
  {
    seq(|streams|, w requires 0 <= w < |streams| => Had(streams, start, polls, w))
  }

  /** Each useful answer brings the end nearer by at least one call. */
  lemma {:induction false} UsefulPollsCount(streams: seq<string>, start: seq<nat>, polls: seq<Poll>, k: nat)
    requires |streams| == |start| && k <= |polls|
    requires forall j: nat | j < k :: Useful(streams, start, polls, j)
    ensures k <= Sum(AllHad(streams, start, polls[..k]), Identity)
    decreases k
  {
    var had := AllHad(streams, start, polls[..k]);
    if k == 0 {
      SumLower(had, Identity, 0);
    } else {
      UsefulPollsCount(streams, start, polls, k - 1);
      assert Useful(streams, start, polls, k - 1);
      var w: nat :| w < |streams| && Flags(polls[k - 1], w)
                    && Had(streams, start, polls[..k - 1], w) < Turns(streams[w]);
      var before := AllHad(streams, start, polls[..k - 1]);
      assert polls[..k][..k - 1] == polls[..k - 1];
      SumStrict(before, had, w, Identity, Identity);
    }
  }

  /** Main result: if each answer is useful, or comes when nothing is left to do, then one answer for every
      newline and every source is enough. */
  lemma UsefulPollsFinish(streams: seq<string>, start: seq<nat>, polls: seq<Poll>)
    requires |streams| == |start|
    requires forall k: nat | k < |polls| :: Useful(streams, start, polls, k) || Enough(streams, start, polls[..k])
    requires |polls| >= Sum(streams, Turns)
    ensures Enough(streams, start, polls)
  {
    if k: nat :| k < |polls| && Enough(streams, start, polls[..k]) {
      EnoughStays(streams, start, polls, k);
    } else if !Enough(streams, start, polls) {
      UsefulPollsCount(streams, start, polls, |polls|);
      assert polls[..|polls|] == polls;
      UnfinishedIsShort(streams, start, polls);
    }
  }

  lemma HadAfterRound(streams: seq<string>, start: seq<nat>, polls: seq<Poll>, k: nat, before: seq<nat>)
    requires |streams| == |start| == |before| && k < |polls|
    requires forall w: nat | w < |streams| :: before[w] == Had(streams, start, polls[..k], w)
    ensures forall w: nat | w < |streams| ::
              Had(streams, start, polls[..k + 1], w)
              == before[w] + if Flags(polls[k], w) && before[w] < Turns(streams[w]) then 1 else 0
  {
    forall w: nat | w < |streams|
      ensures Had(streams, start, polls[..k + 1], w)
           == before[w] + if Flags(polls[k], w) && before[w] < Turns(streams[w]) then 1 else 0
    {
      HadStep(streams, start, polls, k, w);
    }
  }

  lemma FailsAtBreak(streams: seq<string>, broken: seq<bool>, start: seq<nat>, polls: seq<Poll>, k: nat,
                     before: seq<nat>)
    requires |streams| == |start| == |broken| == |before| && k < |polls| && polls[k].Ready?
    requires forall w: nat | w < |streams| :: before[w] == Had(streams, start, polls[..k], w)
    ensures FailsAt(streams, broken, start, polls, k) <==>
            exists w: nat | w < |streams| ::
              Flags(polls[k], w) && broken[w] && before[w] == Turns(streams[w]) - 1
  {
  }

  /** Without errors of `poll` and without broken sources, no answer makes the loop throw. */
  lemma ErrorFreeNeverFails(streams: seq<string>, broken: seq<bool>, start: seq<nat>, polls: seq<Poll>)
    requires |streams| == |start| == |broken|
    requires forall w | 0 <= w < |broken| :: !broken[w]
    requires forall k | 0 <= k < |polls| :: polls[k].Ready?
    ensures !FailsBefore(streams, broken, start, polls, |polls|)
  {
  }

  lemma UnfinishedIsShort(streams: seq<string>, start: seq<nat>, polls: seq<Poll>)
    requires |streams| == |start| && !Enough(streams, start, polls)
    ensures Sum(AllHad(streams, start, polls), Identity) < Sum(streams, Turns)
  {
    var had := AllHad(streams, start, polls);
    var w: nat :| w < |streams| && Had(streams, start, polls, w) != Turns(streams[w]);
    SumStrict(had, streams, w, Identity, Turns);
  }

  /** One more answer gives a flagged, unfinished source one more call. */
  lemma HadStep(streams: seq<string>, start: seq<nat>, polls: seq<Poll>, k: nat, w: nat)
    requires w < |streams| == |start| && k < |polls|
    ensures var had := Had(streams, start, polls[..k], w);
            Had(streams, start, polls[..k + 1], w)
            == had + if Flags(polls[k], w) && had < Turns(streams[w]) then 1 else 0
  {
    assert polls[..k + 1][..k] == polls[..k];
  }

  // ---------- The event loop ----------

  /** `main` with its watchers and handlers. `streams[i]` is all that source i will ever send, `rests[i]` what
      has not been read, `logs[i]` what its handler logged, `turns[i]` how often the handler has returned. */
  class Reactor {
    const streams: seq<string>
    const broken: seq<bool>
    const handlers: map<int, nat>
    var fds: seq<int>
    var active: int
    var rests: seq<string>
    var logs: seq<seq<Entry>>
    var turns: seq<nat>

    ghost predicate SourceLogged(i: nat)
      requires |fds| == |logs| == |turns| == |streams| == |broken| && i < |fds|
      reads this
    {
      && (fds[i] != -1 ==> fds[i] in handlers && handlers[fds[i]] == i)
      && Logged(streams[i], broken[i], fds[i], logs[i], turns[i])
    }

    /** `active` counts the watchers not yet retired, and every source has logged what its calls should log.
        This holds also when the loop has thrown. */
    ghost predicate Consistent()
      reads this
    {
      && |fds| == |rests| == |logs| == |turns| == |streams| == |broken|
      && active == Sum(fds, IsActive)
      && forall i: nat | i < |fds| :: SourceLogged(i)
    }

    ghost predicate SourceRest(i: nat)
      requires |fds| == |rests| == |turns| == |streams| && i < |fds|
      reads this
    {
      Unread(streams[i], fds[i], rests[i], turns[i])
    }

    ghost predicate Valid()
      reads this
    {
      Consistent() && forall i: nat | i < |fds| :: SourceRest(i)
    }

    constructor (fds: seq<int>, streams: seq<string>, broken: seq<bool>)
      requires |fds| == |streams| == |broken|
      requires forall i | 0 <= i < |fds| :: fds[i] >= 0
      requires forall i, j | 0 <= i < j < |fds| :: fds[i] != fds[j]
      ensures Valid() && this.streams == streams && this.broken == broken && this.fds == fds
      ensures turns == seq(|fds|, _ => 0)
    {
      this.streams, this.broken, this.fds := streams, broken, fds;
      handlers := map i: nat | i < |fds| :: fds[i] := i;
      active := |fds|;
      rests := streams;
      logs := seq(|fds|, _ => []);
      turns := seq(|fds|, _ => 0);
      new;
      SumLower(fds, IsActive, 1);
      SumUpper(fds, IsActive, 1);
      forall i: nat | i < |fds| ensures SourceLogged(i) && SourceRest(i) {
        assert LogAfter(streams[i], 0) == [];
      }
    }

    /** `drain_one_message`: reads the first piece of what is left. It logs a line and keeps the source, or
        logs a non-empty tail, then EOF, and gives the source up, or fails at the end of a broken source. */
    method DrainOneMessage(i: nat) returns (handled: Handled)
      requires Valid() && i < |fds|
      modifies this`rests, this`logs
      ensures |rests| == |logs| == |fds|
      ensures forall j | 0 <= j < |fds| && j != i :: rests[j] == old(rests[j]) && logs[j] == old(logs[j])
      ensures handled.KeepOpen? <==> HasNewline(old(rests[i]))
      ensures handled.ReadFailed? <==> !HasNewline(old(rests[i])) && broken[i]
      ensures handled.KeepOpen? ==>
                && Split(old(rests[i])) == [Split(old(rests[i]))[0]] + Split(rests[i])
                && logs[i] == old(logs[i]) + [Message(Split(old(rests[i]))[0])]
      ensures handled.Retire? ==>
                logs[i] == old(logs[i]) + (if old(rests[i]) == "" then [] else [Message(old(rests[i]))]) + [Eof]
      ensures handled.ReadFailed? ==> logs[i] == old(logs[i])
    {
      var message := "";
      var start := rests[i];
      while true
        invariant |rests| == |fds| && forall j | 0 <= j < |fds| && j != i :: rests[j] == old(rests[j])
        invariant logs == old(logs)
        invariant start == message + rests[i] && NewlineFree(message)
        decreases |rests[i]|
      {
        if rests[i] == "" {
          assert start == message;
          if broken[i] {
            return ReadFailed;
          }
          if message != "" {
            logs := logs[i := logs[i] + [Message(message)]];
          }
          logs := logs[i := logs[i] + [Eof]];
          return Retire;
        }
        var ch := rests[i][0];
        ghost var left := rests[i];
        rests := rests[i := rests[i][1..]];
        assert left == [ch] + rests[i];
        if ch == '\n' {
          FirstPiece(start, message, rests[i]);
          logs := logs[i := logs[i] + [Message(message)]];
          return KeepOpen;
        }
        Regroup(message, [ch], rests[i]);
        message := message + [ch];
      }
    }

    /** The next call for source `w` would hit a read error: no newline is left, and the pipe is broken. */
    ghost predicate AtBreak(w: nat)
      requires w < |fds| == |rests| == |broken|
      reads this
    {
      fds[w] != -1 && broken[w] && !HasNewline(rests[w])
    }

    lemma AtBreakIff(w: nat)
      requires Valid() && w < |fds|
      ensures AtBreak(w) <==> broken[w] && turns[w] == Turns(streams[w]) - 1
    {
      assert SourceLogged(w) && SourceRest(w);
      NewlineIffSplit(rests[w]);
    }

    /** A dispatch for source `w` does not concern the others. */
    twostate lemma OthersKeep(w: nat)
      requires old(Valid()) && w < |old(fds)| == |fds| == |rests| == |logs| == |turns|
      requires forall j | 0 <= j < |fds| && j != w ::
                 && fds[j] == old(fds[j]) && rests[j] == old(rests[j])
                 && logs[j] == old(logs[j]) && turns[j] == old(turns[j])
      ensures forall j: nat | j < |fds| && j != w :: SourceLogged(j) && SourceRest(j)
    {
      forall j: nat | j < |fds| && j != w ensures SourceLogged(j) && SourceRest(j) {
        assert old(SourceLogged(j)) && old(SourceRest(j));
      }
    }

    twostate lemma LineKeepsValid(w: nat)
      requires old(Valid()) && w < |old(fds)| && old(fds[w]) != -1
      requires fds == old(fds) && active == old(active) && turns == old(turns)[w := old(turns[w]) + 1]
      requires |rests| == |logs| == |fds|
      requires forall j | 0 <= j < |fds| && j != w :: rests[j] == old(rests[j]) && logs[j] == old(logs[j])
      requires Split(old(rests[w])) == [Split(old(rests[w]))[0]] + Split(rests[w])
      requires logs[w] == old(logs[w]) + [Message(Split(old(rests[w]))[0])]
      ensures Valid()
    {
      OthersKeep(w);
      assert old(SourceLogged(w)) && old(SourceRest(w));
      LineStep(streams[w], broken[w], fds[w], old(logs[w]), old(turns[w]), old(rests[w]), rests[w]);
      assert SourceLogged(w) && SourceRest(w);
    }

    twostate lemma TailKeepsValid(w: nat)
      requires old(Valid()) && w < |old(fds)| && old(fds[w]) != -1 && !broken[w] && !HasNewline(old(rests[w]))
      requires fds == old(fds)[w := -1] && active == old(active) - 1 && turns == old(turns)[w := old(turns[w]) + 1]
      requires |rests| == |logs| == |fds|
      requires forall j | 0 <= j < |fds| && j != w :: rests[j] == old(rests[j]) && logs[j] == old(logs[j])
      requires logs[w] == old(logs[w]) + (if old(rests[w]) == "" then [] else [Message(old(rests[w]))]) + [Eof]
      ensures Valid()
    {
      OthersKeep(w);
      assert old(SourceLogged(w)) && old(SourceRest(w));
      TailStep(streams[w], old(fds[w]), old(logs[w]), old(turns[w]), old(rests[w]));
      SumUpdate(old(fds), w, -1, IsActive);
      assert SourceLogged(w) && SourceRest(w);
    }

    twostate lemma ErrorKeepsLogs(w: nat)
      requires old(Valid()) && w < |old(fds)|
      requires fds == old(fds) && active == old(active) && turns == old(turns) && logs == old(logs)
      requires |rests| == |fds|
      ensures Consistent()
    {
      forall j: nat | j < |fds| ensures SourceLogged(j) {
        assert old(SourceLogged(j));
      }
    }

    /** One dispatch of the inner loop: call the handler, and retire the watcher at end of file. */
    method Dispatch(w: nat) returns (ok: bool)
      requires Valid() && w < |fds| && fds[w] != -1
      modifies this
      ensures |fds| == old(|fds|) && Consistent() && (ok ==> Valid())
      ensures ok <==> !old(AtBreak(w))
      ensures turns == if ok then old(turns)[w := old(turns[w]) + 1] else old(turns)
      ensures fds[w] == if ok && !HasNewline(old(rests[w])) then -1 else old(fds[w])
      ensures forall j | 0 <= j < |fds| && j != w :: fds[j] == old(fds[j]) && rests[j] == old(rests[j])
    {
      assert SourceLogged(w) && SourceRest(w);
      var handled := DrainOneMessage(handlers[fds[w]]);
      if handled.ReadFailed? {
        assert logs == old(logs);
        ErrorKeepsLogs(w);
        return false;
      }
      turns := turns[w := turns[w] + 1];
      if handled.Retire? {
        fds := fds[w := -1];
        active := active - 1;
        TailKeepsValid(w);
      } else {
        LineKeepsValid(w);
      }
      ok := true;
    }

    /** One round of the loop, after `poll` reported `flags`: every flagged source that is not finished gets one
        call; the round throws exactly at the first of them that is broken and at its end. */
    method Round(flags: seq<bool>) returns (ok: bool)
      requires Valid() && |flags| == |fds|
      modifies this
      ensures |fds| == old(|fds|) && Consistent() && (ok ==> Valid())
      ensures ok <==> forall w: nat | w < |fds| && flags[w] :: !old(AtBreak(w))
      ensures ok ==> forall w | 0 <= w < |fds| ::
                       turns[w] == old(turns[w]) + if flags[w] && old(fds[w]) != -1 then 1 else 0
      ensures !ok ==> exists v: nat | v < |fds| ::
                        && flags[v] && old(AtBreak(v))
                        && (forall w: nat | w < v && flags[w] :: !old(AtBreak(w)))
                        && forall w | 0 <= w < |fds| ::
                             turns[w] == old(turns[w]) + if w < v && flags[w] && old(fds[w]) != -1 then 1 else 0
    {
      var w: nat := 0;
      while w < |fds|
        invariant |fds| == old(|fds|) && w <= |fds| && Valid()
        invariant forall j | w <= j < |fds| ::
                    fds[j] == old(fds[j]) && turns[j] == old(turns[j]) && rests[j] == old(rests[j])
        invariant forall j | 0 <= j < w :: turns[j] == old(turns[j]) + if flags[j] && old(fds[j]) != -1 then 1 else 0
        invariant forall j: nat | j < w && flags[j] :: !old(AtBreak(j))
      {
        if fds[w] == -1 || !flags[w] {
          w := w + 1;
          continue;
        }
        ok := Dispatch(w);
        if !ok {
          return false;
        }
        w := w + 1;
      }
      ok := true;
    }

    /** The whole loop, for the answers `poll` gives. Every source gets exactly the calls it is flagged for, up
        to the one that logs EOF; the loop throws exactly when an answer fails, and otherwise ends normally
        exactly when the answers suffice, with every message of every source logged and then one EOF. */
    method Loop(polls: seq<Poll>) returns (status: Status)
      requires Valid()
      requires forall k | 0 <= k < |polls| && polls[k].Ready? :: |polls[k].flags| == |fds|
      modifies this
      ensures |fds| == old(|fds|) && Consistent()
      ensures status.Threw? <==> FailsBefore(streams, broken, old(turns), polls, |polls|)
      ensures !status.Threw? ==>
                Valid() && forall w: nat | w < |fds| :: turns[w] == Had(streams, old(turns), polls, w)
      ensures !status.Threw? ==> (status.AllRetired? <==> Enough(streams, old(turns), polls))
      ensures status.AllRetired? ==> AllDelivered()
    {
      ghost var start := turns;
      var k := 0;
      assert polls[..0] == [];
      StartsAtHad();
      while active > 0
        invariant Valid() && |fds| == old(|fds|) && 0 <= k <= |polls|
        invariant !FailsBefore(streams, broken, start, polls, k)
        invariant forall w: nat | w < |fds| :: turns[w] == Had(streams, start, polls[..k], w)
        decreases |polls| - k
      {
        ActiveIsUnfinished(start, polls[..k]);
        if k == |polls| {
          assert polls[..k] == polls;
          return Polling;
        }
        FailsNowOrBefore(streams, broken, start, polls, k);
        if polls[k].PollFailed? {
          return Threw;
        }
        WatchersByTurns();
        HadAfterRound(streams, start, polls, k, turns);
        FailsAtBreak(streams, broken, start, polls, k, turns);
        var ok := Round(polls[k].flags);
        if !ok {
          return Threw;
        }
        k := k + 1;
      }
      NothingActive();
      assert Enough(streams, start, polls[..k]);
      EnoughStays(streams, start, polls, k);
      FinishedNeverFails(start, polls, k);
      status := AllRetired;
    }

    lemma WatchersByTurns()
      requires Valid()
      ensures forall w: nat | w < |fds| :: fds[w] == -1 <==> turns[w] >= Turns(streams[w])
      ensures forall w: nat | w < |fds| :: AtBreak(w) <==> broken[w] && turns[w] == Turns(streams[w]) - 1
    {
      forall w: nat | w < |fds|
        ensures fds[w] == -1 <==> turns[w] >= Turns(streams[w])
        ensures AtBreak(w) <==> broken[w] && turns[w] == Turns(streams[w]) - 1
      {
        assert SourceLogged(w);
        AtBreakIff(w);
      }
    }

    /** The whole loop when nothing fails: it does end, with everything logged. */
    method LoopUntilRetired(polls: seq<Poll>) returns (status: Status)
      requires Valid()
      requires forall w | 0 <= w < |broken| :: !broken[w]
      requires forall k | 0 <= k < |polls| :: polls[k].Ready? && |polls[k].flags| == |fds|
      requires forall k: nat | k < |polls| :: Useful(streams, turns, polls, k) || Enough(streams, turns, polls[..k])
      requires |polls| >= Sum(streams, Turns)
      modifies this
      ensures status.AllRetired? && |fds| == old(|fds|) && Consistent() && AllDelivered()
    {
      ErrorFreeNeverFails(streams, broken, turns, polls);
      UsefulPollsFinish(streams, turns, polls);
      status := Loop(polls);
    }

    lemma StartsAtHad()
      requires Valid()
      ensures forall w: nat | w < |fds| :: turns[w] == Had(streams, turns, [], w)
    {
      forall w: nat | w < |fds| ensures turns[w] == Had(streams, turns, [], w) {
        assert SourceLogged(w);
      }
    }

    lemma ActiveIsUnfinished(start: seq<nat>, polls: seq<Poll>)
      requires Valid() && |start| == |fds|
      requires forall w: nat | w < |fds| :: turns[w] == Had(streams, start, polls, w)
      ensures active > 0 ==> !Enough(streams, start, polls)
    {
      if active > 0 {
        var w := PositiveTerm(fds, IsActive);
        assert SourceLogged(w);
      }
    }

    /** Once the sources are finished, no later answer counts as a failure. */
    lemma FinishedNeverFails(start: seq<nat>, polls: seq<Poll>, k: nat)
      requires Consistent() && active <= 0 && |start| == |fds|
      requires k <= |polls| && Enough(streams, start, polls[..k])
      requires !FailsBefore(streams, broken, start, polls, k)
      ensures !FailsBefore(streams, broken, start, polls, |polls|)
    {
      forall j: nat | k <= j < |polls| ensures !FailsAt(streams, broken, start, polls, j) {
        assert polls[..j][..k] == polls[..k];
        EnoughStays(streams, start, polls[..j], k);
      }
    }

    ghost predicate AllDelivered()
      requires |fds| == |logs| == |turns| == |streams|
      reads this
    {
      forall i | 0 <= i < |fds| :: fds[i] == -1 && logs[i] == Log(streams[i]) && turns[i] == Turns(streams[i])
    }

    lemma NothingActive()
      requires Consistent() && active <= 0
      ensures AllDelivered()
    {
      forall i: nat | i < |fds|
        ensures fds[i] == -1 && logs[i] == Log(streams[i]) && turns[i] == Turns(streams[i])
      {
        SumAtLeast(fds, i, IsActive);
        assert SourceLogged(i);
      }
    }

    /** At every moment, thrown or not, a source has logged EOF exactly if its watcher is retired, as the last
        thing, and before that a prefix of its messages in order. */
    lemma EofIffRetired(i: nat)
      requires Consistent() && i < |fds|
      ensures Eof in logs[i] <==> fds[i] == -1
      ensures logs[i] <= Log(streams[i])
      ensures fds[i] == -1 ==> logs[i] == Log(streams[i])
    {
      assert SourceLogged(i);
      EofIsLast(streams[i], turns[i]);
    }

    /** The loop makes at most one dispatch for each newline of each source and one more for each source,
        and it has made them all exactly when nothing is active any more. */
    lemma DispatchBudget()
      requires Consistent()
      ensures Sum<int>(turns, Identity) <= Sum(streams, Turns)
      ensures Sum<int>(turns, Identity) == Sum(streams, Turns) <==> active == 0
    {
      forall i: nat | i < |fds| ensures turns[i] <= Turns(streams[i]) {
        assert SourceLogged(i);
      }
      SumMonotone<int, string>(turns, streams, Identity, Turns);
      if active == 0 {
        NothingActive();
        SumMonotone<string, int>(streams, turns, Turns, Identity);
      } else {
        SumLower(fds, IsActive, 0);
        var i := PositiveTerm(fds, IsActive);
        assert SourceLogged(i);
        SumStrict<int, string>(turns, streams, i, Identity, Turns);
      }
    }

    /** Main result: when the loop has ended, a source that encoded newline-free payloads has had exactly
        those payloads logged, in order, followed by one EOF, after one dispatch for each of them and one more. */
    lemma SourceRoundTrip(i: nat, payloads: seq<string>)
      requires Valid() && AllDelivered() && i < |fds|
      requires streams[i] == Encode(payloads) && forall k | 0 <= k < |payloads| :: NewlineFree(payloads[k])
      ensures logs[i] == Entries(payloads) + [Eof] && turns[i] == |payloads| + 1
    {
      EncodeSplits(payloads);
      FramingRoundTrip(payloads);
    }
  }
}

/** `FirstSuccess` of examples/futures_promises/main.cpp: racing lookups complete one promise.

    Each atomic operation, each block under `mu` and each write to the promise is one step of one thread.
    Writing a promise twice is modelled as the library does it, by an exception: inside the `try` of
    `run_lookup` it is caught and reported as a failure, inside the handler it terminates the program. */
module FirstSuccesses {
  import opened Options
  import opened Sequences
  import opened Sums

  /** `AllLookupsFailed` is the fallback of `report_failure`, `AlreadySatisfied` what a second write throws. */
  datatype Error = Thrown(code: int) | AllLookupsFailed | AlreadySatisfied

  /** What a lookup function does: return a value or throw. */
  datatype Lookup = Found(value: string) | Failed(code: int)

  datatype Promise = Unset | Value(value: string) | Exception(error: Error)

  /** Where a thread is: before its first shared operation, or about to make the named one. */
  datatype Pc =
    | Start
    | SetValue
    | StoreError(thrown: Error)
    | Decrement
    | Exchange
    | ReadError
    | SetException(error: Error)
    | Finished
    | Terminated

  datatype Thread = Thread(lookup: Lookup, pc: Pc)

  /** `winner` records which thread turned `done` from false to true, `stored` every write to `last_error`,
      `writes` the number of successful writes to the promise. */
  datatype State = State(
    threads: seq<Thread>,
    done: bool,
    remaining: int,
    lastError: Option<Error>,
    promise: Promise,
    winner: Option<nat>,
    stored: seq<Error>,
    writes: nat)

  predicate Enabled(s: State, t: nat) {
    t < |s.threads| && !s.threads[t].pc.Finished? && !s.threads[t].pc.Terminated?
  }

  function Goto(s: State, t: nat, pc: Pc): State
    requires t < |s.threads|
  {
    s.(threads := s.threads[t := s.threads[t].(pc := pc)])
  }

  /** `if (!done.exchange(true))`: the winner goes on to `next`, everyone else is finished. */
  function Exchanged(s: State, t: nat, next: Pc): State
    requires t < |s.threads|
  {
    if s.done then Goto(s, t, Finished) else Goto(s, t, next).(done := true, winner := Some(t))
  }

  function Stored(s: State, t: nat, error: Error): State
    requires t < |s.threads|
  {
    Goto(s, t, Decrement).(lastError := Some(error), stored := s.stored + [error])
  }

  function Apply(s: State, t: nat): State
    requires Enabled(s, t)
  {
    match s.threads[t].pc
    case Start =>
      (match s.threads[t].lookup
       case Found(_) => Exchanged(s, t, SetValue)
       case Failed(code) => Stored(s, t, Thrown(code)))
    case SetValue =>
      if s.promise.Unset? && s.threads[t].lookup.Found? then
        Goto(s, t, Finished).(promise := Value(s.threads[t].lookup.value), writes := s.writes + 1)
      else
        Goto(s, t, StoreError(AlreadySatisfied))
    case StoreError(error) => Stored(s, t, error)
    case Decrement =>
      Goto(s, t, if s.remaining == 1 then Exchange else Finished).(remaining := s.remaining - 1)
    case Exchange => Exchanged(s, t, ReadError)
    case ReadError =>
      Goto(s, t, SetException(if s.lastError.Some? then s.lastError.value else AllLookupsFailed))
    case SetException(error) =>
      if s.promise.Unset? then
        Goto(s, t, Finished).(promise := Exception(error), writes := s.writes + 1)
      else
        Goto(s, t, Terminated)
  }

  /** `FirstSuccess state(|lookups|)` with one thread per lookup, as `run_lookup_demo` sets it up. */
  function Init(lookups: seq<Lookup>): State {
    State(seq(|lookups|, t requires 0 <= t < |lookups| => Thread(lookups[t], Start)),
          false, |lookups|, None, Unset, None, [], 0)
  }

  predicate Executable(s: State, schedule: seq<nat>)
    decreases |schedule|
  {
    schedule == [] || (Enabled(s, schedule[0]) && Executable(Apply(s, schedule[0]), schedule[1..]))
  }

  function Run(s: State, schedule: seq<nat>): State
    requires Executable(s, schedule)
    decreases |schedule|
  {
    if schedule == [] then s else Run(Apply(s, schedule[0]), schedule[1..])
  }

  /** A run can be continued by exactly the threads that have neither finished nor been terminated. */
  lemma {:induction false} RunExtends(s: State, schedule: seq<nat>, t: nat)
    requires Executable(s, schedule)
    ensures Executable(s, schedule + [t]) <==>
            && t < |Run(s, schedule).threads|
            && Run(s, schedule).threads[t].pc != Finished && Run(s, schedule).threads[t].pc != Terminated
    ensures Executable(s, schedule + [t]) ==> Run(s, schedule + [t]) == Apply(Run(s, schedule), t)
    decreases |schedule|
  {
    if schedule != [] {
      RunExtends(Apply(s, schedule[0]), schedule[1..], t);
      assert (schedule + [t])[1..] == schedule[1..] + [t];
    }
  }

  // ---------- The invariant ----------

  /** 1 while the thread's lookup succeeded or its failure has not been counted yet. */
  function Pending(t: Thread): int {
    if t.lookup.Found? || t.pc.Start? || t.pc.Decrement? then 1 else 0
  }

  /** 1 while the thread is past the `fetch_sub` that returned 1 and has not finished. */
  function Last(t: Thread): int {
    if t.pc.Exchange? || t.pc.ReadError? || t.pc.SetException? then 1 else 0
  }

  /** 1 while the thread has won the exchange and still owes its write to the promise. */
  function OwesWrite(t: Thread): int {
    if t.pc.SetValue? || t.pc.ReadError? || t.pc.SetException? then 1 else 0
  }

  function HasStored(t: Thread): int {
    if t.lookup.Failed? && !t.pc.Start? then 1 else 0
  }

  ghost predicate ThreadInv(s: State, t: Thread) {
    match t.pc
    case Start => true
    case SetValue => t.lookup.Found?
    case Finished => t.lookup.Found? ==> s.done
    case SetException(error) => t.lookup.Failed? && s.stored != [] && error == s.stored[|s.stored| - 1]
    case StoreError(_) => false
    case Terminated => false
    case _ => t.lookup.Failed?
  }

  ghost predicate CountInv(s: State) {
    && s.remaining == Sum(s.threads, Pending)
    && Sum(s.threads, Last) <= 1
    && (s.remaining > 0 ==> Sum(s.threads, Last) == 0)
    && (s.remaining == 0 && s.threads != [] ==> Sum(s.threads, Last) == 1 || s.promise.Exception?)
    && Sum(s.threads, OwesWrite) + s.writes == (if s.done then 1 else 0)
    && |s.stored| == Sum(s.threads, HasStored)
  }

  ghost predicate ResultInv(s: State) {
    && (s.promise.Unset? <==> s.writes == 0)
    && s.lastError == (if s.stored == [] then None else Some(s.stored[|s.stored| - 1]))
    && (s.done <==> s.winner.Some?)
    && (s.winner.Some? ==> s.winner.value < |s.threads| && !s.threads[s.winner.value].pc.Start?)
    && (forall t | 0 <= t < |s.threads| && s.threads[t].pc.SetValue? :: s.winner == Some(t))
    && (s.promise.Value? ==> s.winner.Some? && s.threads[s.winner.value].lookup == Found(s.promise.value))
    && (s.promise.Exception? ==>
          && s.remaining == 0 && Sum(s.threads, Last) == 0
          && s.stored != [] && s.promise.error == s.stored[|s.stored| - 1])
  }

  ghost predicate Inv(s: State) {
    CountInv(s) && ResultInv(s) && forall t | 0 <= t < |s.threads| :: ThreadInv(s, s.threads[t])
  }

  /** Once nothing is pending, every lookup has failed and stored its error. */
  lemma {:induction false} NothingPending(ts: seq<Thread>)
    requires Sum(ts, Pending) == 0
    ensures forall t | 0 <= t < |ts| :: ts[t].lookup.Failed? && !ts[t].pc.Start? && !ts[t].pc.Decrement?
  {
    forall t: nat | t < |ts| ensures Pending(ts[t]) <= 0 {
      SumAtLeast(ts, t, Pending);
    }
  }

  /** How one thread's move changes the four counts. */
  lemma MoveCounts(s: State, t: nat, pc: Pc)
    requires t < |s.threads|
    ensures var me := s.threads[t]; var moved := me.(pc := pc); var ts := Goto(s, t, pc).threads;
            && Sum(ts, Pending) == Sum(s.threads, Pending) - Pending(me) + Pending(moved)
            && Sum(ts, Last) == Sum(s.threads, Last) - Last(me) + Last(moved)
            && Sum(ts, OwesWrite) == Sum(s.threads, OwesWrite) - OwesWrite(me) + OwesWrite(moved)
            && Sum(ts, HasStored) == Sum(s.threads, HasStored) - HasStored(me) + HasStored(moved)
  {
    var moved := s.threads[t].(pc := pc);
    SumUpdate(s.threads, t, moved, Pending);
    SumUpdate(s.threads, t, moved, Last);
    SumUpdate(s.threads, t, moved, OwesWrite);
    SumUpdate(s.threads, t, moved, HasStored);
  }

  /** The facts about the moving thread that the counts give. */
  lemma ThreadFacts(s: State, t: nat)
    requires Inv(s) && t < |s.threads|
    ensures Pending(s.threads[t]) <= s.remaining && Last(s.threads[t]) <= Sum(s.threads, Last)
    ensures s.remaining >= 0 && Sum(s.threads, OwesWrite) >= OwesWrite(s.threads[t])
    ensures HasStored(s.threads[t]) <= |s.stored|
    ensures s.promise.Value? ==> s.remaining > 0
    ensures s.threads[t].pc.Exchange? ==> !s.done
  {
    SumAtLeast(s.threads, t, Pending);
    SumAtLeast(s.threads, t, Last);
    SumAtLeast(s.threads, t, OwesWrite);
    SumAtLeast(s.threads, t, HasStored);
    if s.promise.Value? {
      SumAtLeast(s.threads, s.winner.value, Pending);
    }
    if s.threads[t].pc.Exchange? {
      NothingPending(s.threads);
      if Sum(s.threads, OwesWrite) > 0 {
        var w := PositiveTerm(s.threads, OwesWrite);
        assert ThreadInv(s, s.threads[w]);
        TwoTerms(s.threads, t, w, Last);
      }
    }
  }

  lemma TwoTerms(ts: seq<Thread>, i: nat, j: nat, f: Thread -> int)
    requires i < |ts| && j < |ts| && i != j
    requires forall k | 0 <= k < |ts| :: 0 <= f(ts[k])
    ensures f(ts[i]) + f(ts[j]) <= Sum(ts, f)
  {
    var k, l := if i < j then i else j, if i < j then j else i;
    assert ts == ts[..l] + ts[l..];
    SumConcat(ts[..l], ts[l..], f);
    SumAtLeast(ts[..l], k, f);
    SumAtLeast(ts[l..], 0, f);
  }

  lemma CountInvStep(s: State, t: nat)
    requires Inv(s) && Enabled(s, t)
    ensures CountInv(Apply(s, t))
  {
    assert ThreadInv(s, s.threads[t]);
    ThreadFacts(s, t);
    MoveCounts(s, t, Apply(s, t).threads[t].pc);
  }

  lemma WriteResult(s: State, t: nat)
    requires Inv(s) && Enabled(s, t) && (s.threads[t].pc.SetValue? || s.threads[t].pc.SetException?)
    ensures ResultInv(Apply(s, t))
  {
    assert ThreadInv(s, s.threads[t]);
    ThreadFacts(s, t);
    MoveCounts(s, t, Apply(s, t).threads[t].pc);
  }

  lemma ResultInvStep(s: State, t: nat)
    requires Inv(s) && Enabled(s, t)
    ensures ResultInv(Apply(s, t))
  {
    if s.threads[t].pc.SetValue? || s.threads[t].pc.SetException? {
      WriteResult(s, t);
    } else {
      assert ThreadInv(s, s.threads[t]);
      ThreadFacts(s, t);
      MoveCounts(s, t, Apply(s, t).threads[t].pc);
    }
  }

  lemma ThreadInvStep(s: State, t: nat, u: nat)
    requires Inv(s) && Enabled(s, t) && u < |s.threads|
    ensures ThreadInv(Apply(s, t), Apply(s, t).threads[u])
  {
    assert ThreadInv(s, s.threads[t]) && ThreadInv(s, s.threads[u]);
    ThreadFacts(s, t);
    SumAtLeast(s.threads, u, Last);
  }

  lemma InvStep(s: State, t: nat)
    requires Inv(s) && Enabled(s, t)
    ensures Inv(Apply(s, t))
  {
    CountInvStep(s, t);
    ResultInvStep(s, t);
    forall u: nat | u < |s.threads| ensures ThreadInv(Apply(s, t), Apply(s, t).threads[u]) {
      ThreadInvStep(s, t, u);
    }
  }

  // ---------- Whole runs ----------

  lemma InitInv(lookups: seq<Lookup>)
    ensures Inv(Init(lookups))
  {
    var ts := Init(lookups).threads;
    SumLower(ts, Pending, 1);
    SumUpper(ts, Pending, 1);
    SumLower(ts, Last, 0);
    SumUpper(ts, Last, 0);
    SumLower(ts, OwesWrite, 0);
    SumUpper(ts, OwesWrite, 0);
    SumLower(ts, HasStored, 0);
    SumUpper(ts, HasStored, 0);
  }

  lemma {:induction false} RunInv(s: State, schedule: seq<nat>)
    requires Inv(s) && Executable(s, schedule)
    ensures Inv(Run(s, schedule))
    ensures |Run(s, schedule).threads| == |s.threads|
    ensures forall t | 0 <= t < |s.threads| :: Run(s, schedule).threads[t].lookup == s.threads[t].lookup
    ensures !s.promise.Unset? ==> Run(s, schedule).promise == s.promise
    decreases |schedule|
  {
    if schedule != [] {
      InvStep(s, schedule[0]);
      StepFrame(s, schedule[0]);
      RunInv(Apply(s, schedule[0]), schedule[1..]);
    }
  }

  /** A step changes no lookup and never rewrites the promise. */
  lemma StepFrame(s: State, t: nat)
    requires Enabled(s, t)
    ensures !s.promise.Unset? ==> Apply(s, t).promise == s.promise
    ensures |Apply(s, t).threads| == |s.threads|
    ensures forall u | 0 <= u < |s.threads| :: Apply(s, t).threads[u].lookup == s.threads[u].lookup
  {
  }

  ghost predicate AllFinished(s: State) {
    forall t | 0 <= t < |s.threads| :: s.threads[t].pc.Finished?
  }

  /** Main result: in every interleaving the promise is written at most once, no write ever throws,
      and once all n >= 1 threads have finished it has been written exactly once. */
  lemma WrittenExactlyOnce(lookups: seq<Lookup>, schedule: seq<nat>)
    requires lookups != [] && Executable(Init(lookups), schedule)
    ensures var s := Run(Init(lookups), schedule);
            && s.writes <= 1
            && (forall t | 0 <= t < |s.threads| ::
                  !s.threads[t].pc.Terminated? && s.threads[t].pc != StoreError(AlreadySatisfied))
            && (AllFinished(s) ==> s.writes == 1 && !s.promise.Unset?)
  {
    var s := Run(Init(lookups), schedule);
    InitInv(lookups);
    RunInv(Init(lookups), schedule);
    forall t: nat | t < |s.threads| ensures ThreadInv(s, s.threads[t]) {}
    SumLower(s.threads, OwesWrite, 0);
    if AllFinished(s) {
      SumUpper(s.threads, OwesWrite, 0);
      SumUpper(s.threads, Last, 0);
      if s.remaining != 0 {
        SumLower(s.threads, Pending, 0);
        var t := PositiveTerm(s.threads, Pending);
        assert ThreadInv(s, s.threads[t]);
      }
    }
  }

  lemma StepStoresThrown(s: State, t: nat)
    requires Inv(s) && Enabled(s, t) && forall e | e in s.stored :: ThrownBySome(s.threads, e)
    ensures forall e | e in Apply(s, t).stored :: ThrownBySome(Apply(s, t).threads, e)
  {
    assert ThreadInv(s, s.threads[t]);
    StepFrame(s, t);
    forall e | e in Apply(s, t).stored ensures ThrownBySome(Apply(s, t).threads, e) {
      if e in s.stored {
        var u :| 0 <= u < |s.threads| && s.threads[u].lookup.Failed? && e == Thrown(s.threads[u].lookup.code);
        assert Apply(s, t).threads[u].lookup == s.threads[u].lookup;
      } else {
        assert Apply(s, t).threads[t].lookup == s.threads[t].lookup;
      }
    }
  }

  /** Every stored error is one that a lookup threw, so no other error reaches the caller. */
  lemma {:induction false} StoredErrorsWereThrown(s: State, schedule: seq<nat>)
    requires Inv(s) && Executable(s, schedule)
    requires forall e | e in s.stored :: ThrownBySome(s.threads, e)
    ensures forall e | e in Run(s, schedule).stored :: ThrownBySome(Run(s, schedule).threads, e)
    decreases |schedule|
  {
    if schedule != [] {
      InvStep(s, schedule[0]);
      StepStoresThrown(s, schedule[0]);
      StoredErrorsWereThrown(Apply(s, schedule[0]), schedule[1..]);
    }
  }

  ghost predicate ThrownBySome(ts: seq<Thread>, e: Error) {
    exists u | 0 <= u < |ts| :: ts[u].lookup.Failed? && e == Thrown(ts[u].lookup.code)
  }

  ghost predicate RunsLookups(lookups: seq<Lookup>, s: State) {
    |s.threads| == |lookups| && forall t | 0 <= t < |lookups| :: s.threads[t].lookup == lookups[t]
  }

  lemma ExceptionMeansAllFailed(lookups: seq<Lookup>, s: State)
    requires Inv(s) && s.promise.Exception? && RunsLookups(lookups, s)
    ensures |s.stored| == |lookups| && s.promise == Exception(s.stored[|lookups| - 1])
    ensures forall t | 0 <= t < |lookups| :: lookups[t].Failed?
  {
    NothingPending(s.threads);
    SumLower(s.threads, HasStored, 1);
    SumUpper(s.threads, HasStored, 1);
    forall t | 0 <= t < |lookups| ensures lookups[t].Failed? {
      assert s.threads[t].lookup == lookups[t];
    }
  }

  // ---------- Who wins, told from the schedule alone ----------

  /** Position i is the first at which a thread with a successful lookup has a turn. */
  predicate FirstFound(lookups: seq<Lookup>, schedule: seq<nat>, i: nat) {
    && i < |schedule| && (forall j | 0 <= j <= i :: schedule[j] < |lookups|)
    && lookups[schedule[i]].Found? && forall j | 0 <= j < i :: lookups[schedule[j]].Failed?
  }

  /** Position i is the last at which a thread with a failing lookup has its first turn. */
  predicate LastFailing(lookups: seq<Lookup>, schedule: seq<nat>, i: nat) {
    && i < |schedule| && (forall j | 0 <= j < |schedule| :: schedule[j] < |lookups|)
    && lookups[schedule[i]].Failed? && schedule[i] !in schedule[..i]
    && forall k | i < k < |schedule| && lookups[schedule[k]].Failed? :: schedule[k] in schedule[..k]
  }

  /** After the turns in `done`: which threads have started, ... */
  ghost predicate Started(lookups: seq<Lookup>, done: seq<nat>, s: State) {
    && RunsLookups(lookups, s)
    && (forall j | 0 <= j < |done| :: done[j] < |lookups|)
    && (forall u: nat | u < |lookups| :: s.threads[u].pc.Start? <==> u !in done)
  }

  /** ... that the first successful one has won, ... */
  ghost predicate WinnerKnown(lookups: seq<Lookup>, done: seq<nat>, s: State) {
    && (forall i: nat | FirstFound(lookups, done, i) :: s.winner == Some(done[i]))
    && (s.winner.Some? ==> s.winner.value < |lookups|)
    && (s.winner.Some? && lookups[s.winner.value].Failed? ==> s.remaining == 0)
  }

  /** ... and that the error is that of the failing one that started last. */
  ghost predicate ErrorKnown(lookups: seq<Lookup>, done: seq<nat>, s: State) {
    forall i: nat | LastFailing(lookups, done, i) :: s.lastError == Some(Thrown(lookups[done[i]].code))
  }

  ghost predicate History(lookups: seq<Lookup>, done: seq<nat>, s: State) {
    Started(lookups, done, s) && WinnerKnown(lookups, done, s) && ErrorKnown(lookups, done, s)
  }

  /** What one more turn does to the two positions. */
  lemma PositionsStep(lookups: seq<Lookup>, done: seq<nat>, t: nat)
    requires t < |lookups| && forall j | 0 <= j < |done| :: done[j] < |lookups|
    ensures forall i: nat | i < |done| :: FirstFound(lookups, done + [t], i) <==> FirstFound(lookups, done, i)
    ensures FirstFound(lookups, done + [t], |done|) <==>
            lookups[t].Found? && forall j | 0 <= j < |done| :: lookups[done[j]].Failed?
    ensures LastFailing(lookups, done + [t], |done|) <==> lookups[t].Failed? && t !in done
    ensures forall i: nat | i < |done| && LastFailing(lookups, done + [t], i) ::
              LastFailing(lookups, done, i) && (lookups[t].Failed? ==> t in done)
  {
    var after := done + [t];
    assert after[..|done|] == done;
    forall i: nat | i < |done| && LastFailing(lookups, after, i)
      ensures LastFailing(lookups, done, i) && (lookups[t].Failed? ==> t in done)
    {
      assert after[..i] == done[..i];
      forall k | i < k < |done| && lookups[done[k]].Failed? ensures done[k] in done[..k] {
        assert after[k] in after[..k] && after[..k] == done[..k];
      }
      assert lookups[after[|done|]].Failed? ==> after[|done|] in after[..|done|];
    }
  }

  /** A thread with a successful lookup whose first turn finds no earlier one wins. */
  lemma FirstFoundWins(lookups: seq<Lookup>, done: seq<nat>, s: State, t: nat)
    requires Inv(s) && Started(lookups, done, s) && WinnerKnown(lookups, done, s) && Enabled(s, t) && t < |lookups|
    requires lookups[t].Found? && forall j | 0 <= j < |done| :: lookups[done[j]].Failed?
    ensures Apply(s, t).winner == Some(t)
  {
    assert forall u: nat | u < |lookups| && u in done :: lookups[u].Failed?;
    assert s.threads[t].pc.Start? && s.threads[t].lookup == lookups[t];
    ThreadFacts(s, t);
  }

  /** Once some thread has won, nobody else does. */
  lemma WinnerStays(lookups: seq<Lookup>, done: seq<nat>, s: State, t: nat)
    requires Inv(s) && Started(lookups, done, s) && WinnerKnown(lookups, done, s) && Enabled(s, t)
    ensures s.winner.Some? ==> Apply(s, t).winner == s.winner
    ensures var q := Apply(s, t);
            q.winner.Some? ==> q.winner.value < |lookups| && (lookups[q.winner.value].Failed? ==> q.remaining == 0)
  {
    ThreadFacts(s, t);
    assert ThreadInv(s, s.threads[t]);
  }

  lemma WinnerStep(lookups: seq<Lookup>, done: seq<nat>, s: State, t: nat)
    requires Inv(s) && Started(lookups, done, s) && WinnerKnown(lookups, done, s) && Enabled(s, t)
    ensures WinnerKnown(lookups, done + [t], Apply(s, t))
  {
    WinnerStays(lookups, done, s, t);
    PositionsStep(lookups, done, t);
    forall i: nat | FirstFound(lookups, done + [t], i) ensures Apply(s, t).winner == Some((done + [t])[i]) {
      if i == |done| {
        FirstFoundWins(lookups, done, s, t);
      } else {
        assert FirstFound(lookups, done, i);
      }
    }
  }

  lemma StartedStep(lookups: seq<Lookup>, done: seq<nat>, s: State, t: nat)
    requires Inv(s) && Started(lookups, done, s) && Enabled(s, t)
    ensures Started(lookups, done + [t], Apply(s, t))
    ensures lookups[t].Failed? && t !in done ==> Apply(s, t).lastError == Some(Thrown(lookups[t].code))
    ensures lookups[t].Found? || t in done ==> Apply(s, t).lastError == s.lastError
  {
    assert ThreadInv(s, s.threads[t]);
    StepFrame(s, t);
  }

  lemma ErrorStep(lookups: seq<Lookup>, done: seq<nat>, s: State, t: nat)
    requires Inv(s) && Started(lookups, done, s) && ErrorKnown(lookups, done, s) && Enabled(s, t)
    ensures ErrorKnown(lookups, done + [t], Apply(s, t))
  {
    StartedStep(lookups, done, s, t);
    PositionsStep(lookups, done, t);
  }

  lemma {:induction false} RunHistory(lookups: seq<Lookup>, done: seq<nat>, s: State, schedule: seq<nat>, all: seq<nat>)
    requires Inv(s) && History(lookups, done, s) && Executable(s, schedule) && all == done + schedule
    ensures History(lookups, all, Run(s, schedule))
    decreases |schedule|
  {
    if schedule == [] {
      assert all == done;
    } else {
      var t := schedule[0];
      InvStep(s, t);
      StartedStep(lookups, done, s, t);
      WinnerStep(lookups, done, s, t);
      ErrorStep(lookups, done, s, t);
      Regroup(done, [t], schedule[1..]);
      assert schedule == [t] + schedule[1..];
      RunHistory(lookups, done + [t], Apply(s, t), schedule[1..], all);
    }
  }

  lemma {:induction false} FindFirstFound(lookups: seq<Lookup>, schedule: seq<nat>, t: nat) returns (i: nat)
    requires t in schedule && t < |lookups| && lookups[t].Found?
    requires forall j | 0 <= j < |schedule| :: schedule[j] < |lookups|
    ensures FirstFound(lookups, schedule, i)
  {
    var m := |schedule| - 1;
    if exists k: nat :: k < m && lookups[schedule[k]].Found? {
      var k: nat :| k < m && lookups[schedule[k]].Found?;
      assert schedule[..m][k] == schedule[k];
      i := FindFirstFound(lookups, schedule[..m], schedule[k]);
    } else {
      i := m;
    }
  }

  /** The last position at which a failing thread has its first turn; if all fail, every other thread has had
      its first turn before. */
  lemma {:induction false} FindLastFailing(lookups: seq<Lookup>, schedule: seq<nat>) returns (i: nat)
    requires schedule != [] && forall j | 0 <= j < |schedule| :: schedule[j] < |lookups|
    requires forall j | 0 <= j < |schedule| :: lookups[schedule[j]].Failed?
    ensures LastFailing(lookups, schedule, i)
    ensures forall u | u in schedule :: u == schedule[i] || u in schedule[..i]
  {
    var m := |schedule| - 1;
    assert schedule == schedule[..m] + [schedule[m]];
    if schedule[m] in schedule[..m] {
      i := FindLastFailing(lookups, schedule[..m]);
      assert schedule[..m][..i] == schedule[..i];
      forall k | i < k < |schedule| ensures schedule[k] in schedule[..k] {
        assert k < m ==> schedule[..m][k] in schedule[..m][..k] && schedule[..m][..k] == schedule[..k];
      }
    } else {
      i := m;
    }
  }

  lemma InitHistory(lookups: seq<Lookup>)
    ensures Inv(Init(lookups)) && History(lookups, [], Init(lookups))
  {
    InitInv(lookups);
  }

  /** Main result: the promise gets a value iff some lookup succeeds, and then the value of the successful lookup
      that has the first turn of all; otherwise it gets, after all n have failed, the error of the thread whose
      first turn comes latest. */
  lemma ValueIffSomeSuccess(lookups: seq<Lookup>, schedule: seq<nat>)
    requires lookups != [] && Executable(Init(lookups), schedule)
    requires AllFinished(Run(Init(lookups), schedule))
    ensures var s := Run(Init(lookups), schedule);
            && (forall j | 0 <= j < |schedule| :: schedule[j] < |lookups|)
            && (s.promise.Value? <==> exists t | 0 <= t < |lookups| :: lookups[t].Found?)
            && (s.promise.Value? ==>
                  exists i: nat | i < |schedule| ::
                    && lookups[schedule[i]].Found? && s.promise == Value(lookups[schedule[i]].value)
                    && forall j | 0 <= j < i :: lookups[schedule[j]].Failed?)
            && (!s.promise.Value? ==>
                  exists i: nat | i < |schedule| ::
                    && lookups[schedule[i]].Failed? && s.promise == Exception(Thrown(lookups[schedule[i]].code))
                    && schedule[i] !in schedule[..i]
                    && forall u: nat | u < |lookups| && u != schedule[i] :: u in schedule[..i])
  {
    var s := Run(Init(lookups), schedule);
    InitHistory(lookups);
    RunInv(Init(lookups), schedule);
    RunHistory(lookups, [], Init(lookups), schedule, schedule);
    WrittenExactlyOnce(lookups, schedule);
    if s.promise.Exception? {
      LatestFailureIsThrown(lookups, schedule, s);
    } else {
      FirstSuccessIsReturned(lookups, schedule, s);
    }
  }

  lemma FirstSuccessIsReturned(lookups: seq<Lookup>, schedule: seq<nat>, s: State)
    requires Inv(s) && History(lookups, schedule, s) && s.promise.Value?
    ensures exists i: nat | i < |schedule| ::
              && lookups[schedule[i]].Found? && s.promise == Value(lookups[schedule[i]].value)
              && forall j | 0 <= j < i :: lookups[schedule[j]].Failed?
  {
    var w := s.winner.value;
    assert s.threads[w].lookup == lookups[w];
    var i := FindFirstFound(lookups, schedule, w);
  }

  lemma LatestFailureIsThrown(lookups: seq<Lookup>, schedule: seq<nat>, s: State)
    requires lookups != [] && Inv(s) && History(lookups, schedule, s) && s.promise.Exception? && AllFinished(s)
    ensures forall t | 0 <= t < |lookups| :: lookups[t].Failed?
    ensures exists i: nat | i < |schedule| ::
              && lookups[schedule[i]].Failed? && s.promise == Exception(Thrown(lookups[schedule[i]].code))
              && schedule[i] !in schedule[..i]
              && forall u: nat | u < |lookups| && u != schedule[i] :: u in schedule[..i]
  {
    ExceptionMeansAllFailed(lookups, s);
    forall u: nat | u < |lookups| ensures u in schedule {
      assert s.threads[u].pc.Finished?;
    }
    var i := FindLastFailing(lookups, schedule);
  }

  /** The error path in detail: whenever the last failing thread is about to test `done` it finds it false,
      and when it reads `last_error` all n errors are stored, so the fallback error is never used. */
  lemma LastFailureWins(lookups: seq<Lookup>, schedule: seq<nat>, t: nat)
    requires lookups != [] && Executable(Init(lookups), schedule)
    requires t < |Run(Init(lookups), schedule).threads|
    requires Last(Run(Init(lookups), schedule).threads[t]) == 1
    ensures var s := Run(Init(lookups), schedule);
            && |s.stored| == |lookups| && s.lastError == Some(s.stored[|lookups| - 1])
            && (s.threads[t].pc.Exchange? ==> !s.done)
            && (s.threads[t].pc.SetException? ==> s.threads[t].pc.error == s.stored[|lookups| - 1])
  {
    var s := Run(Init(lookups), schedule);
    InitInv(lookups);
    RunInv(Init(lookups), schedule);
    ThreadFacts(s, t);
    assert ThreadInv(s, s.threads[t]);
    NothingPending(s.threads);
    SumLower(s.threads, HasStored, 1);
    SumUpper(s.threads, HasStored, 1);
  }

  // ---------- Termination ----------

  function StepsLeft(t: Thread): int {
    match t.pc
    case Start => 5
    case StoreError(_) => 5
    case Decrement => 4
    case Exchange => 3
    case ReadError => 2
    case SetException(_) => 1
    case SetValue => 1
    case _ => 0
  }

  lemma StepTakesOne(s: State, t: nat)
    requires Inv(s) && Enabled(s, t)
    ensures Sum(Apply(s, t).threads, StepsLeft) < Sum(s.threads, StepsLeft)
  {
    assert ThreadInv(s, s.threads[t]);
    ThreadInvStep(s, t, t);
    SumUpdate(s.threads, t, Apply(s, t).threads[t], StepsLeft);
  }

  /** No thread ever waits for another, and all of them finish within 5n steps. */
  lemma {:induction false} RunIsBounded(s: State, schedule: seq<nat>)
    requires Inv(s) && Executable(s, schedule)
    ensures |schedule| <= Sum(s.threads, StepsLeft) - Sum(Run(s, schedule).threads, StepsLeft)
    decreases |schedule|
  {
    if schedule != [] {
      InvStep(s, schedule[0]);
      StepTakesOne(s, schedule[0]);
      RunIsBounded(Apply(s, schedule[0]), schedule[1..]);
    }
  }

  lemma FinishesWithinFiveStepsEach(lookups: seq<Lookup>, schedule: seq<nat>)
    requires Executable(Init(lookups), schedule)
    ensures |schedule| <= 5 * |lookups|
  {
    InitInv(lookups);
    RunIsBounded(Init(lookups), schedule);
    SumUpper(Init(lookups).threads, StepsLeft, 5);
    SumLower(Run(Init(lookups), schedule).threads, StepsLeft, 0);
  }

  /** A run that cannot be extended has finished every thread. */
  lemma StuckIsFinished(s: State)
    requires Inv(s) && forall t: nat :: !Enabled(s, t)
    ensures AllFinished(s)
  {
    forall t: nat | t < |s.threads| ensures s.threads[t].pc.Finished? {
      assert !Enabled(s, t) && ThreadInv(s, s.threads[t]);
    }
  }

  // ---------- The class ----------

  /** `FirstSuccess` with the threads of `run_lookup`; each method is one shared operation of thread `t`. */
  class FirstSuccess {
    var threads: seq<Thread>
    var done: bool
    var remaining: int
    var lastError: Option<Error>
    var promise: Promise
    var winner: Option<nat>
    var stored: seq<Error>
    var writes: nat

    ghost function View(): State
      reads this
    {
      State(threads, done, remaining, lastError, promise, winner, stored, writes)
    }

    constructor (lookups: seq<Lookup>)
      ensures View() == Init(lookups)
      ensures threads == seq(|lookups|, t requires 0 <= t < |lookups| => Thread(lookups[t], Start))
      ensures !done && remaining == |lookups| && lastError == None && promise == Unset
    {
      threads := seq(|lookups|, t requires 0 <= t < |lookups| => Thread(lookups[t], Start));
      done, remaining, lastError, promise := false, |lookups|, None, Unset;
      winner, stored, writes := None, [], 0;
    }

    /** `done.exchange(true)` of `try_set_value` and of the last `report_failure`. */
    method ExchangeDone(t: nat) returns (was: bool)
      requires Enabled(View(), t)
      requires (threads[t].pc.Start? && threads[t].lookup.Found?) || threads[t].pc.Exchange?
      modifies this`threads, this`done, this`winner
      ensures was == old(done) && done && View() == Apply(old(View()), t)
      ensures threads == old(threads)[t := old(threads[t]).(
                pc := if was then Finished else if old(threads[t]).pc.Start? then SetValue else ReadError)]
    {
      was := done;
      done := true;
      if was {
        threads := threads[t := threads[t].(pc := Finished)];
      } else {
        winner := Some(t);
        threads := threads[t := threads[t].(pc := if threads[t].pc.Start? then SetValue else ReadError)];
      }
    }

    /** `promise.set_value`, which throws if the promise is already satisfied. */
    method SetPromiseValue(t: nat)
      requires Enabled(View(), t) && threads[t].pc.SetValue? && threads[t].lookup.Found?
      modifies this`threads, this`promise, this`writes
      ensures View() == Apply(old(View()), t)
      ensures promise == if old(promise) == Unset then Value(old(threads[t]).lookup.value) else old(promise)
      ensures threads[t].pc == if old(promise) == Unset then Finished else StoreError(AlreadySatisfied)
    {
      if promise.Unset? {
        promise := Value(threads[t].lookup.value);
        writes := writes + 1;
        threads := threads[t := threads[t].(pc := Finished)];
      } else {
        threads := threads[t := threads[t].(pc := StoreError(AlreadySatisfied))];
      }
    }

    /** The first locked block of `report_failure`. */
    method StoreLastError(t: nat)
      requires Enabled(View(), t)
      requires (threads[t].pc.Start? && threads[t].lookup.Failed?) || threads[t].pc.StoreError?
      modifies this`threads, this`lastError, this`stored
      ensures View() == Apply(old(View()), t)
      ensures var me := old(threads[t]);
              var error := if me.pc.Start? then Thrown(me.lookup.code) else me.pc.thrown;
              && lastError == Some(error) && stored == old(stored) + [error]
              && threads == old(threads)[t := me.(pc := Decrement)]
    {
      var error := if threads[t].pc.Start? then Thrown(threads[t].lookup.code) else threads[t].pc.thrown;
      lastError := Some(error);
      stored := stored + [error];
      threads := threads[t := threads[t].(pc := Decrement)];
    }

    /** `remaining.fetch_sub(1)`. */
    method FetchSub(t: nat) returns (was: int)
      requires Enabled(View(), t) && threads[t].pc.Decrement?
      modifies this`threads, this`remaining
      ensures was == old(remaining) && View() == Apply(old(View()), t)
      ensures remaining == old(remaining) - 1
      ensures threads == old(threads)[t := old(threads[t]).(pc := if old(remaining) == 1 then Exchange else Finished)]
    {
      was := remaining;
      remaining := remaining - 1;
      threads := threads[t := threads[t].(pc := if was == 1 then Exchange else Finished)];
    }

    /** The second locked block of `report_failure`. */
    method ReadLastError(t: nat)
      requires Enabled(View(), t) && threads[t].pc.ReadError?
      modifies this`threads
      ensures View() == Apply(old(View()), t)
      ensures threads == old(threads)[t := old(threads[t]).(
                pc := SetException(if lastError.Some? then lastError.value else AllLookupsFailed))]
    {
      var err := AllLookupsFailed;
      if lastError.Some? {
        err := lastError.value;
      }
      threads := threads[t := threads[t].(pc := SetException(err))];
    }

    /** `promise.set_exception`. */
    method SetPromiseException(t: nat)
      requires Enabled(View(), t) && threads[t].pc.SetException?
      modifies this`threads, this`promise, this`writes
      ensures View() == Apply(old(View()), t)
      ensures promise == if old(promise) == Unset then Exception(old(threads[t]).pc.error) else old(promise)
      ensures threads[t].pc == if old(promise) == Unset then Finished else Terminated
    {
      if promise.Unset? {
        promise := Exception(threads[t].pc.error);
        writes := writes + 1;
        threads := threads[t := threads[t].(pc := Finished)];
      } else {
        threads := threads[t := threads[t].(pc := Terminated)];
      }
    }

    /** The next shared operation of thread `t`. */
    method Execute(t: nat)
      requires Enabled(View(), t)
      requires threads[t].pc.SetValue? ==> threads[t].lookup.Found?
      modifies this
      ensures View() == Apply(old(View()), t)
    {
      match threads[t].pc
      case Start =>
        if threads[t].lookup.Found? {
          var was := ExchangeDone(t);
        } else {
          StoreLastError(t);
        }
      case SetValue => SetPromiseValue(t);
      case StoreError(_) => StoreLastError(t);
      case Decrement => var was := FetchSub(t);
      case Exchange => var was := ExchangeDone(t);
      case ReadError => ReadLastError(t);
      case SetException(_) => SetPromiseException(t);
    }

    /** A whole interleaving of the threads, so the theorems about `Run` are theorems about the object. */
    method ExecuteAll(schedule: seq<nat>)
      requires Inv(View()) && Executable(View(), schedule)
      modifies this
      ensures Inv(View()) && View() == Run(old(View()), schedule)
      decreases |schedule|
    {
      if schedule != [] {
        assert ThreadInv(View(), threads[schedule[0]]);
        InvStep(View(), schedule[0]);
        Execute(schedule[0]);
        ExecuteAll(schedule[1..]);
      }
    }
  }
}

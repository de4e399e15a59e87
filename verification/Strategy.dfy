/** The routing strategies of examples/strategy/main.cpp: least-loaded as greedy list scheduling with
    Graham's bound, and round-robin with its exact fairness count. */
module Strategies {
  import opened Division
  import opened Sums

  datatype Backend = Backend(name: string, inFlight: int)

  function Load(b: Backend): int { b.inFlight }

  // ---------- Choosing and assigning ----------

  /** `std::min_element` over `in_flight`: the first backend of least load. */
  function LeastLoaded(backends: seq<Backend>): (chosen: nat)
    requires backends != []
    ensures chosen < |backends|
    ensures forall j | 0 <= j < |backends| :: backends[chosen].inFlight <= backends[j].inFlight
    ensures forall j | 0 <= j < chosen :: backends[chosen].inFlight < backends[j].inFlight
  {
    if |backends| == 1 then 0
    else
      var best := LeastLoaded(backends[..|backends| - 1]);
      if backends[|backends| - 1].inFlight < backends[best].inFlight then |backends| - 1 else best
  }

  function Assign(backends: seq<Backend>, chosen: nat, work: int): (after: seq<Backend>)
    requires chosen < |backends|
    ensures |after| == |backends|
  {
    backends[chosen := backends[chosen].(inFlight := backends[chosen].inFlight + work)]
  }

  predicate ValidChoices(choices: seq<nat>, requests: nat, n: nat) {
    |choices| == requests && forall i | 0 <= i < requests :: choices[i] < n
  }

  /** The backends after each `works[i]` went to backend `choices[i]`. */
  function AssignAll(backends: seq<Backend>, works: seq<int>, choices: seq<nat>): (after: seq<Backend>)
    requires ValidChoices(choices, |works|, |backends|)
    ensures |after| == |backends|
  {
    if works == [] then backends
    else
      var m := |works| - 1;
      Assign(AssignAll(backends, works[..m], choices[..m]), choices[m], works[m])
  }

  /** The choices the least-loaded strategy makes, one after another. */
  function Greedy(backends: seq<Backend>, works: seq<int>): (choices: seq<nat>)
    requires backends != []
    ensures ValidChoices(choices, |works|, |backends|)
  {
    if works == [] then []
    else
      var m := |works| - 1;
      var before := Greedy(backends, works[..m]);
      before + [LeastLoaded(AssignAll(backends, works[..m], before))]
  }

  function RouteAll(backends: seq<Backend>, works: seq<int>): (after: seq<Backend>)
    requires backends != []
    ensures |after| == |backends|
  {
    AssignAll(backends, works, Greedy(backends, works))
  }

  /** One more request goes to the backend that is least loaded at that moment. */
  lemma RouteOneMore(backends: seq<Backend>, works: seq<int>, m: nat)
    requires backends != [] && m < |works|
    ensures RouteAll(backends, works[..m + 1])
            == Assign(RouteAll(backends, works[..m]), LeastLoaded(RouteAll(backends, works[..m])), works[m])
    ensures Greedy(backends, works[..m + 1])
            == Greedy(backends, works[..m]) + [LeastLoaded(RouteAll(backends, works[..m]))]
  {
    assert works[..m + 1][..m] == works[..m];
    assert Greedy(backends, works[..m + 1])[..m] == Greedy(backends, works[..m]);
  }

  /** A request adds its work to the load of the backend it is given to and changes nothing else. */
  lemma AssignChangesOneLoad(backends: seq<Backend>, works: seq<int>, choices: seq<nat>, j: nat)
    requires works != [] && ValidChoices(choices, |works|, |backends|) && j < |backends|
    ensures var m := |works| - 1;
            var before, after := AssignAll(backends, works[..m], choices[..m]), AssignAll(backends, works, choices);
            && after[j].name == before[j].name == backends[j].name
            && after[j].inFlight == before[j].inFlight + if j == choices[m] then works[m] else 0
    decreases |works|
  {
    var m := |works| - 1;
    if m > 0 {
      AssignChangesOneLoad(backends, works[..m], choices[..m], j);
    }
  }

  lemma AssignTotal(before: seq<Backend>, chosen: nat, work: int)
    requires chosen < |before|
    ensures Sum(Assign(before, chosen, work), Load) == Sum(before, Load) + work
  {
    SumUpdate(before, chosen, before[chosen].(inFlight := before[chosen].inFlight + work), Load);
  }

  /** No work is lost: the final loads sum to the initial loads plus the works. */
  lemma {:induction false} TotalLoad(backends: seq<Backend>, works: seq<int>, choices: seq<nat>)
    requires ValidChoices(choices, |works|, |backends|)
    ensures Sum(AssignAll(backends, works, choices), Load) == Sum(backends, Load) + Sum(works, Identity)
  {
    if works != [] {
      var m := |works| - 1;
      TotalLoad(backends, works[..m], choices[..m]);
      var before := AssignAll(backends, works[..m], choices[..m]);
      AssignTotal(before, choices[m], works[m]);
      assert works == works[..m] + [works[m]];
      SumConcat(works[..m], [works[m]], Identity);
    }
  }

  // ---------- Graham's bound ----------

  predicate Within(works: seq<int>, max: int) {
    forall i | 0 <= i < |works| :: 0 <= works[i] <= max
  }

  /** n * load <= total + (n - 1) * max. */
  predicate MeetsBound(n: nat, load: int, total: int, max: int) {
    n * load <= total + (n - 1) * max
  }

  lemma BoundGrows(n: nat, load: int, total: int, grown: int, max: int)
    requires MeetsBound(n, load, total, max) && total <= grown
    ensures MeetsBound(n, load, grown, max)
  {
  }

  /** The arithmetic of one greedy step. */
  lemma LeastGrows(n: nat, load: int, work: int, max: int, total: int)
    requires 1 <= n && n * load <= total && 0 <= work <= max
    ensures MeetsBound(n, load + work, total + work, max)
  {
    assert n * (load + work) == n * load + work + (n - 1) * work;
    assert (n - 1) * work <= (n - 1) * max;
  }

  lemma LeastMeetsBound(before: seq<Backend>, work: int, max: int, n: nat, load: int, total: int)
    requires before != [] && 0 <= work <= max
    requires n == |before| && load == before[LeastLoaded(before)].inFlight && total == Sum(before, Load)
    ensures MeetsBound(n, load + work, total + work, max)
  {
    SumLower(before, Load, load);
    assert n * load <= total;
    LeastGrows(n, load, work, max, total);
  }

  lemma {:induction false} ReceivedMeetsBound(backends: seq<Backend>, works: seq<int>, max: int, j: nat)
    requires backends != [] && Within(works, max) && j in Greedy(backends, works)
    ensures var after := RouteAll(backends, works);
            MeetsBound(|backends|, after[j].inFlight, Sum(after, Load), max)
    decreases |works|
  {
    var m := |works| - 1;
    assert works[..m + 1] == works;
    RouteOneMore(backends, works, m);
    var before := RouteAll(backends, works[..m]);
    AssignTotal(before, LeastLoaded(before), works[m]);
    if j != LeastLoaded(before) {
      ReceivedMeetsBound(backends, works[..m], max, j);
    }
    ReceivedStep(before, works[m], max, |before|, j, Sum(before, Load));
  }

  /** Main result: every backend that received a request satisfies n * load <= total + (n - 1) * max. */
  lemma ReceivedLoadBound(backends: seq<Backend>, works: seq<int>, max: int, j: nat)
    requires backends != [] && j in Greedy(backends, works)
    requires forall i | 0 <= i < |works| :: 0 <= works[i] <= max
    ensures var after := RouteAll(backends, works);
            |backends| * after[j].inFlight <= Sum(after, Load) + (|backends| - 1) * max
  {
    ReceivedMeetsBound(backends, works, max, j);
  }

  lemma ReceivedStep(before: seq<Backend>, work: int, max: int, n: nat, j: nat, total: int)
    requires before != [] && 0 <= work <= max && n == |before| && j < n && total == Sum(before, Load)
    requires j != LeastLoaded(before) ==> MeetsBound(n, before[j].inFlight, total, max)
    ensures MeetsBound(n, Assign(before, LeastLoaded(before), work)[j].inFlight, total + work, max)
  {
    if j == LeastLoaded(before) {
      LeastMeetsBound(before, work, max, n, before[j].inFlight, total);
    } else {
      BoundGrows(n, before[j].inFlight, total, total + work, max);
    }
  }

  predicate AtMostTimes(total: int, n: nat, makespan: int) { total <= n * makespan }

  /** Graham's bound from the two lower bounds on a makespan. */
  lemma CombineBounds(n: nat, load: int, total: int, makespan: int)
    requires 1 <= n && MeetsBound(n, load, total, makespan) && AtMostTimes(total, n, makespan)
    ensures WithinGraham(n, load, makespan)
  {
    assert n * makespan + (n - 1) * makespan == (2 * n - 1) * makespan;
  }

  /** The total of the works is at most n times the makespan of any assignment. */
  lemma TotalWithinMakespan(backends: seq<Backend>, works: seq<int>, other: seq<nat>, makespan: int)
    requires AllIdle(backends) && ValidChoices(other, |works|, |backends|)
    requires forall i | 0 <= i < |backends| :: AssignAll(backends, works, other)[i].inFlight <= makespan
    ensures Sum(backends, Load) == 0 && AtMostTimes(Sum(works, Identity), |backends|, makespan)
  {
    TotalLoad(backends, works, other);
    SumUpper(AssignAll(backends, works, other), Load, makespan);
    SumLower(backends, Load, 0);
    SumUpper(backends, Load, 0);
  }

  /** `backends` with every counter at zero. */
  predicate AllIdle(backends: seq<Backend>) {
    forall j | 0 <= j < |backends| :: backends[j].inFlight == 0
  }

  /** Non-negative works never lower a load, and each work fits in the backend that got it. */
  lemma {:induction false} WorkFits(backends: seq<Backend>, works: seq<int>, choices: seq<nat>, max: int)
    requires ValidChoices(choices, |works|, |backends|)
    requires AllIdle(backends) && forall i | 0 <= i < |works| :: 0 <= works[i]
    requires forall j | 0 <= j < |backends| :: AssignAll(backends, works, choices)[j].inFlight <= max
    ensures Within(works, max)
    ensures forall j | 0 <= j < |backends| :: 0 <= AssignAll(backends, works, choices)[j].inFlight
  {
    if works != [] {
      var m := |works| - 1;
      var before := AssignAll(backends, works[..m], choices[..m]);
      var after := AssignAll(backends, works, choices);
      forall j | 0 <= j < |backends| ensures before[j].inFlight <= max {
        assert before[j].inFlight <= after[j].inFlight;
      }
      WorkFits(backends, works[..m], choices[..m], max);
      assert after[choices[m]].inFlight == before[choices[m]].inFlight + works[m];
      assert works == works[..m] + [works[m]];
    }
  }

  /** A backend the strategy never chose keeps its load. */
  lemma {:induction false} UntouchedLoad(backends: seq<Backend>, works: seq<int>, choices: seq<nat>, j: nat)
    requires ValidChoices(choices, |works|, |backends|)
    requires j < |backends| && forall i | 0 <= i < |choices| :: choices[i] != j
    ensures AssignAll(backends, works, choices)[j] == backends[j]
  {
    if works != [] {
      var m := |works| - 1;
      UntouchedLoad(backends, works[..m], choices[..m], j);
    }
  }

  lemma GreedyMeetsBound(backends: seq<Backend>, works: seq<int>, max: int, j: nat)
    requires backends != [] && AllIdle(backends) && j < |backends| && Within(works, max) && 0 <= max
    requires Sum(backends, Load) == 0
    ensures MeetsBound(|backends|, RouteAll(backends, works)[j].inFlight, Sum(works, Identity), max)
  {
    TotalLoad(backends, works, Greedy(backends, works));
    if j in Greedy(backends, works) {
      ReceivedMeetsBound(backends, works, max, j);
    } else {
      UntouchedLoad(backends, works, Greedy(backends, works), j);
      SumLower(works, Identity, 0);
      IdleMeetsBound(|backends|, Sum(works, Identity), max);
    }
  }

  /** load <= (2n - 1) / n * makespan. */
  predicate WithinGraham(n: nat, load: int, makespan: int) {
    n * load <= (2 * n - 1) * makespan
  }

  lemma GreedyWithinGraham(backends: seq<Backend>, works: seq<int>, other: seq<nat>, makespan: int, j: nat)
    requires backends != [] && AllIdle(backends) && j < |backends|
    requires forall i | 0 <= i < |works| :: 0 <= works[i]
    requires ValidChoices(other, |works|, |backends|)
    requires forall i | 0 <= i < |backends| :: AssignAll(backends, works, other)[i].inFlight <= makespan
    ensures WithinGraham(|backends|, RouteAll(backends, works)[j].inFlight, makespan)
  {
    WorkFits(backends, works, other, makespan);
    assert 0 <= AssignAll(backends, works, other)[j].inFlight <= makespan;
    TotalWithinMakespan(backends, works, other, makespan);
    GreedyMeetsBound(backends, works, makespan, j);
    CombineBounds(|backends|, RouteAll(backends, works)[j].inFlight, Sum(works, Identity), makespan);
  }

  /** Main result, Graham's bound: from idle backends, no load of the least-loaded strategy exceeds
      (2n - 1) / n times the makespan of any other assignment of the same works. */
  lemma GrahamBound(backends: seq<Backend>, works: seq<int>, other: seq<nat>, makespan: int, j: nat)
    requires backends != [] && j < |backends| && forall i | 0 <= i < |backends| :: backends[i].inFlight == 0
    requires forall i | 0 <= i < |works| :: 0 <= works[i]
    requires |other| == |works| && forall i | 0 <= i < |other| :: other[i] < |backends|
    requires forall i | 0 <= i < |backends| :: AssignAll(backends, works, other)[i].inFlight <= makespan
    ensures |backends| * RouteAll(backends, works)[j].inFlight <= (2 * |backends| - 1) * makespan
  {
    GreedyWithinGraham(backends, works, other, makespan, j);
  }

  lemma IdleMeetsBound(n: nat, total: int, max: int)
    requires 1 <= n && 0 <= total && 0 <= max
    ensures MeetsBound(n, 0, total, max)
  {
    assert 0 <= (n - 1) * max;
  }

  /** The spread between any two loads never exceeds the larger of the initial spread and the largest work. */
  lemma {:induction false} SpreadBound(backends: seq<Backend>, works: seq<int>, max: int, spread: int)
    requires backends != [] && max <= spread && forall i | 0 <= i < |works| :: 0 <= works[i] <= max
    requires forall i, j | 0 <= i < |backends| && 0 <= j < |backends| ::
               backends[i].inFlight - backends[j].inFlight <= spread
    ensures var after := RouteAll(backends, works);
            forall i, j | 0 <= i < |backends| && 0 <= j < |backends| ::
              after[i].inFlight - after[j].inFlight <= spread
    decreases |works|
  {
    if works != [] {
      var m := |works| - 1;
      assert works[..m + 1] == works;
      RouteOneMore(backends, works, m);
      SpreadBound(backends, works[..m], max, spread);
    }
  }

  // ---------- The bound is attained ----------

  /** The first request of block `c`, in blocks of `n`. */
  function BlockStart(n: nat, c: nat): nat { c * n }

  lemma NextBlock(n: nat, c: nat)
    ensures BlockStart(n, c + 1) == BlockStart(n, c) + n
  {
  }

  lemma BlocksApart(n: nat, c: nat, d: nat)
    requires c < d
    ensures BlockStart(n, c) + n <= BlockStart(n, d)
  {
    NextBlock(n, c);
    TimesMonotone(c + 1, d, n);
  }

  function Small(n: nat): nat
    requires 1 <= n
  {
    BlockStart(n, n - 1)
  }

  /** n * (n - 1) requests of work 1, then one of work n. */
  function TightWorks(n: nat): (works: seq<int>)
    requires 1 <= n
    ensures |works| == Small(n) + 1
  {
    seq(Small(n), _ => 1) + [n]
  }

  /** Fill the first n - 1 backends with n small requests each and keep the last one for the big request. */
  function TightChoices(n: nat): (choices: seq<nat>)
    requires 1 <= n
    ensures ValidChoices(choices, |TightWorks(n)|, n)
  {
    Blocks(n, Small(n)) + [n - 1]
  }

  function Blocks(n: nat, k: nat): (choices: seq<nat>)
    requires 1 <= n && k <= Small(n)
    ensures ValidChoices(choices, k, n)
  {
    seq(k, i requires 0 <= i < k => BlockOf(n, i))
  }

  /** Request i belongs to block c: n requests each, fewer than n blocks. */
  predicate InBlock(n: nat, i: nat, c: nat) {
    c < n && BlockStart(n, c) <= i < BlockStart(n, c) + n
  }

  function BlockOf(n: nat, i: nat): (c: nat)
    requires 1 <= n && i < Small(n)
    ensures InBlock(n, i, c)
  {
    BlockBounds(n, i);
    i / n
  }

  lemma BlockBounds(n: nat, i: nat)
    requires 1 <= n && i < Small(n)
    ensures InBlock(n, i, i / n)
  {
    var q, r := DivisionOf(i, n);
    if q >= n {
      BlocksApart(n, n - 1, q);
    }
  }

  /** Loads that differ by at most 1 and average exactly v are all v. */
  lemma EvenLoads(after: seq<Backend>, v: int, j: nat)
    requires j < |after| && Sum(after, Load) == |after| * v
    requires forall i, k | 0 <= i < |after| && 0 <= k < |after| :: after[i].inFlight - after[k].inFlight <= 1
    ensures after[j].inFlight == v
  {
    var level := after[j].(inFlight := v);
    SumUpdate(after, j, level, Load);
    if after[j].inFlight > v {
      SumLower(after[j := level], Load, v);
    } else if after[j].inFlight < v {
      SumUpper(after[j := level], Load, v);
    }
  }

  lemma GreedySpreadsOnes(backends: seq<Backend>, ones: seq<int>, v: nat, j: nat)
    requires backends != [] && AllIdle(backends) && j < |backends|
    requires |ones| == |backends| * v && forall i | 0 <= i < |ones| :: ones[i] == 1
    ensures RouteAll(backends, ones)[j].inFlight == v
  {
    SpreadBound(backends, ones, 1, 1);
    TotalLoad(backends, ones, Greedy(backends, ones));
    SumLower(backends, Load, 0);
    SumUpper(backends, Load, 0);
    SumLower(ones, Identity, 1);
    SumUpper(ones, Identity, 1);
    EvenLoads(RouteAll(backends, ones), v, j);
  }

  /** The load of a backend after the first k requests if it gets the n requests from `start` on. */
  function BlockLoad(n: nat, k: nat, start: nat): int {
    if k <= start then 0 else if k <= start + n then k - start else n
  }

  lemma {:induction false} BlockLoads(backends: seq<Backend>, n: nat, k: nat, j: nat, start: nat)
    requires backends != [] && AllIdle(backends) && n == |backends| && k <= Small(n)
    requires j < n && start == BlockStart(n, j)
    ensures AssignAll(backends, seq(k, _ => 1), Blocks(n, k))[j].inFlight == BlockLoad(n, k, start)
  {
    if k > 0 {
      BlockLoads(backends, n, k - 1, j, start);
      assert seq(k, _ => 1)[..k - 1] == seq(k - 1, _ => 1);
      assert Blocks(n, k)[..k - 1] == Blocks(n, k - 1);
      BlockStep(n, k - 1, j, start, BlockOf(n, k - 1));
    }
  }

  /** Request k raises the load of the backend of its block and of no other. */
  lemma BlockStep(n: nat, k: nat, j: nat, start: nat, c: nat)
    requires InBlock(n, k, c) && start == BlockStart(n, j)
    ensures BlockLoad(n, k + 1, start) == BlockLoad(n, k, start) + if j == c then 1 else 0
  {
    if j < c {
      BlocksApart(n, j, c);
    } else if c < j {
      BlocksApart(n, c, j);
    }
  }

  lemma TightAlternative(backends: seq<Backend>, n: nat, m: nat, j: nat, start: nat)
    requires backends != [] && AllIdle(backends) && n == |backends| && m == Small(n)
    requires j < n && start == BlockStart(n, j)
    ensures AssignAll(backends, TightWorks(n), TightChoices(n))[j].inFlight <= n
  {
    assert TightWorks(n)[..m] == seq(m, _ => 1) && TightChoices(n)[..m] == Blocks(n, m);
    BlockLoads(backends, n, m, j, start);
  }

  /** After the small requests all n loads are n - 1, and the big one comes on top of one of them. */
  lemma TightGreedy(backends: seq<Backend>, n: nat, m: nat, level: nat) returns (j: nat)
    requires backends != [] && AllIdle(backends) && n == |backends| && m == Small(n) == n * level && level == n - 1
    ensures j < n && RouteAll(backends, TightWorks(n))[j].inFlight == 2 * n - 1
  {
    var works, ones := TightWorks(n), seq(m, _ => 1);
    assert works[..m] == ones && works[..m + 1] == works;
    RouteOneMore(backends, works, m);
    j := LeastLoaded(RouteAll(backends, ones));
    GreedySpreadsOnes(backends, ones, level, j);
  }

  /** Main result: Graham's bound is exact for every n. On `TightWorks` another assignment has makespan n,
      and the least-loaded strategy reaches a load of 2n - 1. */
  lemma GrahamBoundIsTight(backends: seq<Backend>)
    requires backends != [] && forall i | 0 <= i < |backends| :: backends[i].inFlight == 0
    ensures var n := |backends|;
            && (forall j | 0 <= j < n :: AssignAll(backends, TightWorks(n), TightChoices(n))[j].inFlight <= n)
            && exists j | 0 <= j < n :: RouteAll(backends, TightWorks(n))[j].inFlight == 2 * n - 1
  {
    forall j: nat | j < |backends|
      ensures AssignAll(backends, TightWorks(|backends|), TightChoices(|backends|))[j].inFlight <= |backends|
    {
      TightAlternative(backends, |backends|, Small(|backends|), j, BlockStart(|backends|, j));
    }
    var j := TightGreedy(backends, |backends|, Small(|backends|), |backends| - 1);
  }

  // ---------- Round robin ----------

  const SIZE_LIMIT: nat := 0x1_0000_0000_0000_0000  // `std::size_t` has 64 bits

  /** `next_` after k requests. */
  function NextAfter(k: nat): nat {
    if k == 0 then 0 else (NextAfter(k - 1) + 1) % SIZE_LIMIT
  }

  /** The backend request k (counting from 0) goes to, of n. */
  function RoundRobinChoice(k: nat, n: nat): (chosen: nat)
    requires 1 <= n
    ensures chosen < n
  {
    NextAfter(k) % n
  }

  /** The backends of m requests in a row, after `served` others. */
  function Rotation(served: nat, m: nat, n: nat): (choices: seq<nat>)
    requires 1 <= n
    ensures ValidChoices(choices, m, n)
  {
    if m == 0 then [] else Rotation(served, m - 1, n) + [RoundRobinChoice(served + m - 1, n)]
  }

  /** The backends after the first k of the works went round. */
  function Rotated(start: seq<Backend>, works: seq<int>, served: nat, k: nat): (after: seq<Backend>)
    requires start != [] && k <= |works|
    ensures |after| == |start|
  {
    AssignAll(start, works[..k], Rotation(served, k, |start|))
  }

  lemma RotatedOneMore(start: seq<Backend>, works: seq<int>, served: nat, k: nat, chosen: nat)
    requires start != [] && k < |works| && chosen == RoundRobinChoice(served + k, |start|)
    ensures Rotated(start, works, served, k + 1) == Assign(Rotated(start, works, served, k), chosen, works[k])
  {
    assert works[..k + 1][..k] == works[..k];
    assert Rotation(served, k + 1, |start|)[..k] == Rotation(served, k, |start|);
  }

  function TimesChosen(k: nat, n: nat, j: nat): nat
    requires 1 <= n
  {
    if k == 0 then 0 else TimesChosen(k - 1, n, j) + if RoundRobinChoice(k - 1, n) == j then 1 else 0
  }

  lemma {:induction false} NextWraps(k: nat)
    ensures NextAfter(k) == k % SIZE_LIMIT
  {
    if k > 0 {
      NextWraps(k - 1);
      var q, r := DivisionOf(k - 1, SIZE_LIMIT);
      if r + 1 < SIZE_LIMIT {
        DivisionIs(k, SIZE_LIMIT, q, r + 1);
      } else {
        DivisionIs(k, SIZE_LIMIT, q + 1, 0);
      }
    }
  }

  lemma CountAt(k: nat, n: nat, j: nat, q: nat, r: nat)
    requires j < n && r < n && k == q * n + r
    ensures (k + n - 1 - j) / n == if r > j then q + 1 else q
  {
    if r > j {
      assert (q + 1) * n == q * n + n;
      DivisionIs(k + n - 1 - j, n, q + 1, r - 1 - j);
    } else {
      DivisionIs(k + n - 1 - j, n, q, r + n - 1 - j);
    }
  }

  lemma CountStep(k: nat, n: nat, j: nat)
    requires j < n
    ensures (k + n - j) / n == (k + n - 1 - j) / n + if k % n == j then 1 else 0
  {
    var q, r := DivisionOf(k, n);
    CountAt(k, n, j, q, r);
    if r + 1 < n {
      CountAt(k + 1, n, j, q, r + 1);
    } else {
      assert (q + 1) * n == q * n + n;
      CountAt(k + 1, n, j, q + 1, 0);
    }
  }

  lemma {:induction false} NextBeforeWrap(k: nat)
    requires k < 0x1_0000_0000_0000_0000
    ensures NextAfter(k) == k
  {
    if k > 0 {
      NextBeforeWrap(k - 1);
    }
  }

  lemma ChoiceBeforeWrap(k: nat, n: nat)
    requires 1 <= n && k < 0x1_0000_0000_0000_0000
    ensures RoundRobinChoice(k, n) == k % n
  {
    NextBeforeWrap(k);
  }

  lemma {:induction false} TimesChosenIs(k: nat, n: nat, j: nat)
    requires 1 <= n
    ensures TimesChosen(k, n, j) == |set i: nat | i < k && RoundRobinChoice(i, n) == j|
  {
    var all := set i: nat | i < k && RoundRobinChoice(i, n) == j;
    if k == 0 {
      assert all == {};
    } else {
      TimesChosenIs(k - 1, n, j);
      var before := set i: nat | i < k - 1 && RoundRobinChoice(i, n) == j;
      assert all == if RoundRobinChoice(k - 1, n) == j then before + {k - 1} else before;
    }
  }

  /** Main result: after k requests backend j was chosen exactly (k + n - 1 - j) / n times. */
  lemma {:induction false} RoundRobinCount(k: nat, n: nat, j: nat)
    requires j < n && k <= 0x1_0000_0000_0000_0000
    ensures TimesChosen(k, n, j) == (k + n - 1 - j) / n
  {
    if k == 0 {
      DivisionIs(n - 1 - j, n, 0, n - 1 - j);
    } else {
      RoundRobinCount(k - 1, n, j);
      ChoiceBeforeWrap(k - 1, n);
      CountStep(k - 1, n, j);
    }
  }

  /** Any two counts differ by at most 1, and any n consecutive requests reach every backend once. */
  lemma RoundRobinIsFair(k: nat, n: nat, i: nat, j: nat)
    requires i < n && j < n && k + n <= 0x1_0000_0000_0000_0000
    ensures -1 <= TimesChosen(k, n, i) - TimesChosen(k, n, j) <= 1
    ensures TimesChosen(k + n, n, j) == TimesChosen(k, n, j) + 1
  {
    RoundRobinCount(k, n, i);
    RoundRobinCount(k, n, j);
    RoundRobinCount(k + n, n, j);
    QuotientsNearby(k + n - 1 - i, k + n - 1 - j, n);
    QuotientsNearby(k + n - 1 - j, k + n - 1 - i, n);
    QuotientShift(k + n - 1 - j, n);
  }

  /** The rotation survives the wrap of `next_` for ever iff the number of backends divides 2^64. */
  lemma RoundRobinSurvivesWrap(n: nat)
    requires 1 <= n
    ensures (forall k: nat :: RoundRobinChoice(k, n) == k % n) <==> 0x1_0000_0000_0000_0000 % n == 0
  {
    if SIZE_LIMIT % n == 0 {
      forall k: nat ensures RoundRobinChoice(k, n) == k % n {
        NextWraps(k);
        ModOfMod(k, n, SIZE_LIMIT);
      }
    } else {
      NextWraps(SIZE_LIMIT);
      assert RoundRobinChoice(SIZE_LIMIT, n) != SIZE_LIMIT % n;
    }
  }

  /** Three backends do not divide 2^64, and request 2^64 is the first one out of turn. */
  lemma WrapBreaksThree()
    ensures RoundRobinChoice(0x1_0000_0000_0000_0000, 3) == 0 && 0x1_0000_0000_0000_0000 % 3 == 1
  {
    NextWraps(SIZE_LIMIT);
  }

  // ---------- The classes ----------

  class RoundRobinStrategy {
    var next: nat

    constructor ()
      ensures next == NextAfter(0)
    {
      next := 0;
    }

    /** `choose_backend`; from request to request `next` runs through `NextAfter`. */
    method ChooseBackend(backends: array<Backend>) returns (chosen: nat)
      requires backends.Length > 0
      modifies this
      ensures chosen == old(next) % backends.Length < backends.Length
      ensures old(next) + 1 < 0x1_0000_0000_0000_0000 ==> next == old(next) + 1
      ensures old(next) + 1 == 0x1_0000_0000_0000_0000 ==> next == 0
      ensures next == (old(next) + 1) % SIZE_LIMIT
      ensures forall k: nat | old(next) == NextAfter(k) ::
                chosen == RoundRobinChoice(k, backends.Length) && next == NextAfter(k + 1)
    {
      chosen := next % backends.Length;
      next := (next + 1) % SIZE_LIMIT;
    }
  }

  class LeastLoadedStrategy {
    constructor () {}

    /** `std::min_element`: the first backend of least load. */
    method ChooseBackend(backends: array<Backend>) returns (chosen: nat)
      requires backends.Length > 0
      ensures chosen < backends.Length
      ensures forall j | 0 <= j < backends.Length :: backends[chosen].inFlight <= backends[j].inFlight
      ensures forall j | 0 <= j < chosen :: backends[chosen].inFlight < backends[j].inFlight
    {
      chosen := 0;
      for i := 1 to backends.Length
        invariant chosen < i
        invariant forall j | 0 <= j < i :: backends[chosen].inFlight <= backends[j].inFlight
        invariant forall j | 0 <= j < chosen :: backends[chosen].inFlight < backends[j].inFlight
      {
        if backends[i].inFlight < backends[chosen].inFlight {
          chosen := i;
        }
      }
    }
  }

  datatype Strategy = RoundRobin(rotating: RoundRobinStrategy) | Least(loads: LeastLoadedStrategy)

  predicate LoadsFit(backends: seq<Backend>) {
    forall j | 0 <= j < |backends| :: FitsInt(backends[j].inFlight)
  }

  predicate FitsInt(x: int) { -0x8000_0000 <= x < 0x8000_0000 }

  class RequestRouter {
    const strategy: Strategy

    constructor (strategy: Strategy)
      ensures this.strategy == strategy
    {
      this.strategy := strategy;
    }

    function Target(backends: seq<Backend>): (chosen: nat)
      requires backends != []
      ensures chosen < |backends|
      ensures strategy.Least? ==> forall j | 0 <= j < |backends| :: backends[chosen].inFlight <= backends[j].inFlight
      ensures strategy.RoundRobin? ==> chosen == strategy.rotating.next % |backends|
      reads this, if strategy.RoundRobin? then {strategy.rotating} else {}
    {
      if strategy.RoundRobin? then strategy.rotating.next % |backends| else LeastLoaded(backends)
    }

    /** `handle_request`: the chosen backend, and no other, takes on the work. */
    method HandleRequest(backends: array<Backend>, work: int)
      requires backends.Length > 0
      requires -0x8000_0000 <= backends[Target(backends[..])].inFlight + work < 0x8000_0000
      modifies backends, if strategy.RoundRobin? then {strategy.rotating} else {}
      ensures backends[..] == Assign(old(backends[..]), old(Target(backends[..])), work)
      ensures var chosen := old(Target(backends[..]));
              && chosen < backends.Length
              && backends[chosen].inFlight == old(backends[..])[chosen].inFlight + work
              && backends[chosen].name == old(backends[..])[chosen].name
              && forall j | 0 <= j < backends.Length && j != chosen :: backends[j] == old(backends[j])
      ensures strategy.RoundRobin? ==> strategy.rotating.next == (old(strategy.rotating.next) + 1) % SIZE_LIMIT
    {
      var chosen;
      match strategy {
        case RoundRobin(rotating) => chosen := rotating.ChooseBackend(backends);
        case Least(loads) => chosen := loads.ChooseBackend(backends);
      }
      backends[chosen] := backends[chosen].(inFlight := backends[chosen].inFlight + work);
    }

    /** A sequence of requests by least load: `RouteAll`, the subject of the bounds. */
    method HandleAllLeast(backends: array<Backend>, works: seq<int>)
      requires strategy.Least? && backends.Length > 0
      requires forall k: nat | k <= |works| :: LoadsFit(RouteAll(backends[..], works[..k]))
      modifies backends
      ensures backends[..] == RouteAll(old(backends[..]), works)
    {
      ghost var start := backends[..];
      for k := 0 to |works|
        invariant backends[..] == RouteAll(start, works[..k])
      {
        RouteOneMore(start, works, k);
        ghost var chosen := LeastLoaded(backends[..]);
        assert FitsInt(RouteAll(start, works[..k + 1])[chosen].inFlight);
        HandleRequest(backends, works[k]);
      }
      assert works[..|works|] == works;
    }

    /** One request by round robin, after `served` others. */
    method HandleRotating(backends: array<Backend>, work: int, ghost served: nat, ghost chosen: nat)
      requires strategy.RoundRobin? && strategy.rotating.next == NextAfter(served)
      requires backends.Length > 0 && chosen == RoundRobinChoice(served, backends.Length)
      requires FitsInt(backends[chosen].inFlight + work)
      modifies backends, strategy.rotating
      ensures backends[..] == Assign(old(backends[..]), chosen, work)
      ensures strategy.rotating.next == NextAfter(served + 1)
    {
      HandleRequest(backends, work);
    }

    /** A sequence of requests by round robin, from request `served` on: `Rotation`, the subject of the counts. */
    method HandleAllRotating(backends: array<Backend>, works: seq<int>, ghost served: nat)
      requires strategy.RoundRobin? && strategy.rotating.next == NextAfter(served) && backends.Length > 0
      requires forall k: nat | k <= |works| :: LoadsFit(Rotated(backends[..], works, served, k))
      modifies backends, strategy.rotating
      ensures backends[..] == AssignAll(old(backends[..]), works, Rotation(served, |works|, backends.Length))
      ensures strategy.rotating.next == NextAfter(served + |works|)
    {
      ghost var start, request := backends[..], served;
      for k := 0 to |works|
        invariant backends[..] == Rotated(start, works, served, k)
        invariant request == served + k && strategy.rotating.next == NextAfter(request)
      {
        ghost var chosen := RoundRobinChoice(request, backends.Length);
        RotatedOneMore(start, works, served, k, chosen);
        assert FitsInt(Rotated(start, works, served, k + 1)[chosen].inFlight);
        HandleRotating(backends, works[k], request, chosen);
        request := request + 1;
      }
      assert works[..|works|] == works;
    }

    /** A sequence of requests, one after another: every theorem about `RouteAll` and about `Rotation` is one
        about the backends that this leaves behind. */
    method HandleAll(backends: array<Backend>, works: seq<int>, ghost served: nat)
      requires backends.Length > 0
      requires strategy.RoundRobin? ==> strategy.rotating.next == NextAfter(served)
      requires forall k: nat | k <= |works| ::
                 LoadsFit(if strategy.Least? then RouteAll(backends[..], works[..k])
                          else Rotated(backends[..], works, served, k))
      modifies backends, if strategy.RoundRobin? then {strategy.rotating} else {}
      ensures strategy.Least? ==> backends[..] == RouteAll(old(backends[..]), works)
      ensures strategy.RoundRobin? ==>
                && backends[..] == AssignAll(old(backends[..]), works, Rotation(served, |works|, backends.Length))
                && strategy.rotating.next == NextAfter(served + |works|)
    {
      match strategy
      case RoundRobin(_) => HandleAllRotating(backends, works, served);
      case Least(_) => HandleAllLeast(backends, works);
    }
  }
}

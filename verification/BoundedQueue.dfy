/** The bounded queue of examples/bounded_queue/main.cpp, with its producers, consumers and closers.

    Every call of `push`, `pop` and `close` runs under one mutex, so a locked block, with the
    notification it makes before unlocking, is one step; the two broadcasts of `close` are steps of
    their own because they happen after the unlock. */
module BoundedQueues {
  import opened Options
  import opened Sequences
  import opened Sums

  /** A work item, with the producer that made it. */
  datatype Item = Item(source: nat, requestId: int)

  datatype ProducerPc = Ready | AsleepNotFull | NotifiedNotFull | Done | Stopped

  datatype Producer = Producer(pc: ProducerPc, todo: seq<int>)

  datatype Consumer = Polling | AsleepNotEmpty | NotifiedNotEmpty | Handling(item: Item) | Drained

  datatype Closer = BeforeClose | OwesNotEmpty | OwesNotFull | AfterClose

  /** `q`, `capacity` and `closed` are the queue's members; `pushed` and `popped` record its history;
      `processed` is the consumers' atomic counter. */
  datatype State = State(
    q: seq<Item>,
    capacity: nat,
    closed: bool,
    producers: seq<Producer>,
    consumers: seq<Consumer>,
    closers: seq<Closer>,
    processed: nat,
    pushed: seq<Item>,
    popped: seq<Item>)

  datatype Step =
    | PushTurn(p: nat, wake: nat)   // a producer holds the lock inside `push`
    | ProducerEnds(p: nat)          // its loop is over
    | PopTurn(c: nat, wake: nat)    // a consumer holds the lock inside `pop`
    | CountItem(c: nat)             // `++processed`
    | SetClosed(k: nat)             // the locked block of `close`
    | BroadcastNotEmpty(k: nat)
    | BroadcastNotFull(k: nat)
    | SpuriousProducer(p: nat)
    | SpuriousConsumer(c: nat)

  predicate AnyProducerAsleep(ps: seq<Producer>) {
    exists p | 0 <= p < |ps| :: ps[p].pc.AsleepNotFull?
  }

  predicate AnyConsumerAsleep(cs: seq<Consumer>) {
    exists c | 0 <= c < |cs| :: cs[c].AsleepNotEmpty?
  }

  predicate WantsLock(p: Producer) {
    p.todo != [] && (p.pc.Ready? || p.pc.NotifiedNotFull?)
  }

  predicate Finished(p: Producer) { p.pc.Done? || p.pc.Stopped? }

  predicate Enabled(s: State, step: Step) {
    match step
    case PushTurn(p, wake) =>
      && p < |s.producers| && WantsLock(s.producers[p])
      && (AnyConsumerAsleep(s.consumers) ==> wake < |s.consumers| && s.consumers[wake].AsleepNotEmpty?)
    case ProducerEnds(p) => p < |s.producers| && s.producers[p] == Producer(Ready, [])
    case PopTurn(c, wake) =>
      && c < |s.consumers| && (s.consumers[c].Polling? || s.consumers[c].NotifiedNotEmpty?)
      && (AnyProducerAsleep(s.producers) ==> wake < |s.producers| && s.producers[wake].pc.AsleepNotFull?)
    case CountItem(c) => c < |s.consumers| && s.consumers[c].Handling?
    case SetClosed(k) => k < |s.closers| && s.closers[k].BeforeClose?
    case BroadcastNotEmpty(k) => k < |s.closers| && s.closers[k].OwesNotEmpty?
    case BroadcastNotFull(k) => k < |s.closers| && s.closers[k].OwesNotFull?
    case SpuriousProducer(p) => p < |s.producers| && s.producers[p].pc.AsleepNotFull?
    case SpuriousConsumer(c) => c < |s.consumers| && s.consumers[c].AsleepNotEmpty?
  }

  function NotifyConsumer(cs: seq<Consumer>, wake: nat): seq<Consumer>
    requires AnyConsumerAsleep(cs) ==> wake < |cs|
  {
    if AnyConsumerAsleep(cs) then cs[wake := NotifiedNotEmpty] else cs
  }

  function NotifyProducer(ps: seq<Producer>, wake: nat): seq<Producer>
    requires AnyProducerAsleep(ps) ==> wake < |ps|
  {
    if AnyProducerAsleep(ps) then ps[wake := ps[wake].(pc := NotifiedNotFull)] else ps
  }

  /** One pass through `push` under the lock: sleep, give up, or enqueue and notify a consumer. */
  function Pushed(s: State, p: nat, wake: nat): State
    requires Enabled(s, PushTurn(p, wake))
  {
    var me := s.producers[p];
    if !s.closed && |s.q| >= s.capacity then
      s.(producers := s.producers[p := me.(pc := AsleepNotFull)])
    else if s.closed then
      s.(producers := s.producers[p := me.(pc := Stopped)])
    else
      var item := Item(p, me.todo[0]);
      s.(q := s.q + [item], pushed := s.pushed + [item],
         producers := s.producers[p := Producer(Ready, me.todo[1..])],
         consumers := NotifyConsumer(s.consumers, wake))
  }

  /** One pass through `pop` under the lock: sleep, finish, or dequeue and notify a producer. */
  function Popped(s: State, c: nat, wake: nat): State
    requires Enabled(s, PopTurn(c, wake))
  {
    if !s.closed && s.q == [] then
      s.(consumers := s.consumers[c := AsleepNotEmpty])
    else if s.q == [] then
      s.(consumers := s.consumers[c := Drained])
    else
      s.(q := s.q[1..], popped := s.popped + [s.q[0]],
         consumers := s.consumers[c := Handling(s.q[0])],
         producers := NotifyProducer(s.producers, wake))
  }

  function WakeConsumers(cs: seq<Consumer>): seq<Consumer> {
    seq(|cs|, i requires 0 <= i < |cs| => if cs[i].AsleepNotEmpty? then NotifiedNotEmpty else cs[i])
  }

  function WakeProducers(ps: seq<Producer>): seq<Producer> {
    seq(|ps|, i requires 0 <= i < |ps| => if ps[i].pc.AsleepNotFull? then ps[i].(pc := NotifiedNotFull) else ps[i])
  }

  function Apply(s: State, step: Step): State
    requires Enabled(s, step)
  {
    match step
    case PushTurn(p, wake) => Pushed(s, p, wake)
    case ProducerEnds(p) => s.(producers := s.producers[p := Producer(Done, [])])
    case PopTurn(c, wake) => Popped(s, c, wake)
    case CountItem(c) => s.(consumers := s.consumers[c := Polling], processed := s.processed + 1)
    case SetClosed(k) => s.(closed := true, closers := s.closers[k := OwesNotEmpty])
    case BroadcastNotEmpty(k) =>
      s.(consumers := WakeConsumers(s.consumers), closers := s.closers[k := OwesNotFull])
    case BroadcastNotFull(k) =>
      s.(producers := WakeProducers(s.producers), closers := s.closers[k := AfterClose])
    case SpuriousProducer(p) =>
      s.(producers := s.producers[p := s.producers[p].(pc := NotifiedNotFull)])
    case SpuriousConsumer(c) => s.(consumers := s.consumers[c := NotifiedNotEmpty])
  }

  /** `work[p]` is the list of request ids producer `p` will push. */
  function Init(capacity: nat, work: seq<seq<int>>, consumers: nat, closers: nat): State {
    State([], capacity, false,
          seq(|work|, p requires 0 <= p < |work| => Producer(Ready, work[p])),
          seq(consumers, _ => Polling), seq(closers, _ => BeforeClose), 0, [], [])
  }

  predicate Executable(s: State, steps: seq<Step>)
    decreases |steps|
  {
    steps == [] || (Enabled(s, steps[0]) && Executable(Apply(s, steps[0]), steps[1..]))
  }

  function Run(s: State, steps: seq<Step>): State
    requires Executable(s, steps)
    decreases |steps|
  {
    if steps == [] then s else Run(Apply(s, steps[0]), steps[1..])
  }

  /** A run can be continued by exactly the steps enabled at its end. */
  lemma {:induction false} RunExtends(s: State, steps: seq<Step>, step: Step)
    requires Executable(s, steps)
    ensures Executable(s, steps + [step]) <==> Enabled(Run(s, steps), step)
    ensures Enabled(Run(s, steps), step) ==> Run(s, steps + [step]) == Apply(Run(s, steps), step)
    decreases |steps|
  {
    if steps != [] {
      RunExtends(Apply(s, steps[0]), steps[1..], step);
      assert (steps + [step])[1..] == steps[1..] + [step];
    }
  }

  /** The scheduler and the callers are free: a producer with work and a consumer may take the lock whenever they
      do not sleep, a notification may wake any sleeper, a sleeper may wake by itself, and `close` may be called. */
  lemma SchedulerIsFree(s: State)
    ensures forall p: nat, c: nat | p < |s.producers| && s.producers[p].pc in {Ready, NotifiedNotFull}
                                    && s.producers[p].todo != [] && c < |s.consumers|
                                    && s.consumers[c] == AsleepNotEmpty :: Enabled(s, PushTurn(p, c))
    ensures forall c: nat, p: nat | c < |s.consumers| && s.consumers[c] in {Polling, NotifiedNotEmpty}
                                    && p < |s.producers| && s.producers[p].pc == AsleepNotFull ::
              Enabled(s, PopTurn(c, p))
    ensures forall p: nat | p < |s.producers| && s.producers[p].pc == AsleepNotFull :: Enabled(s, SpuriousProducer(p))
    ensures forall c: nat | c < |s.consumers| && s.consumers[c] == AsleepNotEmpty :: Enabled(s, SpuriousConsumer(c))
    ensures forall k: nat | k < |s.closers| && s.closers[k] == BeforeClose :: Enabled(s, SetClosed(k))
  {
  }

  // ---------- One FIFO ----------

  /** The request ids of one producer, in order. */
  function Project(items: seq<Item>, p: nat): seq<int> {
    if items == [] then []
    else
      var last := items[|items| - 1];
      Project(items[..|items| - 1], p) + if last.source == p then [last.requestId] else []
  }

  function IsHandling(c: Consumer): int { if c.Handling? then 1 else 0 }

  ghost predicate OrderInv(s: State, work: seq<seq<int>>) {
    && s.pushed == s.popped + s.q
    && |s.q| <= s.capacity
    && |s.producers| == |work|
    && (forall p: nat | p < |work| :: Project(s.pushed, p) + s.producers[p].todo == work[p])
    && (forall p | 0 <= p < |s.producers| && s.producers[p].pc.Stopped? :: s.closed)
    && (forall p | 0 <= p < |s.producers| && s.producers[p].todo == [] ::
          s.producers[p].pc.Ready? || s.producers[p].pc.Done?)
    && (forall p | 0 <= p < |s.producers| && s.producers[p].pc.Done? :: s.producers[p].todo == [])
  }

  function TodoLength(p: Producer): int { |p.todo| }

  function Length(ids: seq<int>): int { |ids| }

  ghost predicate CountInv(s: State, work: seq<seq<int>>) {
    && |s.pushed| + Sum(s.producers, TodoLength) == Sum(work, Length)
    && s.processed + Sum(s.consumers, IsHandling) == |s.popped|
    && (forall c | 0 <= c < |s.consumers| && s.consumers[c].Drained? :: s.closed && s.q == [])
  }

  lemma ProjectSnoc(items: seq<Item>, item: Item, p: nat)
    ensures Project(items + [item], p) == Project(items, p) + if item.source == p then [item.requestId] else []
  {
    assert (items + [item])[..|items|] == items;
  }

  lemma PushKeepsOrder(s: State, p: nat, wake: nat, work: seq<seq<int>>)
    requires OrderInv(s, work) && Enabled(s, PushTurn(p, wake)) && !s.closed && |s.q| < s.capacity
    ensures OrderInv(Pushed(s, p, wake), work)
  {
    var item, t := Item(p, s.producers[p].todo[0]), Pushed(s, p, wake);
    Regroup(s.popped, s.q, [item]);
    forall i: nat | i < |work| ensures Project(t.pushed, i) + t.producers[i].todo == work[i] {
      ProjectSnoc(s.pushed, item, i);
      assert Project(s.pushed, i) + s.producers[i].todo == work[i];
      if i == p {
        assert s.producers[p].todo == [item.requestId] + t.producers[p].todo;
        Regroup(Project(s.pushed, i), [item.requestId], t.producers[i].todo);
      }
    }
  }

  lemma PopKeepsOrder(s: State, c: nat, wake: nat, work: seq<seq<int>>)
    requires OrderInv(s, work) && Enabled(s, PopTurn(c, wake))
    ensures OrderInv(Popped(s, c, wake), work)
  {
    if s.q != [] {
      assert s.q == [s.q[0]] + s.q[1..];
      Regroup(s.popped, [s.q[0]], s.q[1..]);
    }
  }

  lemma OrderInvStep(s: State, step: Step, work: seq<seq<int>>)
    requires OrderInv(s, work) && Enabled(s, step)
    ensures OrderInv(Apply(s, step), work)
  {
    if step.PushTurn? && !s.closed && |s.q| < s.capacity {
      PushKeepsOrder(s, step.p, step.wake, work);
    } else if step.PopTurn? {
      PopKeepsOrder(s, step.c, step.wake, work);
    }
  }

  lemma PushCounts(s: State, p: nat, wake: nat, work: seq<seq<int>>)
    requires CountInv(s, work) && Enabled(s, PushTurn(p, wake))
    ensures CountInv(Pushed(s, p, wake), work)
  {
    SumUpdate(s.producers, p, Pushed(s, p, wake).producers[p], TodoLength);
    if AnyConsumerAsleep(s.consumers) {
      SumUpdate(s.consumers, wake, NotifiedNotEmpty, IsHandling);
    }
  }

  lemma PopCounts(s: State, c: nat, wake: nat, work: seq<seq<int>>)
    requires CountInv(s, work) && Enabled(s, PopTurn(c, wake))
    ensures CountInv(Popped(s, c, wake), work)
  {
    SumUpdate(s.consumers, c, Popped(s, c, wake).consumers[c], IsHandling);
    if AnyProducerAsleep(s.producers) {
      SumUpdate(s.producers, wake, s.producers[wake].(pc := NotifiedNotFull), TodoLength);
    }
  }

  lemma CountInvStep(s: State, step: Step, work: seq<seq<int>>)
    requires CountInv(s, work) && Enabled(s, step)
    ensures CountInv(Apply(s, step), work)
  {
    var t := Apply(s, step);
    match step
    case PushTurn(p, wake) => PushCounts(s, p, wake, work);
    case ProducerEnds(p) => SumUpdate(s.producers, p, t.producers[p], TodoLength);
    case PopTurn(c, wake) => PopCounts(s, c, wake, work);
    case CountItem(c) => SumUpdate(s.consumers, c, Polling, IsHandling);
    case SpuriousProducer(p) => SumUpdate(s.producers, p, t.producers[p], TodoLength);
    case SpuriousConsumer(c) => SumUpdate(s.consumers, c, NotifiedNotEmpty, IsHandling);
    case BroadcastNotEmpty(_) =>
      SumMonotone(s.consumers, t.consumers, IsHandling, IsHandling);
      SumMonotone(t.consumers, s.consumers, IsHandling, IsHandling);
    case BroadcastNotFull(_) =>
      SumMonotone(s.producers, t.producers, TodoLength, TodoLength);
      SumMonotone(t.producers, s.producers, TodoLength, TodoLength);
    case SetClosed(_) =>
  }

  // ---------- Wakeups ----------

  function NotifiedC(c: Consumer): int { if c.NotifiedNotEmpty? then 1 else 0 }

  function NotifiedP(p: Producer): int { if p.pc.NotifiedNotFull? then 1 else 0 }

  ghost predicate SomeCloser(s: State, closer: Closer) {
    exists k | 0 <= k < |s.closers| :: s.closers[k] == closer
  }

  ghost predicate WakeInv(s: State) {
    && (AnyConsumerAsleep(s.consumers) && !s.closed ==> |s.q| <= Sum(s.consumers, NotifiedC))
    && (AnyProducerAsleep(s.producers) && !s.closed ==> s.capacity - |s.q| <= Sum(s.producers, NotifiedP))
    && (AnyConsumerAsleep(s.consumers) && s.closed ==> SomeCloser(s, OwesNotEmpty))
    && (AnyProducerAsleep(s.producers) && s.closed ==> SomeCloser(s, OwesNotEmpty) || SomeCloser(s, OwesNotFull))
    && (forall k | 0 <= k < |s.closers| && !s.closers[k].BeforeClose? :: s.closed)
  }

  lemma PushWakeInv(s: State, p: nat, wake: nat)
    requires WakeInv(s) && Enabled(s, PushTurn(p, wake))
    ensures WakeInv(Pushed(s, p, wake))
  {
    var t := Pushed(s, p, wake);
    SumUpdate(s.producers, p, t.producers[p], NotifiedP);
    SumLower(t.producers, NotifiedP, 0);
    if AnyConsumerAsleep(s.consumers) {
      SumUpdate(s.consumers, wake, NotifiedNotEmpty, NotifiedC);
    }
  }

  lemma PopWakeInv(s: State, c: nat, wake: nat)
    requires WakeInv(s) && Enabled(s, PopTurn(c, wake))
    ensures WakeInv(Popped(s, c, wake))
  {
    var t := Popped(s, c, wake);
    SumUpdate(s.consumers, c, t.consumers[c], NotifiedC);
    SumLower(t.consumers, NotifiedC, 0);
    if AnyProducerAsleep(s.producers) {
      SumUpdate(s.producers, wake, s.producers[wake].(pc := NotifiedNotFull), NotifiedP);
    }
  }

  lemma WakeInvStep(s: State, step: Step)
    requires WakeInv(s) && Enabled(s, step)
    ensures WakeInv(Apply(s, step))
  {
    var t := Apply(s, step);
    match step
    case PushTurn(p, wake) => PushWakeInv(s, p, wake);
    case ProducerEnds(p) => SumUpdate(s.producers, p, t.producers[p], NotifiedP);
    case PopTurn(c, wake) => PopWakeInv(s, c, wake);
    case CountItem(c) => SumUpdate(s.consumers, c, Polling, NotifiedC);
    case SpuriousProducer(p) => SumUpdate(s.producers, p, t.producers[p], NotifiedP);
    case SpuriousConsumer(c) => SumUpdate(s.consumers, c, NotifiedNotEmpty, NotifiedC);
    case SetClosed(k) => assert t.closers[k] == OwesNotEmpty;
    case BroadcastNotEmpty(k) => assert t.closers[k] == OwesNotFull;
    case BroadcastNotFull(k) =>
      if SomeCloser(s, OwesNotEmpty) {
        var j :| 0 <= j < |s.closers| && s.closers[j] == OwesNotEmpty;
        assert t.closers[j] == OwesNotEmpty;
      }
  }

  // ---------- Invariants over all runs ----------

  /** A state some run of a queue of positive capacity reaches, whenever and however often it is closed. */
  ghost predicate Reachable(s: State, work: seq<seq<int>>) {
    exists capacity: nat, consumers: nat, closers: nat, steps: seq<Step> ::
      && capacity > 0
      && Executable(Init(capacity, work, consumers, closers), steps)
      && s == Run(Init(capacity, work, consumers, closers), steps)
  }

  ghost predicate Inv(s: State, work: seq<seq<int>>) {
    s.capacity > 0 && OrderInv(s, work) && CountInv(s, work) && WakeInv(s)
  }

  lemma InvStep(s: State, step: Step, work: seq<seq<int>>)
    requires Inv(s, work) && Enabled(s, step)
    ensures Inv(Apply(s, step), work)
  {
    OrderInvStep(s, step, work);
    CountInvStep(s, step, work);
    WakeInvStep(s, step);
  }

  lemma InitInv(capacity: nat, work: seq<seq<int>>, consumers: nat, closers: nat)
    requires capacity > 0
    ensures Inv(Init(capacity, work, consumers, closers), work)
  {
    var s := Init(capacity, work, consumers, closers);
    SumUpper(s.consumers, IsHandling, 0);
    SumLower(s.consumers, IsHandling, 0);
    SumMonotone(s.producers, work, TodoLength, Length);
    SumMonotone(work, s.producers, Length, TodoLength);
    forall p: nat | p < |work| ensures Project(s.pushed, p) + s.producers[p].todo == work[p] {
      assert [] + work[p] == work[p];
    }
  }

  lemma {:induction false} RunInv(s: State, steps: seq<Step>, work: seq<seq<int>>)
    requires Inv(s, work) && Executable(s, steps)
    ensures Inv(Run(s, steps), work)
    decreases |steps|
  {
    if steps != [] {
      InvStep(s, steps[0], work);
      RunInv(Apply(s, steps[0]), steps[1..], work);
    }
  }

  lemma ReachableInv(s: State, work: seq<seq<int>>)
    requires Reachable(s, work)
    ensures Inv(s, work)
  {
    var capacity: nat, consumers: nat, closers: nat, steps: seq<Step> :|
      && capacity > 0
      && Executable(Init(capacity, work, consumers, closers), steps)
      && s == Run(Init(capacity, work, consumers, closers), steps);
    InitInv(capacity, work, consumers, closers);
    RunInv(Init(capacity, work, consumers, closers), steps, work);
  }

  lemma RunReaches(capacity: nat, work: seq<seq<int>>, consumers: nat, closers: nat, steps: seq<Step>)
    requires capacity > 0 && Executable(Init(capacity, work, consumers, closers), steps)
    ensures Reachable(Run(Init(capacity, work, consumers, closers), steps), work)
    ensures Run(Init(capacity, work, consumers, closers), steps).capacity == capacity
  {
    RunKeepsCapacity(Init(capacity, work, consumers, closers), steps);
  }

  lemma {:induction false} RunKeepsCapacity(s: State, steps: seq<Step>)
    requires Executable(s, steps)
    ensures Run(s, steps).capacity == s.capacity
    decreases |steps|
  {
    if steps != [] {
      RunKeepsCapacity(Apply(s, steps[0]), steps[1..]);
    }
  }

  /** Main result: a queue built for `capacity` items is one FIFO that never holds more. What was pushed is what
      was popped followed by what is stored, each producer's ids appear in its own order, and a push fails only on
      a closed queue. */
  lemma LinearisesToFifo(capacity: nat, work: seq<seq<int>>, consumers: nat, closers: nat, steps: seq<Step>)
    requires capacity > 0 && Executable(Init(capacity, work, consumers, closers), steps)
    ensures var s := Run(Init(capacity, work, consumers, closers), steps);
            && s.pushed == s.popped + s.q && |s.q| <= capacity
            && (forall p: nat | p < |work| ::
                  p < |s.producers| && Project(s.pushed, p) + s.producers[p].todo == work[p])
            && (forall p | 0 <= p < |s.producers| && s.producers[p].pc == Stopped :: s.closed)
  {
    RunReaches(capacity, work, consumers, closers, steps);
    ReachableInv(Run(Init(capacity, work, consumers, closers), steps), work);
  }

  /** What becomes of a push: on a closed queue it fails, on a full one it blocks, and otherwise the item goes to
      the end of the queue. */
  lemma PushBlocksIffFull(capacity: nat, work: seq<seq<int>>, consumers: nat, closers: nat, steps: seq<Step>,
                          p: nat, wake: nat)
    requires capacity > 0 && Executable(Init(capacity, work, consumers, closers), steps + [PushTurn(p, wake)])
    requires Executable(Init(capacity, work, consumers, closers), steps)
    ensures var s := Run(Init(capacity, work, consumers, closers), steps);
            var t := Run(Init(capacity, work, consumers, closers), steps + [PushTurn(p, wake)]);
            && p < |s.producers| == |t.producers| && s.producers[p].todo != []
            && (t.producers[p].pc == Stopped <==> s.closed)
            && (t.producers[p].pc == AsleepNotFull <==> !s.closed && |s.q| >= capacity)
            && (t.producers[p].pc == Ready <==> !s.closed && |s.q| < capacity)
            && t.q == if t.producers[p].pc == Ready then s.q + [Item(p, s.producers[p].todo[0])] else s.q
  {
    RunReaches(capacity, work, consumers, closers, steps);
    RunExtends(Init(capacity, work, consumers, closers), steps, PushTurn(p, wake));
  }

  /** Main result: no lost wakeup on either condition variable. */
  lemma NoLostWakeup(s: State, work: seq<seq<int>>)
    requires Reachable(s, work) && !s.closed
    ensures (exists c | 0 <= c < |s.consumers| :: s.consumers[c] == AsleepNotEmpty) ==>
              |s.q| <= Sum(s.consumers, NotifiedC)
    ensures (exists p | 0 <= p < |s.producers| :: s.producers[p].pc == AsleepNotFull) ==>
              s.capacity - |s.q| <= Sum(s.producers, NotifiedP)
  {
    ReachableInv(s, work);
  }

  // ---------- Deadlock freedom ----------

  /** Steps of threads already inside the queue: not a call of `close` and not a spurious wakeup. */
  predicate OwnStep(step: Step) {
    !step.SetClosed? && !step.SpuriousProducer? && !step.SpuriousConsumer?
  }

  ghost predicate CanProgress(s: State) {
    exists step: Step :: OwnStep(step) && Enabled(s, step)
  }

  /** A producer that is neither asleep nor finished has a step, unless it was woken with nothing to push. */
  lemma ProducerProgresses(s: State, p: nat)
    requires p < |s.producers| && (WantsLock(s.producers[p]) || s.producers[p] == Producer(Ready, []))
    ensures CanProgress(s)
  {
    if s.producers[p] == Producer(Ready, []) {
      assert Enabled(s, ProducerEnds(p));
    } else if AnyConsumerAsleep(s.consumers) {
      var c :| 0 <= c < |s.consumers| && s.consumers[c].AsleepNotEmpty?;
      assert Enabled(s, PushTurn(p, c));
    } else {
      assert Enabled(s, PushTurn(p, 0));
    }
  }

  lemma ConsumerProgresses(s: State, c: nat)
    requires c < |s.consumers| && !s.consumers[c].AsleepNotEmpty? && !s.consumers[c].Drained?
    ensures CanProgress(s)
  {
    if s.consumers[c].Handling? {
      assert Enabled(s, CountItem(c));
    } else if AnyProducerAsleep(s.producers) {
      var p :| 0 <= p < |s.producers| && s.producers[p].pc.AsleepNotFull?;
      assert Enabled(s, PopTurn(c, p));
    } else {
      assert Enabled(s, PopTurn(c, 0));
    }
  }

  lemma CloserProgresses(s: State)
    requires SomeCloser(s, OwesNotEmpty) || SomeCloser(s, OwesNotFull)
    ensures CanProgress(s)
  {
    if k: nat :| k < |s.closers| && s.closers[k] == OwesNotEmpty {
      assert Enabled(s, BroadcastNotEmpty(k));
    } else {
      var k: nat :| k < |s.closers| && s.closers[k] == OwesNotFull;
      assert Enabled(s, BroadcastNotFull(k));
    }
  }

  /** Main result: with at least one consumer the queue never deadlocks. When no thread inside it can
      move, every producer has finished, nothing is stored, and the consumers are all waiting for a
      close that has not come or, if it has, are all done. */
  lemma NoDeadlock(s: State, work: seq<seq<int>>)
    requires Reachable(s, work) && |s.consumers| > 0
    requires forall step: Step | !step.SetClosed? && !step.SpuriousProducer? && !step.SpuriousConsumer? ::
               !Enabled(s, step)
    ensures s.q == []
    ensures forall p | 0 <= p < |s.producers| :: s.producers[p].pc in {Done, Stopped}
    ensures forall c | 0 <= c < |s.consumers| ::
              if s.closed then s.consumers[c].Drained? else s.consumers[c].AsleepNotEmpty?
  {
    ReachableInv(s, work);
    StuckIsIdle(s, work);
  }

  lemma NoBroadcastOwed(s: State)
    requires !CanProgress(s)
    ensures !SomeCloser(s, OwesNotEmpty) && !SomeCloser(s, OwesNotFull)
  {
    if SomeCloser(s, OwesNotEmpty) || SomeCloser(s, OwesNotFull) {
      CloserProgresses(s);
    }
  }

  lemma StuckIsIdle(s: State, work: seq<seq<int>>)
    requires Inv(s, work) && |s.consumers| > 0 && !CanProgress(s)
    ensures s.q == []
    ensures forall p | 0 <= p < |s.producers| :: Finished(s.producers[p])
    ensures forall c | 0 <= c < |s.consumers| ::
              if s.closed then s.consumers[c].Drained? else s.consumers[c].AsleepNotEmpty?
  {
    NoBroadcastOwed(s);
    forall c: nat | c < |s.consumers| ensures s.consumers[c].AsleepNotEmpty? || s.consumers[c].Drained? {
      if !s.consumers[c].AsleepNotEmpty? && !s.consumers[c].Drained? {
        ConsumerProgresses(s, c);
      }
    }
    forall p: nat | p < |s.producers| ensures s.producers[p].pc.AsleepNotFull? || Finished(s.producers[p]) {
      if WantsLock(s.producers[p]) || s.producers[p] == Producer(Ready, []) {
        ProducerProgresses(s, p);
      }
    }
    assert s.consumers[0].AsleepNotEmpty? || s.consumers[0].Drained?;
    SumUpper(s.consumers, NotifiedC, 0);
    SumUpper(s.producers, NotifiedP, 0);
  }

  /** After `close` no step puts a thread to sleep. */
  lemma ClosedNobodySleeps(s: State, step: Step)
    requires s.closed && Enabled(s, step)
    ensures Apply(s, step).closed
    ensures AnyConsumerAsleep(Apply(s, step).consumers) ==> AnyConsumerAsleep(s.consumers)
    ensures AnyProducerAsleep(Apply(s, step).producers) ==> AnyProducerAsleep(s.producers)
  {
    var t := Apply(s, step);
    assert forall c | 0 <= c < |t.consumers| && t.consumers[c].AsleepNotEmpty? :: s.consumers[c].AsleepNotEmpty?;
    assert forall p | 0 <= p < |t.producers| && t.producers[p].pc.AsleepNotFull? :: s.producers[p].pc.AsleepNotFull?;
  }

  /** Every producer and every consumer sleeps, and there are both. */
  predicate AllAsleep(s: State) {
    && s.producers != [] && s.consumers != []
    && (forall p | 0 <= p < |s.producers| :: s.producers[p].pc.AsleepNotFull?)
    && (forall c | 0 <= c < |s.consumers| :: s.consumers[c].AsleepNotEmpty?)
  }

  /** While the queue is open somebody is awake, by both wakeup invariants and a positive capacity. */
  lemma OpenHasSomebodyAwake(s: State, work: seq<seq<int>>)
    requires Inv(s, work) && !s.closed
    ensures !AllAsleep(s)
  {
    if AllAsleep(s) {
      SumUpper(s.consumers, NotifiedC, 0);
      SumUpper(s.producers, NotifiedP, 0);
    }
  }

  lemma StillSomebodyAwake(s: State, step: Step)
    requires s.closed && Enabled(s, step) && !AllAsleep(s)
    ensures !AllAsleep(Apply(s, step))
  {
    var t := Apply(s, step);
    assert forall c | 0 <= c < |t.consumers| && t.consumers[c].AsleepNotEmpty? :: s.consumers[c].AsleepNotEmpty?;
    assert forall p | 0 <= p < |t.producers| && t.producers[p].pc.AsleepNotFull? :: s.producers[p].pc.AsleepNotFull?;
  }

  lemma {:induction false} RunNeverAllAsleep(s: State, steps: seq<Step>, work: seq<seq<int>>)
    requires Inv(s, work) && Executable(s, steps) && !AllAsleep(s)
    ensures !AllAsleep(Run(s, steps))
    decreases |steps|
  {
    if steps != [] {
      var t := Apply(s, steps[0]);
      InvStep(s, steps[0], work);
      if s.closed {
        StillSomebodyAwake(s, steps[0]);
      } else if !t.closed {
        OpenHasSomebodyAwake(t, work);
      }
      RunNeverAllAsleep(t, steps[1..], work);
    }
  }

  /** Main result: producers and consumers are never all asleep together, neither while the queue is open nor
      after `close` while its broadcasts are still owed. */
  lemma NeverAllAsleep(s: State, work: seq<seq<int>>)
    requires Reachable(s, work) && s.producers != [] && s.consumers != []
    ensures || (exists p | 0 <= p < |s.producers| :: s.producers[p].pc != AsleepNotFull)
            || (exists c | 0 <= c < |s.consumers| :: s.consumers[c] != AsleepNotEmpty)
  {
    var capacity: nat, consumers: nat, closers: nat, steps: seq<Step> :|
      && capacity > 0
      && Executable(Init(capacity, work, consumers, closers), steps)
      && s == Run(Init(capacity, work, consumers, closers), steps);
    InitInv(capacity, work, consumers, closers);
    OpenHasSomebodyAwake(Init(capacity, work, consumers, closers), work);
    RunNeverAllAsleep(Init(capacity, work, consumers, closers), steps, work);
  }

  /** After `close` a sleeping thread always has its broadcast still to come, and the broadcast wakes it. */
  lemma CloseWakesEveryone(s: State, work: seq<seq<int>>)
    requires Reachable(s, work) && s.closed
    ensures AnyConsumerAsleep(s.consumers) ==>
              exists k: nat :: Enabled(s, BroadcastNotEmpty(k))
                               && !AnyConsumerAsleep(Apply(s, BroadcastNotEmpty(k)).consumers)
    ensures AnyProducerAsleep(s.producers) ==>
              || SomeCloser(s, OwesNotEmpty)
              || exists k: nat :: Enabled(s, BroadcastNotFull(k))
                                  && !AnyProducerAsleep(Apply(s, BroadcastNotFull(k)).producers)
  {
    ReachableInv(s, work);
    if AnyConsumerAsleep(s.consumers) {
      var k: nat :| k < |s.closers| && s.closers[k] == OwesNotEmpty;
      assert Enabled(s, BroadcastNotEmpty(k));
    }
    if AnyProducerAsleep(s.producers) {
      if !SomeCloser(s, OwesNotEmpty) {
        var k: nat :| k < |s.closers| && s.closers[k] == OwesNotFull;
        assert Enabled(s, BroadcastNotFull(k));
      }
    }
  }

  // ---------- Termination ----------

  function ProducerWeight(p: Producer): int {
    if Finished(p) then 0 else 5 * |p.todo| + if p.pc.AsleepNotFull? then 0 else 1
  }

  function ConsumerWeight(c: Consumer): int {
    match c
    case Handling(_) => 2
    case Polling => 1
    case NotifiedNotEmpty => 1
    case _ => 0
  }

  function CloserWeight(n: nat): Closer -> int {
    (k: Closer) =>
      match k
      case BeforeClose => 2 * n + 3
      case OwesNotEmpty => 2 * n + 2
      case OwesNotFull => n + 1
      case AfterClose => 0
  }

  function AllThreads(s: State): nat { |s.producers| + |s.consumers| }

  function Potential(s: State): int {
    Sum(s.producers, ProducerWeight) + Sum(s.consumers, ConsumerWeight) + 3 * |s.q|
    + Sum(s.closers, CloserWeight(AllThreads(s)))
  }

  lemma WakeConsumersCost(cs: seq<Consumer>)
    ensures Sum(WakeConsumers(cs), ConsumerWeight) <= Sum(cs, ConsumerWeight) + |cs|
  {
    if cs != [] {
      WakeConsumersCost(cs[1..]);
      assert WakeConsumers(cs)[1..] == WakeConsumers(cs[1..]);
    }
  }

  lemma WakeProducersCost(ps: seq<Producer>)
    ensures Sum(WakeProducers(ps), ProducerWeight) <= Sum(ps, ProducerWeight) + |ps|
  {
    if ps != [] {
      WakeProducersCost(ps[1..]);
      assert WakeProducers(ps)[1..] == WakeProducers(ps[1..]);
    }
  }

  lemma PushPotential(s: State, p: nat, wake: nat)
    requires Enabled(s, PushTurn(p, wake))
    ensures Potential(Pushed(s, p, wake)) < Potential(s)
  {
    SumUpdate(s.producers, p, Pushed(s, p, wake).producers[p], ProducerWeight);
    if AnyConsumerAsleep(s.consumers) {
      SumUpdate(s.consumers, wake, NotifiedNotEmpty, ConsumerWeight);
    }
  }

  lemma PopPotential(s: State, c: nat, wake: nat)
    requires Enabled(s, PopTurn(c, wake))
    ensures Potential(Popped(s, c, wake)) < Potential(s)
  {
    SumUpdate(s.consumers, c, Popped(s, c, wake).consumers[c], ConsumerWeight);
    if AnyProducerAsleep(s.producers) {
      SumUpdate(s.producers, wake, s.producers[wake].(pc := NotifiedNotFull), ProducerWeight);
    }
  }

  lemma BroadcastNotEmptyPotential(s: State, k: nat)
    requires Enabled(s, BroadcastNotEmpty(k))
    ensures Potential(Apply(s, BroadcastNotEmpty(k))) < Potential(s)
  {
    SumUpdate(s.closers, k, OwesNotFull, CloserWeight(AllThreads(s)));
    WakeConsumersCost(s.consumers);
  }

  lemma BroadcastNotFullPotential(s: State, k: nat)
    requires Enabled(s, BroadcastNotFull(k))
    ensures Potential(Apply(s, BroadcastNotFull(k))) < Potential(s)
  {
    SumUpdate(s.closers, k, AfterClose, CloserWeight(AllThreads(s)));
    WakeProducersCost(s.producers);
  }

  /** A spurious wakeup adds 1 to the potential; every other step takes at least 1 from it. */
  lemma StepPotential(s: State, step: Step)
    requires Enabled(s, step)
    ensures step.SpuriousProducer? || step.SpuriousConsumer? ==> Potential(Apply(s, step)) == Potential(s) + 1
    ensures !step.SpuriousProducer? && !step.SpuriousConsumer? ==> Potential(Apply(s, step)) < Potential(s)
  {
    match step
    case PushTurn(p, wake) => PushPotential(s, p, wake);
    case PopTurn(c, wake) => PopPotential(s, c, wake);
    case ProducerEnds(p) => SumUpdate(s.producers, p, Producer(Done, []), ProducerWeight);
    case SpuriousProducer(p) =>
      SumUpdate(s.producers, p, s.producers[p].(pc := NotifiedNotFull), ProducerWeight);
    case CountItem(c) => SumUpdate(s.consumers, c, Polling, ConsumerWeight);
    case SpuriousConsumer(c) => SumUpdate(s.consumers, c, NotifiedNotEmpty, ConsumerWeight);
    case SetClosed(k) => SumUpdate(s.closers, k, OwesNotEmpty, CloserWeight(AllThreads(s)));
    case BroadcastNotEmpty(k) => BroadcastNotEmptyPotential(s, k);
    case BroadcastNotFull(k) => BroadcastNotFullPotential(s, k);
  }

  predicate IsSpurious(step: Step) { step.SpuriousProducer? || step.SpuriousConsumer? }

  lemma {:induction false} RunIsPaid(s: State, steps: seq<Step>)
    requires Executable(s, steps)
    ensures |steps| - Count(steps, IsSpurious) + Potential(Run(s, steps)) <= Potential(s) + Count(steps, IsSpurious)
    decreases |steps|
  {
    if steps != [] {
      StepPotential(s, steps[0]);
      RunIsPaid(Apply(s, steps[0]), steps[1..]);
    }
  }

  /** Main result: a run makes at most `Potential` steps besides its spurious wakeups, and each of those
      buys at most one further step. */
  lemma RunIsBounded(s: State, steps: seq<Step>)
    requires Executable(s, steps)
    ensures |steps| <= Potential(s) + 2 * Count(steps, IsSpurious)
  {
    RunIsPaid(s, steps);
    PotentialNonNegative(Run(s, steps));
  }

  lemma {:induction false} ReadyWeights(ps: seq<Producer>, work: seq<seq<int>>)
    requires |ps| == |work| && forall p | 0 <= p < |ps| :: ps[p] == Producer(Ready, work[p])
    ensures Sum(ps, ProducerWeight) == 5 * Sum(work, Length) + |work|
  {
    if ps != [] {
      assert forall p | 0 <= p < |ps[1..]| :: ps[1..][p] == ps[p + 1] && work[1..][p] == work[p + 1];
      ReadyWeights(ps[1..], work[1..]);
    }
  }

  lemma InitPotential(capacity: nat, work: seq<seq<int>>, consumers: nat, closers: nat, closeCost: nat)
    requires closeCost == 2 * (|work| + consumers) + 3
    ensures Potential(Init(capacity, work, consumers, closers))
            <= 5 * Sum(work, Length) + |work| + consumers + closers * closeCost
  {
    var s := Init(capacity, work, consumers, closers);
    ReadyWeights(s.producers, work);
    SumUpper(s.consumers, ConsumerWeight, 1);
    SumUpper(s.closers, CloserWeight(AllThreads(s)), closeCost);
  }

  /** The bound from construction, in numbers of items and threads: five for each item, one for each thread, the
      cost of each `close`, and two for each spurious wakeup. */
  lemma RunFromStartIsBounded(capacity: nat, work: seq<seq<int>>, consumers: nat, closers: nat, steps: seq<Step>)
    requires Executable(Init(capacity, work, consumers, closers), steps)
    ensures |steps| <= 5 * Sum(work, Length) + |work| + consumers + closers * (2 * (|work| + consumers) + 3)
                       + 2 * |set i: nat | i < |steps| && (steps[i].SpuriousProducer? || steps[i].SpuriousConsumer?)|
  {
    RunIsBounded(Init(capacity, work, consumers, closers), steps);
    InitPotential(capacity, work, consumers, closers, 2 * (|work| + consumers) + 3);
    SpuriousIsCardinality(steps);
  }

  lemma SpuriousIsCardinality(steps: seq<Step>)
    ensures Count(steps, IsSpurious)
         == |set i: nat | i < |steps| && (steps[i].SpuriousProducer? || steps[i].SpuriousConsumer?)|
  {
    CountIsCardinality(steps, IsSpurious);
    assert Positions(steps, IsSpurious)
        == set i: nat | i < |steps| && (steps[i].SpuriousProducer? || steps[i].SpuriousConsumer?);
  }

  lemma PotentialNonNegative(s: State)
    ensures Potential(s) >= 0
  {
    SumLower(s.producers, ProducerWeight, 0);
    SumLower(s.consumers, ConsumerWeight, 0);
    SumLower(s.closers, CloserWeight(AllThreads(s)), 0);
  }

  // ---------- The order of `main`: join the producers, close, join the consumers ----------

  predicate AllFinished(s: State) {
    forall p | 0 <= p < |s.producers| :: Finished(s.producers[p])
  }

  /** `main` calls `close` only after it has joined every producer. */
  predicate MainOrder(s: State, steps: seq<Step>)
    requires Executable(s, steps)
    decreases |steps|
  {
    steps == [] || ((steps[0].SetClosed? ==> AllFinished(s)) && MainOrder(Apply(s, steps[0]), steps[1..]))
  }

  lemma PrefixOfRun(s: State, steps: seq<Step>, i: nat)
    requires Executable(s, steps) && 0 < i <= |steps|
    requires Executable(Apply(s, steps[0]), steps[1..][..i - 1])
    ensures Executable(s, steps[..i])
    ensures Run(s, steps[..i]) == Run(Apply(s, steps[0]), steps[1..][..i - 1])
  {
    assert steps[..i][0] == steps[0] && steps[..i][1..] == steps[1..][..i - 1];
  }

  /** Call i is no `close`, or it is made after every producer has returned. */
  ghost predicate InMainOrder(s: State, steps: seq<Step>, i: nat) {
    && i < |steps| && Executable(s, steps[..i])
    && (steps[i].SetClosed? ==>
          forall p | 0 <= p < |Run(s, steps[..i]).producers| :: Run(s, steps[..i]).producers[p].pc in {Done, Stopped})
  }

  lemma {:induction false} MainOrderIff(s: State, steps: seq<Step>)
    requires Executable(s, steps)
    ensures MainOrder(s, steps) <==> forall i: nat | i < |steps| :: InMainOrder(s, steps, i)
    decreases |steps|
  {
    if steps != [] {
      var t := Apply(s, steps[0]);
      MainOrderIff(t, steps[1..]);
      assert steps[..0] == [] && Run(s, steps[..0]) == s;
      assert AllFinished(s) <==> forall p | 0 <= p < |s.producers| :: s.producers[p].pc in {Done, Stopped};
      forall i: nat | 0 < i < |steps| ensures InMainOrder(s, steps, i) <==> InMainOrder(t, steps[1..], i - 1) {
        RunPrefix(t, steps[1..], i - 1);
        PrefixOfRun(s, steps, i);
        assert steps[1..][i - 1] == steps[i];
      }
      if MainOrder(t, steps[1..]) && (steps[0].SetClosed? ==> AllFinished(s)) {
        forall i: nat | i < |steps| ensures InMainOrder(s, steps, i) {
          if i > 0 {
            assert InMainOrder(t, steps[1..], i - 1);
          }
        }
      } else if forall i: nat | i < |steps| :: InMainOrder(s, steps, i) {
        assert InMainOrder(s, steps, 0);
        forall i: nat | i < |steps[1..]| ensures InMainOrder(t, steps[1..], i) {
          assert InMainOrder(s, steps, i + 1);
        }
      }
    }
  }

  lemma {:induction false} RunPrefix(s: State, steps: seq<Step>, i: nat)
    requires Executable(s, steps) && i <= |steps|
    ensures Executable(s, steps[..i])
    decreases |steps|
  {
    if i > 0 {
      RunPrefix(Apply(s, steps[0]), steps[1..], i - 1);
      PrefixOfRun(s, steps, i);
    }
  }

  ghost predicate MainInv(s: State) {
    s.closed ==> forall p | 0 <= p < |s.producers| :: s.producers[p].pc.Done?
  }

  lemma MainInvStep(s: State, step: Step, work: seq<seq<int>>)
    requires OrderInv(s, work) && MainInv(s) && Enabled(s, step) && (step.SetClosed? ==> AllFinished(s))
    ensures MainInv(Apply(s, step))
    ensures |Apply(s, step).consumers| == |s.consumers| && |Apply(s, step).closers| == |s.closers|
  {
  }

  lemma {:induction false} RunMainInv(s: State, steps: seq<Step>, work: seq<seq<int>>)
    requires Inv(s, work) && MainInv(s) && Executable(s, steps) && MainOrder(s, steps)
    ensures Inv(Run(s, steps), work) && MainInv(Run(s, steps))
    ensures |Run(s, steps).consumers| == |s.consumers| && |Run(s, steps).closers| == |s.closers|
    decreases |steps|
  {
    if steps != [] {
      InvStep(s, steps[0], work);
      MainInvStep(s, steps[0], work);
      RunMainInv(Apply(s, steps[0]), steps[1..], work);
    }
  }

  /** Main result: under the order of `main`, whenever the last consumer has returned, nothing is left in
      the queue, every producer's ids were popped in order, and `processed` is the number of items. */
  lemma MainProcessesEverything(capacity: nat, work: seq<seq<int>>, consumers: nat, closers: nat, steps: seq<Step>)
    requires capacity > 0 && consumers > 0
    requires Executable(Init(capacity, work, consumers, closers), steps)
    requires MainOrder(Init(capacity, work, consumers, closers), steps)
    requires var s := Run(Init(capacity, work, consumers, closers), steps);
             forall c | 0 <= c < |s.consumers| :: s.consumers[c].Drained?
    ensures var s := Run(Init(capacity, work, consumers, closers), steps);
            && s.q == [] && s.popped == s.pushed
            && s.processed == Sum(work, Length)
            && forall p: nat | p < |work| :: Project(s.popped, p) == work[p]
  {
    var s := Run(Init(capacity, work, consumers, closers), steps);
    InitInv(capacity, work, consumers, closers);
    RunMainInv(Init(capacity, work, consumers, closers), steps, work);
    assert s.consumers[0].Drained?;
    SumLower(s.consumers, IsHandling, 0);
    SumUpper(s.consumers, IsHandling, 0);
    SumLower(s.producers, TodoLength, 0);
    SumUpper(s.producers, TodoLength, 0);
    assert s.pushed == s.popped;
    forall p: nat | p < |work| ensures Project(s.popped, p) == work[p] {
      assert Project(s.pushed, p) + s.producers[p].todo == work[p];
    }
  }

  /** ... and until then `main`'s program can always move: a thread inside the queue can, or `main` may
      call `close`. */
  lemma MainNeverStuck(capacity: nat, work: seq<seq<int>>, consumers: nat, steps: seq<Step>)
    requires capacity > 0 && consumers > 0
    requires Executable(Init(capacity, work, consumers, 1), steps)
    requires MainOrder(Init(capacity, work, consumers, 1), steps)
    ensures var s := Run(Init(capacity, work, consumers, 1), steps);
            || (exists step: Step ::
                  !step.SetClosed? && !step.SpuriousProducer? && !step.SpuriousConsumer? && Enabled(s, step))
            || (Enabled(s, SetClosed(0)) && forall p | 0 <= p < |s.producers| :: s.producers[p].pc in {Done, Stopped})
            || forall c | 0 <= c < |s.consumers| :: s.consumers[c] == Drained
  {
    var s := Run(Init(capacity, work, consumers, 1), steps);
    InitInv(capacity, work, consumers, 1);
    RunMainInv(Init(capacity, work, consumers, 1), steps, work);
    if !CanProgress(s) {
      StuckIsIdle(s, work);
      NoBroadcastOwed(s);
    }
  }

  /** Main result: `main` returns, and with everything processed. A run in its order is no longer than the
      numbers of items, threads and spurious wakeups allow, and when nobody can move any more and there is no
      `close` to make, every consumer has returned, nothing is left in the queue, every producer's ids were
      popped in order, and `processed` is the number of items. */
  lemma MainReturns(capacity: nat, work: seq<seq<int>>, consumers: nat, steps: seq<Step>)
    requires capacity > 0 && consumers > 0
    requires Executable(Init(capacity, work, consumers, 1), steps)
    requires MainOrder(Init(capacity, work, consumers, 1), steps)
    ensures |steps| <= 5 * Sum(work, Length) + |work| + consumers + 2 * (|work| + consumers) + 3
                       + 2 * |set i: nat | i < |steps| && (steps[i].SpuriousProducer? || steps[i].SpuriousConsumer?)|
    ensures var s := Run(Init(capacity, work, consumers, 1), steps);
            && (forall step: Step | !step.SetClosed? && !step.SpuriousProducer? && !step.SpuriousConsumer? ::
                  !Enabled(s, step))
            && !(Enabled(s, SetClosed(0)) && forall p | 0 <= p < |s.producers| :: s.producers[p].pc in {Done, Stopped})
            ==>
              && (forall c | 0 <= c < |s.consumers| :: s.consumers[c] == Drained)
              && s.q == [] && s.processed == Sum(work, Length)
              && forall p: nat | p < |work| :: Project(s.popped, p) == work[p]
  {
    RunFromStartIsBounded(capacity, work, consumers, 1, steps);
    MainNeverStuck(capacity, work, consumers, steps);
    var s := Run(Init(capacity, work, consumers, 1), steps);
    if forall c | 0 <= c < |s.consumers| :: s.consumers[c].Drained? {
      MainProcessesEverything(capacity, work, consumers, 1, steps);
    }
  }

  // ---------- The class ----------

  /** What one turn under the lock tells the caller of `push` or `pop`. */
  datatype Turn<T> = Blocked | Returned(value: T)

  class BoundedQueue {
    var q: seq<Item>
    var capacity: nat
    var closed: bool
    var producers: seq<Producer>
    var consumers: seq<Consumer>
    var closers: seq<Closer>
    var processed: nat
    var pushed: seq<Item>
    var popped: seq<Item>

    ghost function View(): State
      reads this
    {
      State(q, capacity, closed, producers, consumers, closers, processed, pushed, popped)
    }

    constructor (capacity: nat, work: seq<seq<int>>, consumers: nat, closers: nat)
      requires capacity > 0
      ensures View() == Init(capacity, work, consumers, closers)
      ensures this.capacity == capacity && q == [] && !closed && processed == 0 && pushed == popped == []
      ensures producers == seq(|work|, p requires 0 <= p < |work| => Producer(Ready, work[p]))
      ensures this.consumers == seq(consumers, _ => Polling) && this.closers == seq(closers, _ => BeforeClose)
    {
      q, this.capacity, closed := [], capacity, false;
      producers := seq(|work|, p requires 0 <= p < |work| => Producer(Ready, work[p]));
      this.consumers, this.closers := seq(consumers, _ => Polling), seq(closers, _ => BeforeClose);
      processed, pushed, popped := 0, [], [];
    }

    /** The constructor throws `invalid_argument` for capacity zero. */
    static method Make(capacity: nat, work: seq<seq<int>>, consumers: nat, closers: nat)
      returns (queue: Option<BoundedQueue>)
      ensures queue.None? <==> capacity == 0
      ensures queue.Some? ==>
                && fresh(queue.value) && queue.value.View() == Init(capacity, work, consumers, closers)
                && queue.value.capacity == capacity && queue.value.q == [] && !queue.value.closed
    {
      if capacity == 0 {
        return None;
      }
      var made := new BoundedQueue(capacity, work, consumers, closers);
      queue := Some(made);
    }

    /** A turn of `push` under the lock; it returns false exactly on a closed queue. */
    method Push(p: nat, wake: nat) returns (turn: Turn<bool>)
      requires Enabled(View(), PushTurn(p, wake))
      modifies this`q, this`pushed, this`producers, this`consumers
      ensures View() == Apply(old(View()), PushTurn(p, wake))
      ensures turn == Returned(false) <==> closed
      ensures turn == Blocked <==> !closed && |old(q)| >= capacity
      ensures turn == Returned(true) ==>
                var me, item := old(producers[p]), Item(p, old(producers[p].todo[0]));
                && q == old(q) + [item] && pushed == old(pushed) + [item]
                && producers == old(producers)[p := Producer(Ready, me.todo[1..])]
                && consumers == if AsleepNotEmpty in old(consumers) then old(consumers)[wake := NotifiedNotEmpty]
                                else old(consumers)
      ensures turn != Returned(true) ==>
                && q == old(q) && pushed == old(pushed) && consumers == old(consumers)
                && producers == old(producers)[p := old(producers[p]).(pc := if closed then Stopped else AsleepNotFull)]
    {
      var value := producers[p].todo[0];
      if !(closed || |q| < capacity) {
        producers := producers[p := producers[p].(pc := AsleepNotFull)];
        return Blocked;
      }
      if closed {
        producers := producers[p := producers[p].(pc := Stopped)];
        return Returned(false);
      }
      q := q + [Item(p, value)];
      pushed := pushed + [Item(p, value)];
      producers := producers[p := Producer(Ready, producers[p].todo[1..])];
      if AnyConsumerAsleep(consumers) {
        consumers := consumers[wake := NotifiedNotEmpty];
      }
      turn := Returned(true);
    }

    /** A turn of `pop` under the lock; it returns `nullopt` exactly when the queue is closed and empty. */
    method Pop(c: nat, wake: nat) returns (turn: Turn<Option<Item>>)
      requires Enabled(View(), PopTurn(c, wake))
      modifies this`q, this`popped, this`producers, this`consumers
      ensures View() == Apply(old(View()), PopTurn(c, wake))
      ensures turn == Returned(None) <==> closed && old(q) == []
      ensures turn == Blocked <==> !closed && old(q) == []
      ensures old(q) != [] ==>
                && turn == Returned(Some(old(q[0]))) && old(q) == [old(q[0])] + q && popped == old(popped) + [old(q[0])]
                && consumers == old(consumers)[c := Handling(old(q[0]))]
                && (if exists p | 0 <= p < |old(producers)| :: old(producers[p]).pc == AsleepNotFull then
                      wake < |old(producers)|
                      && producers == old(producers)[wake := old(producers[wake]).(pc := NotifiedNotFull)]
                    else producers == old(producers))
      ensures old(q) == [] ==>
                && q == [] && popped == old(popped) && producers == old(producers)
                && consumers == old(consumers)[c := if closed then Drained else AsleepNotEmpty]
    {
      if !(closed || q != []) {
        consumers := consumers[c := AsleepNotEmpty];
        return Blocked;
      }
      if q == [] {
        consumers := consumers[c := Drained];
        return Returned(None);
      }
      var out := q[0];
      q := q[1..];
      popped := popped + [out];
      consumers := consumers[c := Handling(out)];
      if AnyProducerAsleep(producers) {
        producers := producers[wake := producers[wake].(pc := NotifiedNotFull)];
      }
      turn := Returned(Some(out));
    }

    /** The locked block of `close`. */
    method CloseLocked(k: nat)
      requires Enabled(View(), SetClosed(k))
      modifies this`closed, this`closers
      ensures View() == Apply(old(View()), SetClosed(k))
      ensures closed && closers == old(closers)[k := OwesNotEmpty]
    {
      closed := true;
      closers := closers[k := OwesNotEmpty];
    }

    /** `not_empty_.notify_all()`. */
    method NotifyAllNotEmpty(k: nat)
      requires Enabled(View(), BroadcastNotEmpty(k))
      modifies this`consumers, this`closers
      ensures View() == Apply(old(View()), BroadcastNotEmpty(k))
      ensures closers == old(closers)[k := OwesNotFull] && |consumers| == |old(consumers)|
      ensures forall c | 0 <= c < |consumers| ::
                consumers[c] == if old(consumers[c]) == AsleepNotEmpty then NotifiedNotEmpty else old(consumers[c])
    {
      consumers := WakeConsumers(consumers);
      closers := closers[k := OwesNotFull];
    }

    /** `not_full_.notify_all()`. */
    method NotifyAllNotFull(k: nat)
      requires Enabled(View(), BroadcastNotFull(k))
      modifies this`producers, this`closers
      ensures View() == Apply(old(View()), BroadcastNotFull(k))
      ensures closers == old(closers)[k := AfterClose] && |producers| == |old(producers)|
      ensures forall p | 0 <= p < |producers| ::
                var me := old(producers[p]);
                producers[p] == Producer(if me.pc == AsleepNotFull then NotifiedNotFull else me.pc, me.todo)
    {
      producers := WakeProducers(producers);
      closers := closers[k := AfterClose];
    }

    /** `++processed` of a consumer. */
    method CountProcessed(c: nat)
      requires Enabled(View(), CountItem(c))
      modifies this`processed, this`consumers
      ensures View() == Apply(old(View()), CountItem(c))
      ensures processed == old(processed) + 1 && consumers == old(consumers)[c := Polling]
    {
      processed := processed + 1;
      consumers := consumers[c := Polling];
    }

    /** Executes a step by calling the member that makes it; the end of a producer's loop touches no member,
        and a spurious wakeup is made by the system. */
    method Execute(step: Step)
      requires Enabled(View(), step)
      modifies this
      ensures View() == Apply(old(View()), step)
    {
      match step
      case PushTurn(p, wake) => var turn := Push(p, wake);
      case ProducerEnds(p) => producers := producers[p := Producer(Done, [])];
      case PopTurn(c, wake) => var turn := Pop(c, wake);
      case CountItem(c) => CountProcessed(c);
      case SetClosed(k) => CloseLocked(k);
      case BroadcastNotEmpty(k) => NotifyAllNotEmpty(k);
      case BroadcastNotFull(k) => NotifyAllNotFull(k);
      case SpuriousProducer(p) => producers := producers[p := producers[p].(pc := NotifiedNotFull)];
      case SpuriousConsumer(c) => consumers := consumers[c := NotifiedNotEmpty];
    }

    /** Executes a whole schedule, so the theorems about `Run` are theorems about the object. */
    method ExecuteAll(steps: seq<Step>)
      requires Executable(View(), steps)
      modifies this
      ensures View() == Run(old(View()), steps)
      decreases |steps|
    {
      if steps != [] {
        Execute(steps[0]);
        ExecuteAll(steps[1..]);
      }
    }
  }
}

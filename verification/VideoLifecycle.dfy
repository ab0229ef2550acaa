/** The retry budget and the event rows, over every run of registrations, first attempts and
    scheduler ticks. */
module VideoLifecycle {
  import opened Wrappers
  import opened VideoModel

  /** What holds of a row between ticks. */
  predicate RowOk(maxRetries: nat, v: Video) {
    && v.retryCount <= maxRetries
    && (v.status == Invalid ==> v.retryCount == maxRetries)
    && (v.status in {Created, Processing} ==> v.retryCount < maxRetries)
    && (v.buried ==> v.status == Invalid)
  }

  ghost predicate DbOk(maxRetries: nat, db: Db) {
    forall id :: id in db ==> RowOk(maxRetries, db[id])
  }

  /** FAILED with no budget left: never retried again and never INVALID. */
  predicate Stuck(maxRetries: nat, v: Video) {
    v.status == Failed && v.retryCount >= maxRetries
  }

  predicate Terminal(maxRetries: nat, v: Video) {
    v.status == Completed || v.status == Invalid || Stuck(maxRetries, v)
  }

  lemma TickRowKeeps(
      maxRetries: nat, v: Video, registry: Registry, id: nat, aged: bool, o: Outcome, move: Move)
    requires maxRetries >= 1 && RowOk(maxRetries, v)
    ensures RowOk(maxRetries, TickRow(maxRetries, v, registry, id, aged, o, move))
    ensures Terminal(maxRetries, v) ==> TickRow(maxRetries, v, registry, id, aged, o, move) == v
  {
  }

  lemma FirstKeeps(maxRetries: nat, v: Video, registry: Registry, id: nat, o: Outcome)
    requires RowOk(maxRetries, v) && v.status == Created
    ensures RowOk(maxRetries, Attempt(v, registry, id, false, o))
    ensures !Stuck(maxRetries, Attempt(v, registry, id, false, o))
  {
  }

  lemma DoKeeps(maxRetries: nat, db: Db, step: Step)
    requires maxRetries >= 1 && DbOk(maxRetries, db) && Enabled(db, step)
    ensures DbOk(maxRetries, Do(maxRetries, db, step))
    ensures forall id :: id in db && Terminal(maxRetries, db[id]) ==>
      id in Do(maxRetries, db, step) && Do(maxRetries, db, step)[id] == db[id]
  {
    hide TickRow, Attempt;
    match step
    case Register(_, _) =>
    case First(id, registry, o) => FirstKeeps(maxRetries, db[id], registry, id, o);
    case Tick(registry, aged, outcomes, moves) =>
      forall id | id in db
        ensures RowOk(maxRetries, Do(maxRetries, db, step)[id])
        ensures Terminal(maxRetries, db[id]) ==> Do(maxRetries, db, step)[id] == db[id]
      {
        TickRowKeeps(maxRetries, db[id], registry, id, id in aged, outcomes(id), moves(id));
      }
  }

  /** Between ticks INVALID means budget spent and only INVALID rows are buried; COMPLETED,
      INVALID and stuck rows never change again. */
  lemma {:induction false} RunKeeps(maxRetries: nat, db: Db, steps: seq<Step>)
    requires maxRetries >= 1 && DbOk(maxRetries, db) && Enabling(maxRetries, db, steps)
    ensures DbOk(maxRetries, Run(maxRetries, db, steps))
    ensures db.Keys <= Run(maxRetries, db, steps).Keys
    ensures forall id :: id in db && Terminal(maxRetries, db[id]) ==> Run(maxRetries, db, steps)[id] == db[id]
  {
    if steps != [] {
      RunKeeps(maxRetries, db, steps[..|steps| - 1]);
      DoKeeps(maxRetries, Run(maxRetries, db, steps[..|steps| - 1]), steps[|steps| - 1]);
    }
  }

  // ---------------------------------------------------------------- stuck videos

  /** The step makes a retry of this video that fails for good. */
  predicate RetryFails(maxRetries: nat, db: Db, step: Step, id: nat) {
    && id in db && step.Tick? && WithinLimit(maxRetries, MarkStale(db[id], id in step.aged))
    && FailsForGood(step.outcomes(id))
  }

  /** It was the last retry, and the move of the file to the failed folder raised. */
  predicate BurialFails(maxRetries: nat, db: Db, step: Step, id: nat) {
    RetryFails(maxRetries, db, step, id) && db[id].retryCount + 1 >= maxRetries && step.moves(id) == MoveRaises
  }

  predicate HasBurialFailure(maxRetries: nat, db: Db, steps: seq<Step>, id: nat) {
    steps != [] &&
    (HasBurialFailure(maxRetries, db, steps[..|steps| - 1], id) ||
      BurialFails(maxRetries, Run(maxRetries, db, steps[..|steps| - 1]), steps[|steps| - 1], id))
  }

  lemma StepStuck(maxRetries: nat, db: Db, step: Step, id: nat)
    requires maxRetries >= 1 && DbOk(maxRetries, db) && Enabled(db, step) && id in Do(maxRetries, db, step)
    ensures Stuck(maxRetries, Do(maxRetries, db, step)[id]) <==>
      (id in db && Stuck(maxRetries, db[id])) || BurialFails(maxRetries, db, step, id)
  {
    if id in db {
      assert RowOk(maxRetries, db[id]);
      if step.First? && step.id == id {
        FirstKeeps(maxRetries, db[id], step.registry, id, step.outcome);
      }
    }
  }

  /** With a retry budget, FAILED means that some of it is left, except for those videos whose
      last retry failed and whose file could not be moved. */
  lemma {:induction false} StuckIff(maxRetries: nat, steps: seq<Step>, id: nat)
    requires maxRetries >= 1 && Enabling(maxRetries, map[], steps) && id in Run(maxRetries, map[], steps)
    ensures Stuck(maxRetries, Run(maxRetries, map[], steps)[id])
      <==> HasBurialFailure(maxRetries, map[], steps, id)
  {
    hide Do, Stuck, BurialFails, Enabled;
    var init := steps[..|steps| - 1];
    var before := Run(maxRetries, map[], init);
    RunKeeps(maxRetries, map[], init);
    StepStuck(maxRetries, before, steps[|steps| - 1], id);
    if id in before {
      StuckIff(maxRetries, init, id);
    } else {
      NotYetStuck(maxRetries, init, id);
    }
  }

  lemma {:induction false} NotYetStuck(maxRetries: nat, steps: seq<Step>, id: nat)
    requires Enabling(maxRetries, map[], steps) && id !in Run(maxRetries, map[], steps)
    ensures !HasBurialFailure(maxRetries, map[], steps, id)
  {
    if steps != [] {
      assert id !in Run(maxRetries, map[], steps[..|steps| - 1]);
      NotYetStuck(maxRetries, steps[..|steps| - 1], id);
    }
  }

  /** No video gets stuck as long as files can be moved. */
  ghost predicate FailedMeansBudget(maxRetries: nat) {
    forall steps: seq<Step>, id: nat ::
      Enabling(maxRetries, map[], steps) && id in Run(maxRetries, map[], steps)
      && !HasBurialFailure(maxRetries, map[], steps, id) ==>
        !Stuck(maxRetries, Run(maxRetries, map[], steps)[id])
  }

  /** That promise needs a budget: with `max_retry_attempts` 0 a first failure is stuck at once. */
  lemma FailedMeansBudgetIff(maxRetries: nat)
    ensures FailedMeansBudget(maxRetries) <==> maxRetries >= 1
  {
    if maxRetries >= 1 {
      forall steps: seq<Step>, id: nat |
          Enabling(maxRetries, map[], steps) && id in Run(maxRetries, map[], steps)
        ensures Stuck(maxRetries, Run(maxRetries, map[], steps)[id])
          <==> HasBurialFailure(maxRetries, map[], steps, id)
      {
        StuckIff(maxRetries, steps, id);
      }
    } else {
      StuckAtOnce();
    }
  }

  lemma StuckAtOnce()
    ensures !FailedMeansBudget(0)
  {
    var fail := First(0, map[], WorkerFails(Fatal));
    RunNext(0, [], Register(0, None));
    RunNext(0, [] + [Register(0, None)], fail);
    var steps := [] + [Register(0, None)] + [fail];
    assert Stuck(0, Run(0, map[], steps)[0]);
  }

  /** One more step of a run, in all the functions on runs. */
  lemma RunNext(maxRetries: nat, steps: seq<Step>, step: Step)
    ensures Run(maxRetries, map[], steps + [step]) == Do(maxRetries, Run(maxRetries, map[], steps), step)
    ensures Enabling(maxRetries, map[], steps + [step]) <==>
      Enabling(maxRetries, map[], steps) && Enabled(Run(maxRetries, map[], steps), step)
    ensures forall id :: HasBurialFailure(maxRetries, map[], steps + [step], id) <==>
      HasBurialFailure(maxRetries, map[], steps, id) ||
      BurialFails(maxRetries, Run(maxRetries, map[], steps), step, id)
  {
    assert (steps + [step])[..|steps|] == steps;
  }

  /** And without a budget every FAILED video stays as it is, whatever the ticks. */
  lemma {:induction false} NoBudgetStaysFailed(db: Db, steps: seq<Step>, id: nat)
    requires id in db && db[id].status == Failed && Enabling(0, db, steps)
    ensures id in Run(0, db, steps) && Run(0, db, steps)[id] == db[id]
  {
    if steps != [] {
      NoBudgetStaysFailed(db, steps[..|steps| - 1], id);
    }
  }

  /** A video whose first attempt and next `n` retries all fail for good. */
  function Doomed(id: nat, registry: Registry, tick: Step, n: nat): seq<Step> {
    if n == 0 then [] + [Register(id, None)] + [First(id, registry, WorkerFails(Fatal))]
    else Doomed(id, registry, tick, n - 1) + [tick]
  }

  lemma DoomedTick(maxRetries: nat, id: nat, tick: Step, n: nat)
    requires n < maxRetries && tick.Tick?
    requires tick.outcomes(id) == WorkerFails(Fatal) && tick.moves(id) == MoveRaises
    ensures var db := map[id := Video(None, Failed, n, 0, [], false)];
      && Do(maxRetries, db, tick) == map[id := Video(None, Failed, n + 1, 0, [], false)]
      && (BurialFails(maxRetries, db, tick, id) <==> n + 1 == maxRetries)
  {
  }

  lemma DoomedStart(maxRetries: nat, id: nat, registry: Registry)
    ensures var steps := [] + [Register(id, None)] + [First(id, registry, WorkerFails(Fatal))];
      && Enabling(maxRetries, map[], steps) && !HasBurialFailure(maxRetries, map[], steps, id)
      && Run(maxRetries, map[], steps) == map[id := Video(None, Failed, 0, 0, [], false)]
  {
    RunNext(maxRetries, [], Register(id, None));
    RunNext(maxRetries, [] + [Register(id, None)], First(id, registry, WorkerFails(Fatal)));
  }

  /** The exception of `StuckIff` is real, for every budget: when no move succeeds, the last of
      the retries leaves the video FAILED with its budget spent. */
  lemma {:induction false} DoomedGetsStuck(maxRetries: nat, id: nat, registry: Registry, tick: Step, n: nat)
    requires maxRetries >= 1 && n <= maxRetries
    requires tick.Tick? && tick.outcomes(id) == WorkerFails(Fatal) && tick.moves(id) == MoveRaises
    ensures var steps := Doomed(id, registry, tick, n);
      && Enabling(maxRetries, map[], steps)
      && Run(maxRetries, map[], steps) == map[id := Video(None, Failed, n, 0, [], false)]
      && (HasBurialFailure(maxRetries, map[], steps, id) <==> n == maxRetries)
      && (Stuck(maxRetries, Run(maxRetries, map[], steps)[id]) <==> n == maxRetries)
  {
    hide Run, Enabling, HasBurialFailure, Do, BurialFails;
    if n == 0 {
      DoomedStart(maxRetries, id, registry);
    } else {
      DoomedGetsStuck(maxRetries, id, registry, tick, n - 1);
      RunNext(maxRetries, Doomed(id, registry, tick, n - 1), tick);
      DoomedTick(maxRetries, id, tick, n - 1);
    }
  }

  // ---------------------------------------------------------------- the budget

  predicate FatalFor(step: Step, id: nat) {
    step.Tick? ==> FailsForGood(step.outcomes(id))
  }

  function Ticks(steps: seq<Step>): nat {
    if steps == [] then 0 else Ticks(steps[..|steps| - 1]) + (if steps[|steps| - 1].Tick? then 1 else 0)
  }

  function Min(a: nat, b: nat): nat {
    if a <= b then a else b
  }

  /** The row after `ticks` ticks whose retries all fail for good, `start` being its count at
      first. */
  predicate BudgetAt(maxRetries: nat, v: Video, start: nat, ticks: nat, stuck: bool) {
    && v.retryCount == Min(start + ticks, maxRetries)
    && v.status == (if ticks < maxRetries - start || stuck then Failed else Invalid)
    && (stuck ==> ticks >= maxRetries - start)
  }

  lemma BudgetStep(maxRetries: nat, db: Db, step: Step, id: nat, start: nat, ticks: nat, stuck: bool)
    requires id in db && start < maxRetries && BudgetAt(maxRetries, db[id], start, ticks, stuck)
    requires Enabled(db, step) && FatalFor(step, id)
    ensures id in Do(maxRetries, db, step)
    ensures BudgetAt(maxRetries, Do(maxRetries, db, step)[id], start, ticks + (if step.Tick? then 1 else 0),
      stuck || BurialFails(maxRetries, db, step, id))
  {
  }

  /** A FAILED row whose retries keep failing goes up by one a tick and is INVALID after
      exactly max - retry_count ticks, no sooner and for ever after, whatever else happens,
      unless its file cannot be moved then. */
  lemma {:induction false} BudgetRunsOutExactly(maxRetries: nat, db: Db, steps: seq<Step>, id: nat)
    requires id in db && db[id].status == Failed && db[id].retryCount < maxRetries
    requires Enabling(maxRetries, db, steps)
    requires forall k :: 0 <= k < |steps| ==> FatalFor(steps[k], id)
    ensures id in Run(maxRetries, db, steps)
    ensures BudgetAt(maxRetries, Run(maxRetries, db, steps)[id], db[id].retryCount, Ticks(steps),
      HasBurialFailure(maxRetries, db, steps, id))
  {
    if steps != [] {
      hide BudgetAt, Do, FatalFor, BurialFails;
      var init, last := steps[..|steps| - 1], steps[|steps| - 1];
      BudgetRunsOutExactly(maxRetries, db, init, id);
      BudgetStep(maxRetries, Run(maxRetries, db, init), last, id, db[id].retryCount, Ticks(init),
        HasBurialFailure(maxRetries, db, init, id));
    }
  }

  /** How many ticks of the run made a retry of this video that failed for good. */
  function FailedRetries(maxRetries: nat, db: Db, steps: seq<Step>, id: nat): nat {
    if steps == [] then 0
    else
      var init, last := steps[..|steps| - 1], steps[|steps| - 1];
      FailedRetries(maxRetries, db, init, id) +
      (if RetryFails(maxRetries, Run(maxRetries, db, init), last, id) then 1 else 0)
  }

  function RetryCountOf(db: Db, id: nat): nat {
    if id in db then db[id].retryCount else 0
  }

  lemma StepRetryCount(maxRetries: nat, db: Db, step: Step, id: nat)
    requires Enabled(db, step)
    ensures RetryCountOf(Do(maxRetries, db, step), id) == RetryCountOf(db, id) +
      (if RetryFails(maxRetries, db, step, id) then 1 else 0)
  {
  }

  /** `retry_count` is a count of exactly those: first failures, stale flips, retriable errors
      and successes cost nothing. */
  lemma {:induction false} RetryCountIsFailedRetries(maxRetries: nat, db: Db, steps: seq<Step>, id: nat)
    requires Enabling(maxRetries, db, steps)
    ensures RetryCountOf(Run(maxRetries, db, steps), id)
      == RetryCountOf(db, id) + FailedRetries(maxRetries, db, steps, id)
  {
    if steps != [] {
      RetryCountIsFailedRetries(maxRetries, db, steps[..|steps| - 1], id);
      StepRetryCount(maxRetries, Run(maxRetries, db, steps[..|steps| - 1]), steps[|steps| - 1], id);
    }
  }

  // ---------------------------------------------------------------- the events

  /** The outcome of the attempt that a step makes on this video, if it makes one. */
  function AttemptIn(maxRetries: nat, db: Db, step: Step, id: nat): Option<(Registry, Outcome)> {
    if id !in db then None
    else
      match step
      case Register(_, _) => None
      case First(i, registry, o) => if i == id then Some((registry, o)) else None
      case Tick(registry, aged, outcomes, _) =>
        if WithinLimit(maxRetries, MarkStale(db[id], id in aged)) then Some((registry, outcomes(id))) else None
  }

  /** Rows that an attempt leaves in the table: all of its own or none. */
  function CommittedBy(v: Video, id: nat, a: (Registry, Outcome)): seq<EventRow> {
    match a.1
    case Done(ds) => Payloads(a.0, id, ds)
    case FinishFails(ds, _) => if AggregatorCommits(v, ds) then Payloads(a.0, id, ds) else []
    case _ => []
  }

  /** The attempt failed, but only after the visit aggregator had committed its events. */
  predicate LateFailure(v: Video, o: Outcome) {
    o.FinishFails? && AggregatorCommits(v, o.detections)
  }

  ghost predicate HasLateFailure(maxRetries: nat, db: Db, steps: seq<Step>, id: nat) {
    steps != [] &&
    (HasLateFailure(maxRetries, db, steps[..|steps| - 1], id) ||
      var before := Run(maxRetries, db, steps[..|steps| - 1]);
      var a := AttemptIn(maxRetries, before, steps[|steps| - 1], id);
      a.Some? && LateFailure(before[id], a.value.1))
  }

  /** The rows of the run's last successful attempt on this video. */
  function LastDone(maxRetries: nat, db: Db, steps: seq<Step>, id: nat): seq<EventRow> {
    if steps == [] then []
    else
      var init := steps[..|steps| - 1];
      var a := AttemptIn(maxRetries, Run(maxRetries, db, init), steps[|steps| - 1], id);
      if a.Some? && a.value.1.Done? then Payloads(a.value.0, id, a.value.1.detections)
      else LastDone(maxRetries, db, init, id)
  }

  /** One attempt's events if COMPLETED, none otherwise, and a true `events_found`. */
  ghost predicate OneAttemptsEvents(v: Video, last: seq<EventRow>) {
    if v.status == Completed then v.events == last && v.eventsFound == |v.events| else v.events == []
  }

  lemma StepEvents(maxRetries: nat, db: Db, step: Step, id: nat)
    requires Enabled(db, step) && id in db
    ensures id in Do(maxRetries, db, step)
    ensures var v, v', a := db[id], Do(maxRetries, db, step)[id], AttemptIn(maxRetries, db, step, id);
      && v'.events == v.events + (if a.Some? then CommittedBy(v, id, a.value) else [])
      && v'.station == v.station
      && (v'.status == Completed <==> v.status == Completed || (a.Some? && a.value.1.Done?))
      && (a.Some? ==> v.status != Completed)
      && (a.Some? && a.value.1.Done? ==> v'.eventsFound == |a.value.1.detections|)
      && (a.None? ==> v'.eventsFound == v.eventsFound)
  {
  }

  /** Exactly when the event table tells the truth about a registered video: as long as no
      attempt failed after the aggregator's own commit. One such failure leaves a FAILED video
      with events, and a later success stores a second set beside them. */
  lemma {:induction false} EventsAreOneAttemptsIff(maxRetries: nat, steps: seq<Step>, id: nat)
    requires Enabling(maxRetries, map[], steps) && id in Run(maxRetries, map[], steps)
    ensures OneAttemptsEvents(Run(maxRetries, map[], steps)[id], LastDone(maxRetries, map[], steps, id))
      <==> !HasLateFailure(maxRetries, map[], steps, id)
    ensures HasLateFailure(maxRetries, map[], steps, id) ==>
      |Run(maxRetries, map[], steps)[id].events| >
        if Run(maxRetries, map[], steps)[id].status == Completed then |LastDone(maxRetries, map[], steps, id)| else 0
  {
    var init, last := steps[..|steps| - 1], steps[|steps| - 1];
    var before := Run(maxRetries, map[], init);
    if id in before {
      EventsAreOneAttemptsIff(maxRetries, init, id);
      StepEvents(maxRetries, before, last, id);
    } else {
      NotYetThere(maxRetries, init, id);
    }
  }

  lemma {:induction false} NotYetThere(maxRetries: nat, steps: seq<Step>, id: nat)
    requires Enabling(maxRetries, map[], steps) && id !in Run(maxRetries, map[], steps)
    ensures !HasLateFailure(maxRetries, map[], steps, id) && LastDone(maxRetries, map[], steps, id) == []
  {
    if steps != [] {
      assert id !in Run(maxRetries, map[], steps[..|steps| - 1]);
      NotYetThere(maxRetries, steps[..|steps| - 1], id);
    }
  }

  lemma LateNext(maxRetries: nat, steps: seq<Step>, step: Step, id: nat)
    ensures HasLateFailure(maxRetries, map[], steps + [step], id) <==>
      HasLateFailure(maxRetries, map[], steps, id) ||
      var before := Run(maxRetries, map[], steps);
      var a := AttemptIn(maxRetries, before, step, id);
      a.Some? && LateFailure(before[id], a.value.1)
  {
    assert (steps + [step])[..|steps|] == steps;
  }

  /** Registered, and a first attempt that fails after its one event was committed. */
  function LateStart(id: nat, station: int, registry: Registry, d: Detection): seq<Step> {
    [] + [Register(id, Some(station))] + [First(id, registry, FinishFails([d], Fatal))]
  }

  lemma LateStartEnds(maxRetries: nat, id: nat, station: int, registry: Registry, d: Detection)
    ensures var steps := LateStart(id, station, registry, d);
      && Enabling(maxRetries, map[], steps) && HasLateFailure(maxRetries, map[], steps, id)
      && Run(maxRetries, map[], steps) ==
        map[id := Video(Some(station), Failed, 0, 1, [Payload(registry, id, d)], false)]
  {
    var register, first := Register(id, Some(station)), First(id, registry, FinishFails([d], Fatal));
    var row := Video(Some(station), Created, 0, 0, [], false);
    RunNext(maxRetries, [], register);
    assert Run(maxRetries, map[], [] + [register]) == map[id := row];
    RunNext(maxRetries, [] + [register], first);
    LateNext(maxRetries, [] + [register], first, id);
    assert Payloads(registry, id, [d]) == [Payload(registry, id, d)];
    assert WithEvents(row, registry, id, [d]).events == [Payload(registry, id, d)];
  }

  /** Such a run exists, with any budget: when the retry succeeds the event is stored twice,
      while the COMPLETED video counts one. */
  lemma LateFailureDoublesEvents(
      maxRetries: nat, id: nat, station: int, registry: Registry, d: Detection, retry: Step)
    requires maxRetries >= 1
    requires retry.Tick? && retry.registry == registry && retry.outcomes(id) == Done([d])
    ensures var steps := LateStart(id, station, registry, d) + [retry];
      && Enabling(maxRetries, map[], steps) && HasLateFailure(maxRetries, map[], steps, id)
      && id in Run(maxRetries, map[], steps)
      && var v := Run(maxRetries, map[], steps)[id];
        v.status == Completed && v.eventsFound == 1
        && v.events == [Payload(registry, id, d), Payload(registry, id, d)]
  {
    var steps := LateStart(id, station, registry, d);
    LateStartEnds(maxRetries, id, station, registry, d);
    RunNext(maxRetries, steps, retry);
    LateNext(maxRetries, steps, retry, id);
    hide Run, HasLateFailure, Enabling, LateStart;
    assert Payloads(registry, id, [d]) == [Payload(registry, id, d)];
  }
}

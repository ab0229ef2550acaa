/** What attempts and ticks do to a video's row, read off its columns, and what a video's status
    says about its history. */
module VideoEffects {
  import opened Wrappers
  import opened VideoModel
  import opened VideoLifecycle

  // ---------------------------------------------------------------- one attempt

  /** `after` is `before` and one row for each detection, with the tractor that its marker
      belongs to. */
  ghost predicate Appended(
      before: seq<EventRow>, after: seq<EventRow>, registry: Registry, id: nat, ds: seq<Detection>)
  {
    && |after| == |before| + |ds|
    && after[..|before|] == before
    && forall k :: 0 <= k < |ds| ==>
      after[|before| + k] == EventRow(
        id,
        if ds[k].arucoId.Some? && ds[k].arucoId.value in registry then Some(registry[ds[k].arucoId.value]) else None,
        ds[k].arucoId, ds[k].insideRoi, ds[k].frameNumber)
  }

  /** The events of the attempt are committed: it succeeds, or fails only after the visit
      aggregator's commit. */
  predicate Stores(v: Video, o: Outcome) {
    o.Done? || (o.FinishFails? && v.station.Some? && |o.detections| > 0)
  }

  /** Events and their counter after an attempt. */
  ghost predicate EventsAfter(v: Video, v': Video, registry: Registry, id: nat, o: Outcome) {
    if Stores(v, o)
    then Appended(v.events, v'.events, registry, id, o.detections) && v'.eventsFound == |o.detections|
    else v'.events == v.events && v'.eventsFound == v.eventsFound
  }

  /** A first attempt ends COMPLETED, or FAILED for every error; a retry ends COMPLETED, or FAILED
      with one more spent for a fatal error, or PROCESSING for a retriable one. */
  lemma AttemptEnds(v: Video, registry: Registry, id: nat, isRetry: bool, o: Outcome)
    ensures var v' := Attempt(v, registry, id, isRetry, o);
      && v'.status == (
        if o.Done? then Completed
        else if isRetry && o.error == Retriable then Processing
        else Failed)
      && v'.retryCount == v.retryCount + (if isRetry && !o.Done? && o.error == Fatal then 1 else 0)
      && v'.station == v.station && v'.buried == v.buried
      && EventsAfter(v, v', registry, id, o)
  {
  }

  // ---------------------------------------------------------------- one step

  lemma RegisterEffect(maxRetries: nat, db: Db, id: nat, station: Option<int>)
    ensures Do(maxRetries, db, Register(id, station)) == db[id := Video(station, Created, 0, 0, [], false)]
  {
  }

  lemma FirstEffect(maxRetries: nat, db: Db, id: nat, registry: Registry, o: Outcome)
    requires id in db
    ensures var db' := Do(maxRetries, db, First(id, registry, o));
      && db'.Keys == db.Keys && (forall i :: i in db && i != id ==> db'[i] == db[i])
      && db'[id].status == (if o.Done? then Completed else Failed)
      && db'[id].retryCount == db[id].retryCount
      && db'[id].station == db[id].station && db'[id].buried == db[id].buried
      && EventsAfter(db[id], db'[id], registry, id, o)
  {
    AttemptEnds(db[id], registry, id, false, o);
  }

  /** The row is FAILED when the tick looks for videos to retry. */
  predicate DueInTick(v: Video, aged: bool) {
    v.status == Failed || (aged && (v.status == Created || v.status == Processing))
  }

  /** A tick, for one row: aged CREATED and PROCESSING rows become FAILED; FAILED rows with budget
      left are tried once; a try that fails for good spends one, and with the last one spent the
      video is given up, if its file can be moved. */
  lemma TickEffect(maxRetries: nat, db: Db, step: Step, id: nat)
    requires step.Tick? && id in db
    ensures Do(maxRetries, db, step).Keys == db.Keys
    ensures var v, v', o := db[id], Do(maxRetries, db, step)[id], step.outcomes(id);
      if !DueInTick(v, id in step.aged) then v' == v
      else if v.retryCount >= maxRetries then v' == v.(status := Failed)
      else
        var fatal := !o.Done? && o.error == Fatal;
        var last := fatal && v.retryCount + 1 >= maxRetries;
        && v'.status == (
          if o.Done? then Completed
          else if !fatal then Processing
          else if last && step.moves(id) != MoveRaises then Invalid
          else Failed)
        && v'.retryCount == v.retryCount + (if fatal then 1 else 0)
        && v'.station == v.station
        && v'.buried == (v.buried || (last && step.moves(id) == Moved))
        && EventsAfter(v, v', step.registry, id, o)
  {
    var v := db[id];
    var due := v.(status := Failed);
    if DueInTick(v, id in step.aged) && v.retryCount < maxRetries {
      AttemptEnds(due, step.registry, id, true, step.outcomes(id));
      hide Attempt;
    }
  }

  /** The rows that a tick reports as marked, and then those that it reports as retried. */
  lemma TickCounts(maxRetries: nat, db: Db, aged: set<nat>)
    ensures StaleIds(db, aged) == set id |
      id in db && id in aged && (db[id].status == Created || db[id].status == Processing)
    ensures RetryIds(maxRetries, MarkAll(db, aged)) == set id |
      id in db && DueInTick(db[id], id in aged) && db[id].retryCount < maxRetries
  {
  }

  // ---------------------------------------------------------------- every run

  /** The last attempt that a run makes on the video: whether it was a retry, and how it went. */
  function LastAttempt(maxRetries: nat, steps: seq<Step>, id: nat): Option<(bool, Outcome)> {
    if steps == [] then None
    else
      var init, last := steps[..|steps| - 1], steps[|steps| - 1];
      var a := AttemptIn(maxRetries, Run(maxRetries, map[], init), last, id);
      if a.Some? then Some((last.Tick?, a.value.1)) else LastAttempt(maxRetries, init, id)
  }

  /** The status that goes with a history; a given-up video is the one exception. */
  predicate StatusTells(status: Status, last: Option<(bool, Outcome)>) {
    if last.None? then status == Created
    else
      var (isRetry, o) := last.value;
      if o.Done? then status == Completed
      else if isRetry && o.error == Retriable then status == Processing
      else status == Failed || (isRetry && status == Invalid)
  }

  lemma StepTells(maxRetries: nat, db: Db, step: Step, id: nat, before: Option<(bool, Outcome)>)
    requires maxRetries >= 1 && DbOk(maxRetries, db) && Enabled(db, step) && id in Do(maxRetries, db, step)
    requires if id in db then StatusTells(db[id].status, before) else before.None?
    ensures var a := AttemptIn(maxRetries, db, step, id);
      StatusTells(Do(maxRetries, db, step)[id].status, if a.Some? then Some((step.Tick?, a.value.1)) else before)
  {
    if id in db {
      assert RowOk(maxRetries, db[id]);
      match step
      case Register(_, _) =>
      case First(i, registry, o) => FirstEffect(maxRetries, db, i, registry, o);
      case Tick(_, _, _, _) => TickEffect(maxRetries, db, step, id);
    }
    hide Attempt, Retry;
  }

  /** After every run the status tells how the last attempt went: CREATED if there was none,
      COMPLETED if it succeeded, PROCESSING exactly if it was a retry that met a retriable error,
      FAILED or INVALID if it failed otherwise, INVALID only after a retry. */
  lemma {:induction false} StatusIsLastAttempt(maxRetries: nat, steps: seq<Step>, id: nat)
    requires maxRetries >= 1 && Enabling(maxRetries, map[], steps) && id in Run(maxRetries, map[], steps)
    ensures StatusTells(Run(maxRetries, map[], steps)[id].status, LastAttempt(maxRetries, steps, id))
  {
    hide Do, StatusTells, AttemptIn, Enabled;
    var init, last := steps[..|steps| - 1], steps[|steps| - 1];
    var before := Run(maxRetries, map[], init);
    RunKeeps(maxRetries, map[], init);
    if id in before {
      StatusIsLastAttempt(maxRetries, init, id);
    } else {
      NeverAttempted(maxRetries, init, id);
    }
    StepTells(maxRetries, before, last, id, LastAttempt(maxRetries, init, id));
  }

  lemma {:induction false} NeverAttempted(maxRetries: nat, steps: seq<Step>, id: nat)
    requires Enabling(maxRetries, map[], steps) && id !in Run(maxRetries, map[], steps)
    ensures LastAttempt(maxRetries, steps, id) == None
  {
    if steps != [] {
      assert id !in Run(maxRetries, map[], steps[..|steps| - 1]);
      NeverAttempted(maxRetries, steps[..|steps| - 1], id);
    }
  }
}

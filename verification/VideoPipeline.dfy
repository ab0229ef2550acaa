/** The handler and the retry scheduler as they are written: a session with flushed but
    uncommitted work, commits and rollbacks. What each of them commits is the function of
    VideoModel with the same role, so the results on runs are results about this code. */
module VideoPipeline {
  import opened Wrappers
  import opened VideoModel

  lemma PayloadsAppend(registry: Registry, id: nat, ds: seq<Detection>, d: Detection)
    ensures Payloads(registry, id, ds + [d]) == Payloads(registry, id, ds) + [Payload(registry, id, d)]
  {
  }

  /** `recognize_video`'s loop over the detections. The cache only remembers markers that were
      found; the rows are those of a lookup made afresh for every detection. */
  method BuildPayloads(registry: Registry, id: nat, ds: seq<Detection>) returns (payloads: seq<EventRow>)
    ensures payloads == Payloads(registry, id, ds)
  {
    var arucoToTractor: map<int, int> := map[];
    payloads := [];
    for n := 0 to |ds|
      invariant payloads == Payloads(registry, id, ds[..n])
      invariant forall m :: m in arucoToTractor ==> m in registry && arucoToTractor[m] == registry[m]
    {
      var d := ds[n];
      var tractorId: Option<int> := None;
      if d.arucoId.Some? {
        var marker := d.arucoId.value;
        if marker in arucoToTractor {
          tractorId := Some(arucoToTractor[marker]);
        } else if marker in registry {
          tractorId := Some(registry[marker]);
          arucoToTractor := arucoToTractor[marker := registry[marker]];
        }
      }
      assert tractorId == Resolve(registry, d.arucoId);
      PayloadsAppend(registry, id, ds[..n], d);
      assert ds[..n + 1] == ds[..n] + [d];
      payloads := payloads + [EventRow(id, tractorId, d.arucoId, d.insideRoi, d.frameNumber)];
    }
    assert ds[..|ds|] == ds;
  }

  /** A request to register a video, with what the server finds out about its file. */
  datatype Registration = Registration(
    station: Option<int>, startedAt: real, endedAt: real, fileExists: bool, hashKnown: bool)

  datatype Refusal = BadTimes | NoFile | Duplicate

  class Pipeline {
    const maxRetries: nat
    /** What the database holds, and what the session sees on top of it. */
    var committed: Db
    var working: Db

    constructor (maxRetries: nat)
      ensures this.maxRetries == maxRetries && committed == working == map[]
    {
      this.maxRetries := maxRetries;
      committed, working := map[], map[];
    }

    method Commit()
      modifies this`committed
      ensures committed == working
    {
      committed := working;
    }

    method Rollback()
      modifies this`working
      ensures working == committed
    {
      working := committed;
    }

    method UpdateStatus(id: nat, status: Status)
      requires id in working
      modifies this`working
      ensures working == old(working)[id := old(working)[id].(status := status)]
    {
      working := working[id := working[id].(status := status)];
    }

    method IncrementRetryCount(id: nat)
      requires id in working
      modifies this`working
      ensures working == old(working)[id := old(working)[id].(retryCount := old(working)[id].retryCount + 1)]
    {
      working := working[id := working[id].(retryCount := working[id].retryCount + 1)];
    }

    /** Moves the file and points the row at its new place, if the file is there. */
    method MoveToFailed(id: nat, move: Move) returns (raised: bool)
      requires id in working
      modifies this`working
      ensures raised <==> move == MoveRaises
      ensures working ==
        if move == Moved then old(working)[id := old(working)[id].(buried := true)] else old(working)
    {
      if move == Moved {
        working := working[id := working[id].(buried := true)];
      }
      return move == MoveRaises;
    }

    method MarkPermanentlyFailed(id: nat, move: Move) returns (raised: bool)
      requires id in working
      modifies this`working
      ensures raised <==> move == MoveRaises
      ensures working == old(working)[id := GiveUp(old(working)[id], move)]
    {
      raised := MoveToFailed(id, move);
      if !raised {
        UpdateStatus(id, Invalid);
      }
    }

    /** Despite its name it only flushes the new row. The refusals are 422, 422 and 406. */
    method CreateAndCommit(id: nat, r: Registration) returns (refused: Option<Refusal>)
      requires id !in working
      modifies this`working
      ensures refused == Some(BadTimes) <==> r.startedAt >= r.endedAt
      ensures refused == Some(NoFile) <==> r.startedAt < r.endedAt && !r.fileExists
      ensures refused.None? <==> r.startedAt < r.endedAt && r.fileExists && !r.hashKnown
      ensures refused == Some(Duplicate) <==> r.startedAt < r.endedAt && r.fileExists && r.hashKnown
      ensures working ==
        if refused.None? then Do(maxRetries, old(working), Register(id, r.station)) else old(working)
    {
      if r.startedAt >= r.endedAt {
        return Some(BadTimes);
      }
      if !r.fileExists {
        return Some(NoFile);
      }
      if r.hashKnown {
        return Some(Duplicate);
      }
      working := working[id := Video(r.station, Created, 0, 0, [], false)];
      return None;
    }

    /** A request that registers a video, inside its session dependency: that commits when the
        endpoint returns and rolls back when it raises, because of a refusal or `later`. */
    method RegisterVideo(id: nat, r: Registration, later: bool) returns (registered: bool)
      requires committed == working && id !in committed
      modifies this
      ensures registered <==> r.startedAt < r.endedAt && r.fileExists && !r.hashKnown && !later
      ensures working == committed ==
        if registered then Do(maxRetries, old(committed), Register(id, r.station)) else old(committed)
    {
      var refused := CreateAndCommit(id, r);
      registered := refused.None? && !later;
      if registered {
        Commit();
      } else {
        Rollback();
      }
    }

    /** Flushes counters and events, and commits them if the aggregator does. Returns the error
        that it raises, if any. */
    method RecognizeVideo(id: nat, registry: Registry, o: Outcome) returns (raised: Option<Error>)
      requires committed == working && id in working
      modifies this
      ensures raised == if o.WorkerFails? || o.PersistFails? then Some(o.error) else None
      ensures var v := old(working)[id];
        raised.None? ==>
          && working == old(working)[id := WithEvents(v, registry, id, o.detections)]
          && committed == (if AggregatorCommits(v, o.detections) then working else old(committed))
      ensures raised.Some? ==> committed == old(committed)
    {
      if o.WorkerFails? {
        return Some(o.error);
      }
      var ds := o.detections;
      working := working[id := working[id].(eventsFound := |ds|)];
      if |ds| > 0 {
        var payloads := BuildPayloads(registry, id, ds);
        working := working[id := working[id].(events := working[id].events + payloads)];
      }
      if o.PersistFails? {
        return Some(o.error);
      }
      if working[id].station.Some? && |ds| > 0 {
        Commit();
      }
      assert |ds| == 0 ==> old(working)[id].events + Payloads(registry, id, ds) == old(working)[id].events;
      return None;
    }

    method ProcessVideoWithErrorHandling(id: nat, registry: Registry, isRetry: bool, o: Outcome)
      returns (raised: Option<Error>)
      requires committed == working && id in committed
      modifies this
      ensures raised == if o.Done? then None else Some(o.error)
      ensures working == committed == old(committed)[id := Attempt(old(committed)[id], registry, id, isRetry, o)]
    {
      UpdateStatus(id, Processing);
      Commit();
      raised := RecognizeVideo(id, registry, o);
      if raised.None? && o.FinishFails? {
        raised := Some(o.error);
      }
      if raised.None? {
        UpdateStatus(id, Completed);
        Commit();
        return;
      }
      Rollback();
      if !isRetry {
        UpdateStatus(id, Failed);
      } else if raised.value != Retriable {
        IncrementRetryCount(id);
        UpdateStatus(id, Failed);
      }
      Commit();
    }

    /** The scheduler's reaction; the count it reads is the one just committed. Setting it to
        NULL for a retriable error violates NOT NULL, so that path changes nothing. When the
        move raises, the session is closed without a commit. */
    method HandleRetryFailure(id: nat, error: Error, move: Move)
      requires committed == working && id in committed
      modifies this
      ensures var v := old(committed)[id];
        working == committed ==
          if error == Fatal && v.retryCount >= maxRetries
          then old(committed)[id := GiveUp(v, move)] else old(committed)
    {
      if error == Retriable {
        Rollback();
        return;
      }
      if working[id].retryCount >= maxRetries {
        var raised := MarkPermanentlyFailed(id, move);
        if raised {
          Rollback();
        } else {
          Commit();
        }
      }
    }

    method ProcessSingle(id: nat, registry: Registry, o: Outcome, move: Move)
      requires committed == working && id in committed
      modifies this
      ensures working == committed ==
        old(committed)[id := Retry(maxRetries, old(committed)[id], registry, id, o, move)]
    {
      var raised := ProcessVideoWithErrorHandling(id, registry, true, o);
      if raised.Some? {
        HandleRetryFailure(id, raised.value, move);
      }
    }

    method MarkStaleVideos(aged: set<nat>) returns (marked: nat)
      requires committed == working
      modifies this
      ensures working == committed == MarkAll(old(committed), aged)
      ensures marked == |StaleIds(old(committed), aged)|
    {
      ghost var db := committed;
      var stale := StaleIds(working, aged);
      var todo := stale;
      while todo != {}
        invariant todo <= stale && committed == db && working.Keys == db.Keys
        invariant forall id :: id in db ==>
          working[id] == if id in stale && id !in todo then db[id].(status := Failed) else db[id]
        decreases todo
      {
        var id :| id in todo;
        UpdateStatus(id, Failed);
        todo := todo - {id};
      }
      Commit();
      return |stale|;
    }

    method ProcessFailedVideos(registry: Registry, outcomes: nat -> Outcome, moves: nat -> Move)
      returns (retried: nat)
      requires committed == working
      modifies this
      ensures working == committed == map id | id in old(committed) ::
        if WithinLimit(maxRetries, old(committed)[id])
        then Retry(maxRetries, old(committed)[id], registry, id, outcomes(id), moves(id)) else old(committed)[id]
      ensures retried == |RetryIds(maxRetries, old(committed))|
    {
      ghost var db := committed;
      var targets := RetryIds(maxRetries, working);
      var todo := targets;
      while todo != {}
        invariant todo <= targets && committed == working && working.Keys == db.Keys
        invariant forall id :: id in db ==>
          working[id] == if id in targets && id !in todo
            then Retry(maxRetries, db[id], registry, id, outcomes(id), moves(id)) else db[id]
        decreases todo
      {
        var id :| id in todo;
        ProcessSingle(id, registry, outcomes(id), moves(id));
        todo := todo - {id};
      }
      return |targets|;
    }

    method RunTick(registry: Registry, aged: set<nat>, outcomes: nat -> Outcome, moves: nat -> Move)
      returns (marked: nat, retried: nat)
      requires committed == working
      modifies this
      ensures working == committed == Do(maxRetries, old(committed), Tick(registry, aged, outcomes, moves))
      ensures marked == |StaleIds(old(committed), aged)|
      ensures retried == |RetryIds(maxRetries, MarkAll(old(committed), aged))|
    {
      marked := MarkStaleVideos(aged);
      retried := ProcessFailedVideos(registry, outcomes, moves);
    }
  }
}

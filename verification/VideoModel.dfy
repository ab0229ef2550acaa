/** A video's life in the database: one row of `video_files` with the `events` rows that point
    at it, and what one processing attempt, one scheduler tick and any run of them commit.
    `buried` says that the row's `storage_uri` points into the failed folder. */
module VideoModel {
  import opened Wrappers

  datatype Status = Created | Processing | Completed | Failed | Invalid

  /** What the worker process reports for one frame. */
  datatype Detection = Detection(arucoId: Option<int>, insideRoi: bool, frameNumber: int)

  datatype EventRow = EventRow(
    videoId: nat,
    tractorId: Option<int>,
    arucoId: Option<int>,
    insideRoi: bool,
    frameNumber: int)

  datatype Video = Video(
    station: Option<int>,
    status: Status,
    retryCount: nat,
    eventsFound: nat,
    events: seq<EventRow>,
    buried: bool)

  type Db = map<nat, Video>

  /** Marker id to tractor id. */
  type Registry = map<int, int>

  /** `VideoProcessError`, or anything else. */
  datatype Error = Retriable | Fatal

  /** How an attempt goes: it completes, or it raises before anything is flushed, or after the
      event rows are flushed but before the visit aggregator commits, or after that commit. */
  datatype Outcome =
    | Done(detections: seq<Detection>)
    | WorkerFails(error: Error)
    | PersistFails(detections: seq<Detection>, error: Error)
    | FinishFails(detections: seq<Detection>, error: Error)

  /** How the move of a given-up video's file to the failed folder goes. */
  datatype Move = Moved | FileMissing | MoveRaises

  // ---------------------------------------------------------------- one attempt

  function Resolve(registry: Registry, arucoId: Option<int>): Option<int> {
    if arucoId.Some? && arucoId.value in registry then Some(registry[arucoId.value]) else None
  }

  function Payload(registry: Registry, id: nat, d: Detection): EventRow {
    EventRow(id, Resolve(registry, d.arucoId), d.arucoId, d.insideRoi, d.frameNumber)
  }

  /** The rows of an attempt, each with its own, uncached lookup. */
  function Payloads(registry: Registry, id: nat, ds: seq<Detection>): seq<EventRow> {
    seq(|ds|, i requires 0 <= i < |ds| => Payload(registry, id, ds[i]))
  }

  /** The aggregator commits the session only when it has a station and something to do. */
  predicate AggregatorCommits(v: Video, ds: seq<Detection>) {
    v.station.Some? && ds != []
  }

  function WithEvents(v: Video, registry: Registry, id: nat, ds: seq<Detection>): Video {
    v.(eventsFound := |ds|, events := v.events + Payloads(registry, id, ds))
  }

  /** The bookkeeping after the rollback. A retriable error on a retry writes nothing. */
  function AfterFailure(v: Video, isRetry: bool, error: Error): Video {
    if !isRetry then v.(status := Failed)
    else if error == Retriable then v
    else v.(status := Failed, retryCount := v.retryCount + 1)
  }

  /** What is committed when the attempt is over. */
  function Attempt(v: Video, registry: Registry, id: nat, isRetry: bool, o: Outcome): Video {
    var started := v.(status := Processing);
    match o
    case Done(ds) => WithEvents(started, registry, id, ds).(status := Completed)
    case WorkerFails(error) => AfterFailure(started, isRetry, error)
    case PersistFails(_, error) => AfterFailure(started, isRetry, error)
    case FinishFails(ds, error) =>
      AfterFailure(if AggregatorCommits(v, ds) then WithEvents(started, registry, id, ds) else started, isRetry, error)
  }

  predicate FailsForGood(o: Outcome) {
    !o.Done? && o.error == Fatal
  }

  /** The scheduler gives a video up: its file is moved and the row becomes INVALID, unless the
      move raises; then nothing is committed. */
  function GiveUp(v: Video, move: Move): Video {
    match move
    case Moved => v.(buried := true, status := Invalid)
    case FileMissing => v.(status := Invalid)
    case MoveRaises => v
  }

  /** A retry with the scheduler's reaction to its failure. Setting the count to NULL, its
      reaction to a retriable error, is rejected by the schema. */
  function Retry(maxRetries: nat, v: Video, registry: Registry, id: nat, o: Outcome, move: Move): Video {
    var v1 := Attempt(v, registry, id, true, o);
    if FailsForGood(o) && v1.retryCount >= maxRetries then GiveUp(v1, move) else v1
  }

  // ---------------------------------------------------------------- one tick

  /** `aged` says whether `updated_at` is older than the stale threshold. */
  predicate IsStale(v: Video, aged: bool) {
    aged && v.status in {Created, Processing}
  }

  function MarkStale(v: Video, aged: bool): Video {
    if IsStale(v, aged) then v.(status := Failed) else v
  }

  predicate WithinLimit(maxRetries: nat, v: Video) {
    v.status == Failed && v.retryCount < maxRetries
  }

  function MarkAll(db: Db, aged: set<nat>): Db {
    map id | id in db :: MarkStale(db[id], id in aged)
  }

  function StaleIds(db: Db, aged: set<nat>): set<nat> {
    set id | id in db && IsStale(db[id], id in aged)
  }

  function RetryIds(maxRetries: nat, db: Db): set<nat> {
    set id | id in db && WithinLimit(maxRetries, db[id])
  }

  function TickRow(
      maxRetries: nat, v: Video, registry: Registry, id: nat, aged: bool, o: Outcome, move: Move): Video
  {
    var v1 := MarkStale(v, aged);
    if WithinLimit(maxRetries, v1) then Retry(maxRetries, v1, registry, id, o, move) else v1
  }

  // ---------------------------------------------------------------- runs

  datatype Step =
    | Register(id: nat, station: Option<int>)
    | First(id: nat, registry: Registry, outcome: Outcome)
    | Tick(registry: Registry, aged: set<nat>, outcomes: nat -> Outcome, moves: nat -> Move)

  /** A content hash is registered once, and a video's own background attempt starts while the
      row is still CREATED. */
  predicate Enabled(db: Db, step: Step) {
    match step
    case Register(id, _) => id !in db
    case First(id, _, _) => id in db && db[id].status == Created
    case Tick(_, _, _, _) => true
  }

  function Do(maxRetries: nat, db: Db, step: Step): Db {
    match step
    case Register(id, station) => db[id := Video(station, Created, 0, 0, [], false)]
    case First(id, registry, o) => if id in db then db[id := Attempt(db[id], registry, id, false, o)] else db
    case Tick(registry, aged, outcomes, moves) =>
      map id | id in db :: TickRow(maxRetries, db[id], registry, id, id in aged, outcomes(id), moves(id))
  }

  function Run(maxRetries: nat, db: Db, steps: seq<Step>): Db {
    if steps == [] then db
    else Do(maxRetries, Run(maxRetries, db, steps[..|steps| - 1]), steps[|steps| - 1])
  }

  predicate Enabling(maxRetries: nat, db: Db, steps: seq<Step>) {
    steps == [] ||
    (Enabling(maxRetries, db, steps[..|steps| - 1])
      && Enabled(Run(maxRetries, db, steps[..|steps| - 1]), steps[|steps| - 1]))
  }
}

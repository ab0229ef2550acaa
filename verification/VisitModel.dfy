/** The visits table and what one step of the aggregator does to it, on values.

    A row is a `Row`; the table is a sequence of slots whose index is the primary key, so a
    deleted row leaves `None` behind and ids are never used twice. Two fields of `Row` are
    history rather than columns: `firstSeen`, the time of the detection that created the visit,
    and `frames`, everything published about it. */
module VisitModel {
  import opened Wrappers

  /** Seconds on one UTC time line. */
  type Time = real

  /** (tractor_id, station_id) */
  type Pair = (int, int)

  datatype VisitState = Entering | Present | Leaving | Closed

  datatype Config = Config(entryConfirm: Time, exitConfirm: Time, graceMultiplier: real) {
    predicate Ok() {
      entryConfirm >= 0.0 && exitConfirm > 0.0
    }

    /** How old an ENTERING row must be for the exit timer to delete it. */
    function EntryTimeout(): Time {
      entryConfirm * 3.0
    }

    /** How old it must be at least to be deleted on start-up. */
    function RecoveryAge(): Time {
      entryConfirm * graceMultiplier
    }
  }

  /** What a subscriber is told about one visit. */
  datatype Frame = Frame(state: VisitState, arrivedAt: Option<Time>, lastSeenAt: Time, eventId: Option<int>)

  datatype Row = Row(
    pair: Pair,
    state: VisitState,
    arrivedAt: Option<Time>,
    departedAt: Option<Time>,
    lastSeenAt: Time,
    entrySeen: Time,
    entryEvent: Option<int>,
    lastEvent: Option<int>,
    createdAt: Time,
    firstSeen: Time,
    frames: seq<Frame>)
  {
    predicate Open() {
      state != Closed
    }
  }

  type Table = seq<Option<Row>>

  /** A persisted detection. `insertStamp` is the `created_at` the database would put on a
      visit inserted while this event is handled; nothing is assumed about it. */
  datatype Event = Event(
    id: Option<int>,
    tractorId: Option<int>,
    insideRoi: bool,
    frameNumber: int,
    wallClockAt: Time,
    insertStamp: Time)
  {
    /** Unknown markers and detections outside the region of interest cannot make a visit. */
    predicate Counts() {
      tractorId.Some? && insideRoi
    }
  }

  // ---------------------------------------------------------------- one row

  function Announce(r: Row, eventId: Option<int>): Row {
    r.(frames := r.frames + [Frame(r.state, r.arrivedAt, r.lastSeenAt, eventId)])
  }

  function NewVisit(p: Pair, e: Event): Row {
    Announce(
      Row(p, Entering, None, None, e.wallClockAt, 0.0, e.id, e.id, e.insertStamp, e.wallClockAt, []),
      e.id)
  }

  /** A detection of a tractor whose visit is `r`. */
  function Transition(cfg: Config, r: Row, t: Time, eventId: Option<int>): Row {
    match r.state
    case Entering =>
      var seen := r.entrySeen + (t - r.lastSeenAt);
      var r1 := r.(entrySeen := seen, lastSeenAt := t, lastEvent := eventId);
      if seen >= cfg.entryConfirm then
        Announce(r1.(state := Present, arrivedAt := Some(t), entryEvent := eventId), eventId)
      else
        r1
    case Present => r.(lastSeenAt := t, lastEvent := eventId)
    case Leaving => Announce(r.(state := Present, lastSeenAt := t, lastEvent := eventId), eventId)
    case Closed => r
  }

  /** The second half of the exit timer: a LEAVING visit unseen for two windows closes. */
  function ExitIfLeaving(cfg: Config, r: Row, now: Time): Row {
    if r.state == Leaving && now - r.lastSeenAt >= 2.0 * cfg.exitConfirm then
      Announce(r.(state := Closed, departedAt := Some(r.lastSeenAt + cfg.exitConfirm)), None)
    else
      r
  }

  /** The exit timer at time `now`; `None` when the row is deleted as a false positive. */
  function CloseOut(cfg: Config, r: Row, now: Time): Option<Row> {
    if r.state == Entering then
      if now - r.createdAt >= cfg.EntryTimeout() then None else Some(r)
    else
      var r1 := if r.state == Present && now - r.lastSeenAt >= cfg.exitConfirm
                then Announce(r.(state := Leaving), None) else r;
      Some(ExitIfLeaving(cfg, r1, now))
  }

  /** What the event loop does to a PRESENT visit before it looks at a new detection: the
      exit timer again, but the step to LEAVING is not published. */
  function QuietExit(cfg: Config, r: Row, t: Time): Row {
    if r.state == Present && t - r.lastSeenAt >= cfg.exitConfirm then
      ExitIfLeaving(cfg, r.(state := Leaving), t)
    else
      r
  }

  /** Start-up recovery: an ENTERING row that is too old is a leftover of a crash. */
  function RecoverRow(cfg: Config, r: Row, now: Time): Option<Row> {
    if r.state == Entering && now - r.createdAt > cfg.RecoveryAge()
    then None else Some(r)
  }

  // ---------------------------------------------------------------- the table

  predicate OpenFor(slot: Option<Row>, p: Pair) {
    slot.Some? && slot.value.pair == p && slot.value.Open()
  }

  /** The id of the pair's open row, or |tb| when it has none. */
  function OpenAt(tb: Table, p: Pair): (i: nat)
    ensures i <= |tb|
    ensures i < |tb| ==> OpenFor(tb[i], p)
    ensures forall j :: 0 <= j < i ==> !OpenFor(tb[j], p)
  {
    if tb == [] then 0
    else
      var i := OpenAt(tb[..|tb| - 1], p);
      if i < |tb| - 1 || OpenFor(tb[|tb| - 1], p) then i else |tb|
  }

  /** One event of the loop, stated on the table alone: no cached index of open visits. */
  function Observe(cfg: Config, tb: Table, station: int, e: Event): Table {
    if !e.Counts() then tb
    else
      var p := (e.tractorId.value, station);
      var i := OpenAt(tb, p);
      if i == |tb| then tb + [Some(NewVisit(p, e))]
      else
        var r := QuietExit(cfg, tb[i].value, e.wallClockAt);
        if r.state == Closed then tb[i := Some(r)] + [Some(NewVisit(p, e))]
        else tb[i := Some(Transition(cfg, r, e.wallClockAt, e.id))]
  }

  function Loop(cfg: Config, tb: Table, station: int, es: seq<Event>): Table {
    if es == [] then tb
    else Observe(cfg, Loop(cfg, tb, station, es[..|es| - 1]), station, es[|es| - 1])
  }

  function SweepSlot(cfg: Config, slot: Option<Row>, now: Time): Option<Row> {
    if slot.Some? && slot.value.Open() then CloseOut(cfg, slot.value, now) else slot
  }

  predicate AtStation(slot: Option<Row>, station: int) {
    slot.Some? && slot.value.pair.1 == station
  }

  function Sweep(cfg: Config, tb: Table, now: Time): Table {
    seq(|tb|, i requires 0 <= i < |tb| => SweepSlot(cfg, tb[i], now))
  }

  function SweepStation(cfg: Config, tb: Table, station: int, now: Time): Table {
    seq(|tb|, i requires 0 <= i < |tb| =>
      if AtStation(tb[i], station) then SweepSlot(cfg, tb[i], now) else tb[i])
  }

  function RecoverSlot(cfg: Config, slot: Option<Row>, now: Time): Option<Row> {
    if slot.Some? then RecoverRow(cfg, slot.value, now) else None
  }

  function Recover(cfg: Config, tb: Table, now: Time): Table {
    seq(|tb|, i requires 0 <= i < |tb| => RecoverSlot(cfg, tb[i], now))
  }

  // ---------------------------------------------------------------- frame order

  function InsertByFrame(e: Event, es: seq<Event>): seq<Event> {
    if es == [] || e.frameNumber <= es[0].frameNumber then [e] + es
    else [es[0]] + InsertByFrame(e, es[1..])
  }

  /** Python's stable `sorted(events, key=frame_number)`. */
  function SortByFrame(es: seq<Event>): seq<Event> {
    if es == [] then [] else InsertByFrame(es[0], SortByFrame(es[1..]))
  }

  /** A whole video: the loop in frame order, then the exit timer at the last event's time. */
  function Batch(cfg: Config, tb: Table, station: Option<int>, events: seq<Event>): Table {
    var es := SortByFrame(events);
    if es == [] || station.None? then tb
    else SweepStation(cfg, Loop(cfg, tb, station.value, es), station.value, es[|es| - 1].wallClockAt)
  }

  // ---------------------------------------------------------------- runs

  datatype Step =
    | Video(station: Option<int>, events: seq<Event>)
    | StaleCheck(now: Time)
    | Startup(now: Time)

  function Do(cfg: Config, tb: Table, step: Step): Table {
    match step
    case Video(station, events) => Batch(cfg, tb, station, events)
    case StaleCheck(now) => Sweep(cfg, tb, now)
    case Startup(now) => Recover(cfg, tb, now)
  }

  function Run(cfg: Config, tb: Table, steps: seq<Step>): Table {
    if steps == [] then tb
    else Do(cfg, Run(cfg, tb, steps[..|steps| - 1]), steps[|steps| - 1])
  }
}

/** What every run keeps. `Shaped` and `Extends` need no hypothesis at all; `Timely` needs a
    clock that does not go back. */
module VisitInvariants {
  import opened Wrappers
  import opened VisitModel

  // ---------------------------------------------------------------- definitions

  /** Which state may be published straight after which. PRESENT may repeat: the loop's own
      step to LEAVING is silent, so a resumed visit announces PRESENT again. */
  predicate Follows(a: VisitState, b: VisitState) {
    match a
    case Entering => b == Present
    case Present => b != Entering
    case Leaving => b == Present || b == Closed
    case Closed => false
  }

  ghost predicate FramesOk(fs: seq<Frame>) {
    && fs != []
    && fs[0].state == Entering
    && forall i :: 0 <= i < |fs| - 1 ==> Follows(fs[i].state, fs[i + 1].state)
  }

  ghost predicate RowShape(r: Row) {
    && (r.arrivedAt.None? <==> r.state == Entering)
    && (r.departedAt.Some? <==> r.state == Closed)
    && FramesOk(r.frames)
    && r.frames[|r.frames| - 1].state == r.state
  }

  predicate SamePair(a: Option<Row>, b: Option<Row>) {
    a.Some? && b.Some? && a.value.pair == b.value.pair
  }

  /** Only the newest row of a pair can be open. */
  ghost predicate LastOpen(tb: Table) {
    forall i, j :: 0 <= i < j < |tb| && SamePair(tb[i], tb[j]) ==> tb[i].value.state == Closed
  }

  ghost predicate Shaped(tb: Table) {
    && (forall i :: 0 <= i < |tb| && tb[i].Some? ==> RowShape(tb[i].value))
    && LastOpen(tb)
  }

  /** The partial unique index `uq_visit_open`. */
  ghost predicate UniqueOpen(tb: Table) {
    forall i, j, p :: 0 <= i < |tb| && 0 <= j < |tb| && OpenFor(tb[i], p) && OpenFor(tb[j], p) ==> i == j
  }

  /** The four CHECK constraints of the visits table. */
  predicate DbChecks(r: Row) {
    && (r.arrivedAt.Some? || r.state == Entering)
    && (r.state == Closed <==> r.departedAt.Some?)
    && (r.departedAt.None? || r.arrivedAt.None? || r.arrivedAt.value < r.departedAt.value)
    && r.entrySeen >= 0.0
  }

  /** What a later step may do to a slot: a deleted id stays deleted, a CLOSED row never
      changes, only ENTERING rows are deleted, an arrival time is final and nothing
      published is taken back. */
  predicate SlotKept(a: Option<Row>, b: Option<Row>) {
    match (a, b)
    case (None, _) => b.None?
    case (Some(r), None) => r.state == Entering
    case (Some(r), Some(r')) =>
      && r'.pair == r.pair && r'.createdAt == r.createdAt && r'.firstSeen == r.firstSeen
      && (r.arrivedAt.Some? ==> r'.arrivedAt == r.arrivedAt)
      && (r.state == Closed ==> r' == r)
      && r.frames <= r'.frames
  }

  ghost predicate Extends(tb: Table, tb': Table) {
    && |tb| <= |tb'|
    && forall i :: 0 <= i < |tb| ==> SlotKept(tb[i], tb'[i])
  }

  ghost predicate RowTimely(cfg: Config, r: Row, clock: Time) {
    && r.firstSeen <= r.lastSeenAt <= clock
    && (r.state == Entering ==>
      && r.entrySeen == r.lastSeenAt - r.firstSeen
      && (r.lastSeenAt == r.firstSeen || r.entrySeen < cfg.entryConfirm))
    && (r.state != Entering ==>
      && r.arrivedAt.Some?
      && r.firstSeen + cfg.entryConfirm <= r.arrivedAt.value <= r.lastSeenAt
      && r.entrySeen == r.arrivedAt.value - r.firstSeen)
    && (r.state == Closed ==>
      && r.departedAt == Some(r.lastSeenAt + cfg.exitConfirm)
      && r.departedAt.value + cfg.exitConfirm <= clock)
  }

  /** A later visit of the same pair starts at least one exit window after every earlier
      departure. */
  ghost predicate NoOverlap(cfg: Config, tb: Table) {
    forall i, j :: 0 <= i < j < |tb| && SamePair(tb[i], tb[j]) ==>
      && tb[i].value.departedAt.Some?
      && tb[i].value.departedAt.value + cfg.exitConfirm <= tb[j].value.firstSeen
  }

  ghost predicate Timely(cfg: Config, tb: Table, clock: Time) {
    && (forall i :: 0 <= i < |tb| && tb[i].Some? ==> RowTimely(cfg, tb[i].value, clock))
    && NoOverlap(cfg, tb)
  }

  // ---------------------------------------------------------------- one row

  /** The silent LEAVING never survives an event: either the visit closes, or the same event
      resumes it, and both are published. */
  lemma QuietExitKeeps(cfg: Config, r: Row, t: Time, eventId: Option<int>)
    requires RowShape(r) && r.Open()
    ensures var q := QuietExit(cfg, r, t);
      && (q.state == Closed ==> RowShape(q) && SlotKept(Some(r), Some(q)))
      && (q.state != Closed ==>
        && RowShape(Transition(cfg, q, t, eventId))
        && SlotKept(Some(r), Some(Transition(cfg, q, t, eventId))))
  {
  }

  /** The loop's shortcut and the exit timer agree on the whole row; they differ only in the
      one LEAVING frame that the loop does not publish. */
  lemma QuietExitIsCloseOut(cfg: Config, r: Row, t: Time)
    requires r.state == Present
    ensures CloseOut(cfg, r, t).Some?
    ensures var loud, quiet := CloseOut(cfg, r, t).value, QuietExit(cfg, r, t);
      && loud.(frames := quiet.frames) == quiet
      && (quiet.state == Present <==> t - r.lastSeenAt < cfg.exitConfirm)
      && (quiet.state == Present ==> loud == quiet)
      && (quiet.state != Present ==>
        loud.frames == r.frames + [Frame(Leaving, r.arrivedAt, r.lastSeenAt, None)] + quiet.frames[|r.frames|..])
  {
  }

  // ---------------------------------------------------------------- one step, no hypothesis

  /** Inserting a row for a pair without an open one. */
  lemma InsertKeeps(tb: Table, r: Row)
    requires Shaped(tb) && RowShape(r)
    requires forall j :: 0 <= j < |tb| ==> !OpenFor(tb[j], r.pair)
    ensures Shaped(tb + [Some(r)]) && Extends(tb, tb + [Some(r)])
  {
  }

  /** Rewriting a pair's open row, its only one. */
  lemma RewriteKeeps(tb: Table, i: nat, r: Row)
    requires Shaped(tb) && RowShape(r) && i < |tb| && SlotKept(tb[i], Some(r)) && OpenFor(tb[i], r.pair)
    ensures Shaped(tb[i := Some(r)]) && Extends(tb, tb[i := Some(r)])
    ensures forall j :: 0 <= j < |tb| && j != i ==> !OpenFor(tb[j], r.pair)
  {
    ShapedIsUnique(tb);
  }

  lemma ObserveKeeps(cfg: Config, tb: Table, station: int, e: Event)
    requires Shaped(tb)
    ensures Shaped(Observe(cfg, tb, station, e))
    ensures Extends(tb, Observe(cfg, tb, station, e))
  {
    if e.Counts() {
      var p := (e.tractorId.value, station);
      var i := OpenAt(tb, p);
      assert RowShape(NewVisit(p, e));
      if i == |tb| {
        InsertKeeps(tb, NewVisit(p, e));
      } else {
        QuietExitKeeps(cfg, tb[i].value, e.wallClockAt, e.id);
        var q := QuietExit(cfg, tb[i].value, e.wallClockAt);
        if q.state == Closed {
          RewriteKeeps(tb, i, q);
          InsertKeeps(tb[i := Some(q)], NewVisit(p, e));
        } else {
          RewriteKeeps(tb, i, Transition(cfg, q, e.wallClockAt, e.id));
        }
      }
    }
  }

  lemma SweepSlotKeeps(cfg: Config, slot: Option<Row>, now: Time)
    requires slot.Some? ==> RowShape(slot.value)
    ensures SweepSlot(cfg, slot, now).Some? ==> RowShape(SweepSlot(cfg, slot, now).value)
    ensures SlotKept(slot, SweepSlot(cfg, slot, now))
  {
  }

  /** A step that treats every slot on its own keeps the table's shape if it keeps each slot's. */
  lemma PointwiseKeeps(tb: Table, tb': Table)
    requires Shaped(tb) && |tb'| == |tb|
    requires forall i :: 0 <= i < |tb| ==> SlotKept(tb[i], tb'[i]) && (tb'[i].Some? ==> RowShape(tb'[i].value))
    ensures Shaped(tb') && Extends(tb, tb')
  {
  }

  lemma {:induction false} LoopKeeps(cfg: Config, tb: Table, station: int, es: seq<Event>)
    requires Shaped(tb)
    ensures Shaped(Loop(cfg, tb, station, es))
    ensures Extends(tb, Loop(cfg, tb, station, es))
  {
    if es != [] {
      var es0 := es[..|es| - 1];
      LoopKeeps(cfg, tb, station, es0);
      ObserveKeeps(cfg, Loop(cfg, tb, station, es0), station, es[|es| - 1]);
      ExtendsTransitive(tb, Loop(cfg, tb, station, es0), Loop(cfg, tb, station, es));
    }
  }

  lemma ExtendsTransitive(a: Table, b: Table, c: Table)
    requires Shaped(a) && Shaped(b) && Extends(a, b) && Extends(b, c)
    ensures Extends(a, c)
  {
  }

  lemma SweepsKeep(cfg: Config, tb: Table, tb': Table, now: Time)
    requires Shaped(tb) && |tb'| == |tb|
    requires forall i :: 0 <= i < |tb| ==> tb'[i] == tb[i] || tb'[i] == SweepSlot(cfg, tb[i], now)
    ensures Shaped(tb') && Extends(tb, tb')
  {
    forall i | 0 <= i < |tb|
      ensures SlotKept(tb[i], tb'[i]) && (tb'[i].Some? ==> RowShape(tb'[i].value))
    {
      SweepSlotKeeps(cfg, tb[i], now);
    }
    PointwiseKeeps(tb, tb');
  }

  lemma DoKeeps(cfg: Config, tb: Table, step: Step)
    requires Shaped(tb)
    ensures Shaped(Do(cfg, tb, step))
    ensures Extends(tb, Do(cfg, tb, step))
  {
    match step
    case Video(station, events) =>
      var es := SortByFrame(events);
      if es != [] && station.Some? {
        var mid := Loop(cfg, tb, station.value, es);
        LoopKeeps(cfg, tb, station.value, es);
        SweepsKeep(cfg, mid, Do(cfg, tb, step), es[|es| - 1].wallClockAt);
        ExtendsTransitive(tb, mid, Do(cfg, tb, step));
      }
    case StaleCheck(now) => SweepsKeep(cfg, tb, Sweep(cfg, tb, now), now);
    case Startup(now) => PointwiseKeeps(tb, Recover(cfg, tb, now));
  }

  /** Every run from a well-shaped table (the empty one, in particular), whatever its clocks:
      the table stays well shaped and only grows in the sense of `SlotKept`. */
  lemma {:induction false} RunKeeps(cfg: Config, tb: Table, steps: seq<Step>)
    requires Shaped(tb)
    ensures Shaped(Run(cfg, tb, steps))
    ensures Extends(tb, Run(cfg, tb, steps))
  {
    if steps != [] {
      var before := Run(cfg, tb, steps[..|steps| - 1]);
      RunKeeps(cfg, tb, steps[..|steps| - 1]);
      DoKeeps(cfg, before, steps[|steps| - 1]);
      ExtendsTransitive(tb, before, Run(cfg, tb, steps));
    }
  }

  lemma ShapedIsUnique(tb: Table)
    requires Shaped(tb)
    ensures UniqueOpen(tb)
  {
  }
}

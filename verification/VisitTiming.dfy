/** What runs keep when the clock does not go back: the entry and exit arithmetic of every
    row, the table's CHECK constraints, and the fact that visits of one pair never overlap. */
module VisitTiming {
  import opened Wrappers
  import opened VisitModel
  import opened VisitInvariants

  // ---------------------------------------------------------------- the clock

  /** The time after a step; the clock before it when the step carries none. */
  function EndOf(step: Step, clock: Time): Time {
    match step
    case Video(_, events) =>
      var es := SortByFrame(events);
      if es == [] then clock else es[|es| - 1].wallClockAt
    case StaleCheck(now) => now
    case Startup(now) => now
  }

  ghost predicate Ascending(es: seq<Event>, clock: Time) {
    && (forall i :: 0 <= i < |es| ==> clock <= es[i].wallClockAt)
    && (forall i, j :: 0 <= i < j < |es| ==> es[i].wallClockAt <= es[j].wallClockAt)
  }

  ghost predicate InTime(step: Step, clock: Time) {
    match step
    case Video(_, events) => Ascending(SortByFrame(events), clock)
    case StaleCheck(now) => clock <= now
    case Startup(now) => clock <= now
  }

  function ClockAfter(steps: seq<Step>, clock: Time): Time {
    if steps == [] then clock
    else EndOf(steps[|steps| - 1], ClockAfter(steps[..|steps| - 1], clock))
  }

  /** No step is earlier than the one before, nor any event within a batch. */
  ghost predicate Ordered(steps: seq<Step>, clock: Time) {
    steps == [] ||
    (Ordered(steps[..|steps| - 1], clock) &&
     InTime(steps[|steps| - 1], ClockAfter(steps[..|steps| - 1], clock)))
  }

  // ---------------------------------------------------------------- one row

  lemma Later(cfg: Config, tb: Table, clock: Time, clock': Time)
    requires Timely(cfg, tb, clock) && clock <= clock'
    ensures Timely(cfg, tb, clock')
  {
  }

  lemma NewVisitTimely(cfg: Config, p: Pair, e: Event)
    ensures RowTimely(cfg, NewVisit(p, e), e.wallClockAt)
  {
  }

  lemma SightingTimely(cfg: Config, r: Row, clock: Time, t: Time, eventId: Option<int>)
    requires cfg.Ok() && RowShape(r) && RowTimely(cfg, r, clock) && clock <= t
    requires r.Open()
    ensures var q := QuietExit(cfg, r, t);
      RowTimely(cfg, if q.state == Closed then q else Transition(cfg, q, t, eventId), t)
  {
  }

  lemma SweepSlotTimely(cfg: Config, slot: Option<Row>, clock: Time, now: Time)
    requires cfg.Ok() && clock <= now
    requires slot.Some? ==> RowShape(slot.value) && RowTimely(cfg, slot.value, clock)
    ensures SweepSlot(cfg, slot, now).Some? ==> RowTimely(cfg, SweepSlot(cfg, slot, now).value, now)
  {
  }

  // ---------------------------------------------------------------- one step

  lemma {:induction false} ObserveTimely(cfg: Config, tb: Table, station: int, e: Event, clock: Time)
    requires cfg.Ok() && Shaped(tb) && Timely(cfg, tb, clock) && clock <= e.wallClockAt
    ensures Timely(cfg, Observe(cfg, tb, station, e), e.wallClockAt)
  {
    var t := e.wallClockAt;
    Later(cfg, tb, clock, t);
    if e.Counts() {
      var p := (e.tractorId.value, station);
      var i := OpenAt(tb, p);
      NewVisitTimely(cfg, p, e);
      if i < |tb| {
        SightingTimely(cfg, tb[i].value, clock, t, e.id);
        QuietExitKeeps(cfg, tb[i].value, t, e.id);
      }
      var tb' := Observe(cfg, tb, station, e);
      forall k, j | 0 <= k < j < |tb'| && SamePair(tb'[k], tb'[j])
        ensures tb'[k].value.departedAt.Some?
        ensures tb'[k].value.departedAt.value + cfg.exitConfirm <= tb'[j].value.firstSeen
      {
        if j < |tb| {
          assert SamePair(tb[k], tb[j]);
        } else if k == i {
          assert RowTimely(cfg, tb'[k].value, t);
        } else {
          ShapedIsUnique(tb);
          assert !OpenFor(tb[k], p);
          assert RowShape(tb[k].value) && RowTimely(cfg, tb[k].value, clock);
        }
      }
    }
  }

  lemma {:induction false} LoopTimely(cfg: Config, tb: Table, station: int, es: seq<Event>, clock: Time)
    requires cfg.Ok() && Shaped(tb) && Timely(cfg, tb, clock) && Ascending(es, clock)
    ensures Timely(cfg, Loop(cfg, tb, station, es), if es == [] then clock else es[|es| - 1].wallClockAt)
  {
    if es != [] {
      var es0 := es[..|es| - 1];
      LoopTimely(cfg, tb, station, es0, clock);
      LoopKeeps(cfg, tb, station, es0);
      ObserveTimely(cfg, Loop(cfg, tb, station, es0), station, es[|es| - 1],
        if es0 == [] then clock else es0[|es0| - 1].wallClockAt);
    }
  }

  /** Slot-by-slot steps keep the pairs apart, because closed rows are left alone. */
  lemma PointwiseTimely(cfg: Config, tb: Table, tb': Table, clock: Time, now: Time)
    requires Shaped(tb) && Timely(cfg, tb, clock) && Extends(tb, tb') && |tb'| == |tb|
    requires forall i :: 0 <= i < |tb| && tb'[i].Some? ==> RowTimely(cfg, tb'[i].value, now)
    ensures Timely(cfg, tb', now)
  {
  }

  lemma {:induction false} DoTimely(cfg: Config, tb: Table, step: Step, clock: Time)
    requires cfg.Ok() && Shaped(tb) && Timely(cfg, tb, clock) && InTime(step, clock)
    ensures Timely(cfg, Do(cfg, tb, step), EndOf(step, clock))
  {
    var now := EndOf(step, clock);
    DoKeeps(cfg, tb, step);
    match step
    case Video(station, events) =>
      var es := SortByFrame(events);
      if es != [] && station.Some? {
        var mid := Loop(cfg, tb, station.value, es);
        LoopKeeps(cfg, tb, station.value, es);
        LoopTimely(cfg, tb, station.value, es, clock);
        SweepsTimely(cfg, mid, SweepStation(cfg, mid, station.value, now), now, now);
      } else {
        Later(cfg, tb, clock, now);
      }
    case StaleCheck(_) =>
      SweepsTimely(cfg, tb, Sweep(cfg, tb, now), clock, now);
    case Startup(_) =>
      Later(cfg, tb, clock, now);
      PointwiseTimely(cfg, tb, Recover(cfg, tb, now), now, now);
  }

  lemma {:induction false} SweepsTimely(cfg: Config, tb: Table, tb': Table, clock: Time, now: Time)
    requires cfg.Ok() && Shaped(tb) && Timely(cfg, tb, clock) && clock <= now && |tb'| == |tb|
    requires forall i :: 0 <= i < |tb| ==> tb'[i] == tb[i] || tb'[i] == SweepSlot(cfg, tb[i], now)
    ensures Timely(cfg, tb', now)
  {
    Later(cfg, tb, clock, now);
    forall i | 0 <= i < |tb|
      ensures SlotKept(tb[i], tb'[i])
      ensures tb'[i].Some? ==> RowTimely(cfg, tb'[i].value, now)
    {
      SweepSlotTimely(cfg, tb[i], clock, now);
      SweepSlotKeeps(cfg, tb[i], now);
    }
    PointwiseTimely(cfg, tb, tb', now, now);
  }

  // ---------------------------------------------------------------- every run

  lemma {:induction false} RunTimely(cfg: Config, tb: Table, steps: seq<Step>, clock: Time)
    requires cfg.Ok() && Shaped(tb) && Timely(cfg, tb, clock) && Ordered(steps, clock)
    ensures Timely(cfg, Run(cfg, tb, steps), ClockAfter(steps, clock))
  {
    if steps != [] {
      var init := steps[..|steps| - 1];
      RunTimely(cfg, tb, init, clock);
      RunKeeps(cfg, tb, init);
      DoTimely(cfg, Run(cfg, tb, init), steps[|steps| - 1], ClockAfter(init, clock));
    }
  }

  /** The table the migration declares: every run of batches, stale checks and recoveries
      meets all four CHECK constraints and the partial unique index. */
  lemma RunMeetsConstraints(cfg: Config, steps: seq<Step>, clock: Time)
    requires cfg.Ok() && Ordered(steps, clock)
    ensures var tb := Run(cfg, [], steps);
      && (forall i :: 0 <= i < |tb| && tb[i].Some? ==>
        && DbChecks(tb[i].value)
        && (tb[i].value.arrivedAt.Some? ==> tb[i].value.arrivedAt.value <= tb[i].value.lastSeenAt))
      && UniqueOpen(tb)
  {
    RunKeeps(cfg, [], steps);
    RunTimely(cfg, [], steps, clock);
    ShapedIsUnique(Run(cfg, [], steps));
  }

  // ---------------------------------------------------------------- dwell times

  /** The generated column `duration_seconds`. */
  function Duration(r: Row): Option<Time> {
    if r.state == Closed && r.arrivedAt.Some? && r.departedAt.Some?
    then Some(r.departedAt.value - r.arrivedAt.value) else None
  }

  /** The pair's closed visits among the first `n` ids: summed duration plus one exit window each. */
  function Occupied(cfg: Config, tb: Table, p: Pair, n: nat): (s: Time)
    requires n <= |tb|
  {
    if n == 0 then 0.0
    else
      Occupied(cfg, tb, p, n - 1) +
      (if tb[n - 1].Some? && tb[n - 1].value.pair == p && Duration(tb[n - 1].value).Some?
       then Duration(tb[n - 1].value).value + cfg.exitConfirm else 0.0)
  }

  /** The end of the pair's last row so far, one exit window included, or `from` if none. */
  lemma {:induction false} OccupiedBound(cfg: Config, tb: Table, p: Pair, n: nat, clock: Time, from: Time)
    requires cfg.Ok() && Shaped(tb) && Timely(cfg, tb, clock) && n <= |tb|
    requires forall i :: 0 <= i < |tb| && tb[i].Some? && tb[i].value.pair == p ==> from <= tb[i].value.firstSeen
    ensures forall j :: n <= j < |tb| && tb[j].Some? && tb[j].value.pair == p ==>
      Occupied(cfg, tb, p, n) <= tb[j].value.firstSeen - from
    ensures from <= clock ==> Occupied(cfg, tb, p, n) <= clock - from
  {
    if n > 0 {
      OccupiedBound(cfg, tb, p, n - 1, clock, from);
      if tb[n - 1].Some? && tb[n - 1].value.pair == p && Duration(tb[n - 1].value).Some? {
        var r := tb[n - 1].value;
        assert RowTimely(cfg, r, clock);
        assert Occupied(cfg, tb, p, n - 1) <= r.firstSeen - from;
        forall j | n <= j < |tb| && tb[j].Some? && tb[j].value.pair == p
          ensures Occupied(cfg, tb, p, n) <= tb[j].value.firstSeen - from
        {
          assert SamePair(tb[n - 1], tb[j]);
        }
      }
    }
  }

  /** Over every ordered run: the closed visits of a pair plus one exit window per visit fit
      between the pair's first detection and now, and two of its visits never overlap. */
  lemma VisitsNeverOverlap(cfg: Config, steps: seq<Step>, clock: Time, p: Pair, from: Time)
    requires cfg.Ok() && Ordered(steps, clock)
    requires var tb := Run(cfg, [], steps);
      && (exists i :: 0 <= i < |tb| && tb[i].Some? && tb[i].value.pair == p && tb[i].value.firstSeen == from)
      && (forall i :: 0 <= i < |tb| && tb[i].Some? && tb[i].value.pair == p ==> from <= tb[i].value.firstSeen)
    ensures var tb := Run(cfg, [], steps);
      && Occupied(cfg, tb, p, |tb|) <= ClockAfter(steps, clock) - from
      && NoOverlap(cfg, tb)
  {
    var tb, now := Run(cfg, [], steps), ClockAfter(steps, clock);
    RunKeeps(cfg, [], steps);
    RunTimely(cfg, [], steps, clock);
    var i :| 0 <= i < |tb| && tb[i].Some? && tb[i].value.pair == p && tb[i].value.firstSeen == from;
    assert RowTimely(cfg, tb[i].value, now);
    OccupiedBound(cfg, tb, p, |tb|, now, from);
  }
}

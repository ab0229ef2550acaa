/** "A tractor parked across two video files is logged as a single visit": exactly when, for a
    visit that is only ENTERING as well as for one that has arrived. */
module VisitContinuity {
  import opened Wrappers
  import opened VisitModel
  import opened VisitInvariants
  import opened VisitTiming
  import opened VisitTracks
  import opened VisitSweeps

  /** The step holds no in-ROI detection of the pair. */
  ghost predicate Foreign(step: Step, p: Pair) {
    step.Video? && step.station == Some(p.1) ==>
      forall i :: 0 <= i < |SortByFrame(step.events)| ==> !About(SortByFrame(step.events)[i], p)
  }

  /** The time at which the step applies the exit timer to the pair's rows, if it does. */
  function Touch(step: Step, p: Pair): Option<Time> {
    match step
    case Video(station, events) =>
      var es := SortByFrame(events);
      if es != [] && station == Some(p.1) then Some(es[|es| - 1].wallClockAt) else None
    case StaleCheck(now) => Some(now)
    case Startup(_) => None
  }

  /** The last such time of a run. */
  function LastTouch(steps: seq<Step>, p: Pair): Option<Time> {
    if steps == [] then None
    else
      var last := Touch(steps[|steps| - 1], p);
      if last.Some? then last else LastTouch(steps[..|steps| - 1], p)
  }

  /** The time of the run's last start-up recovery. */
  function LastStart(steps: seq<Step>): Option<Time> {
    if steps == [] then None
    else if steps[|steps| - 1].Startup? then Some(steps[|steps| - 1].now)
    else LastStart(steps[..|steps| - 1])
  }

  /** One start-up recovery and one exit timer, each if there is a moment for it. */
  function Left(cfg: Config, slot: Option<Row>, touched: Option<Time>, started: Option<Time>): Option<Row> {
    var kept := if started.Some? then RecoverSlot(cfg, slot, started.value) else slot;
    if touched.Some? then SweepSlot(cfg, kept, touched.value) else kept
  }

  ghost predicate AllForeign(steps: seq<Step>, p: Pair) {
    forall k :: 0 <= k < |steps| ==> Foreign(steps[k], p)
  }

  /** Every row of the pair was there before: none has been inserted. */
  ghost predicate NoNewRow(tb: Table, tb': Table, p: Pair) {
    && |tb| <= |tb'|
    && forall j :: 0 <= j < |tb'| && Of(tb'[j], p) ==> j < |tb| && Of(tb[j], p)
  }

  lemma ObserveLeavesSlot(cfg: Config, tb: Table, station: int, e: Event, i: nat, p: Pair)
    requires i < |tb| && (tb[i].None? || Of(tb[i], p))
    requires station == p.1 ==> !About(e, p)
    ensures NoNewRow(tb, Observe(cfg, tb, station, e), p)
    ensures Observe(cfg, tb, station, e)[i] == tb[i]
  {
  }

  lemma {:induction false} LoopLeavesSlot(cfg: Config, tb: Table, station: int, es: seq<Event>, i: nat, p: Pair)
    requires i < |tb| && (tb[i].None? || Of(tb[i], p))
    requires station == p.1 ==> forall k :: 0 <= k < |es| ==> !About(es[k], p)
    ensures NoNewRow(tb, Loop(cfg, tb, station, es), p)
    ensures Loop(cfg, tb, station, es)[i] == tb[i]
  {
    if es != [] {
      var es0 := es[..|es| - 1];
      var mid := Loop(cfg, tb, station, es0);
      LoopLeavesSlot(cfg, tb, station, es0, i, p);
      ObserveLeavesSlot(cfg, mid, station, es[|es| - 1], i, p);
    }
  }

  /** What a foreign step does to a row of the pair: the exit timer at its touch time, the
      recovery if it is one, or nothing. */
  lemma ForeignStep(cfg: Config, tb: Table, step: Step, i: nat, p: Pair)
    requires i < |tb| && (tb[i].None? || Of(tb[i], p)) && Foreign(step, p)
    ensures NoNewRow(tb, Do(cfg, tb, step), p)
    ensures Do(cfg, tb, step)[i] == Left(cfg, tb[i], Touch(step, p), if step.Startup? then Some(step.now) else None)
  {
    hide Loop, SweepSlot, RecoverSlot;
    match step
    case Video(station, events) =>
      var es := SortByFrame(events);
      if es != [] && station.Some? {
        LoopLeavesSlot(cfg, tb, station.value, es, i, p);
        SweepsLeavePairs(cfg, Loop(cfg, tb, station.value, es));
      }
    case StaleCheck(_) => SweepsLeavePairs(cfg, tb);
    case Startup(_) => SweepsLeavePairs(cfg, tb);
  }

  lemma SweepsLeavePairs(cfg: Config, tb: Table)
    ensures forall i, now :: 0 <= i < |tb| ==>
      var swept := SweepSlot(cfg, tb[i], now);
      && (tb[i].None? ==> swept.None?)
      && (swept.Some? ==> tb[i].Some? && swept.value.pair == tb[i].value.pair)
    ensures forall i, now :: 0 <= i < |tb| ==>
      var kept := RecoverSlot(cfg, tb[i], now); kept == tb[i] || kept.None?
  {
  }

  lemma {:induction false} LastInTime(steps: seq<Step>, clock: Time, p: Pair)
    requires Ordered(steps, clock)
    ensures clock <= ClockAfter(steps, clock)
    ensures LastTouch(steps, p).Some? ==> clock <= LastTouch(steps, p).value <= ClockAfter(steps, clock)
    ensures LastStart(steps).Some? ==> clock <= LastStart(steps).value <= ClockAfter(steps, clock)
  {
    if steps != [] {
      LastInTime(steps[..|steps| - 1], clock, p);
    }
  }

  /** Later timers and recoveries absorb earlier ones, in whatever order the two kinds come. */
  lemma LeftAbsorbs(
      cfg: Config, slot: Option<Row>, t1: Option<Time>, s1: Option<Time>, t2: Option<Time>, s2: Option<Time>)
    requires t1.Some? && t2.Some? ==> t1.value <= t2.value
    requires s1.Some? && s2.Some? ==> s1.value <= s2.value
    ensures Left(cfg, Left(cfg, slot, t1, s1), t2, s2) ==
      Left(cfg, slot, if t2.Some? then t2 else t1, if s2.Some? then s2 else s1)
  {
    if slot.Some? && slot.value.state != Entering && t1.Some? && t2.Some? {
      SlotAbsorbs(cfg, slot, t1.value, t2.value);
    }
  }

  /** Any ordered run without a detection of the pair amounts, for each of its rows, to one
      recovery and one exit timer, each at the last time the run applied it. */
  lemma {:induction false} ForeignRun(cfg: Config, tb: Table, steps: seq<Step>, clock: Time, i: nat, p: Pair)
    requires i < |tb| && Of(tb[i], p) && AllForeign(steps, p) && Ordered(steps, clock)
    ensures NoNewRow(tb, Run(cfg, tb, steps), p)
    ensures Run(cfg, tb, steps)[i] == Left(cfg, tb[i], LastTouch(steps, p), LastStart(steps))
    ensures Run(cfg, tb, steps)[i].None? || Of(Run(cfg, tb, steps)[i], p)
  {
    LeftIsOwn(cfg, tb[i].value, LastTouch(steps, p), LastStart(steps));
    if steps != [] {
      hide Left, Do;
      var init, last := steps[..|steps| - 1], steps[|steps| - 1];
      assert AllForeign(init, p);
      ForeignRun(cfg, tb, init, clock, i, p);
      ForeignStep(cfg, Run(cfg, tb, init), last, i, p);
      LastInTime(init, clock, p);
      LeftAbsorbs(cfg, tb[i], LastTouch(init, p), LastStart(init),
        Touch(last, p), if last.Startup? then Some(last.now) else None);
    }
  }

  lemma LeftIsOwn(cfg: Config, r: Row, touched: Option<Time>, started: Option<Time>)
    ensures var slot := Left(cfg, Some(r), touched, started); slot.None? || Of(slot, r.pair)
  {
  }

  /** Whether an ENTERING row is spared by the last exit timer and the last recovery. */
  predicate Survives(cfg: Config, r: Row, touched: Option<Time>, started: Option<Time>) {
    && (touched.Some? ==> touched.value - r.createdAt < 3.0 * cfg.entryConfirm)
    && (started.Some? ==> started.value - r.createdAt <= cfg.entryConfirm * cfg.graceMultiplier)
  }

  /** So an ENTERING row is untouched if it survives and deleted if not. */
  lemma EnteringRun(cfg: Config, tb: Table, steps: seq<Step>, clock: Time, i: nat, p: Pair)
    requires i < |tb| && Of(tb[i], p) && tb[i].value.state == Entering
    requires AllForeign(steps, p) && Ordered(steps, clock)
    ensures i < |Run(cfg, tb, steps)|
    ensures Run(cfg, tb, steps)[i] ==
      if Survives(cfg, tb[i].value, LastTouch(steps, p), LastStart(steps)) then tb[i] else None
  {
    hide Run;
    ForeignRun(cfg, tb, steps, clock, i, p);
  }

  /** Whether an open row `r`, last touched at `touched` and last recovered at `started`, is
      still the one that a detection at `t` continues. */
  predicate Continues(cfg: Config, r: Row, touched: Option<Time>, started: Option<Time>, t: Time) {
    if r.state == Entering then Survives(cfg, r, touched, started)
    else
      && (touched.Some? ==> touched.value - r.lastSeenAt < 2.0 * cfg.exitConfirm)
      && (|| r.state == Leaving
          || (touched.Some? && touched.value - r.lastSeenAt >= cfg.exitConfirm)
          || t - r.lastSeenAt < 2.0 * cfg.exitConfirm)
  }

  /** The same row goes on, seen at the detection: an arrived one is PRESENT with its old arrival
      time; an ENTERING one has had the time since its last detection added. */
  predicate Resumed(cfg: Config, r: Row, tb': Table, i: nat, e: Event) {
    && i < |tb'| && tb'[i].Some?
    && var r' := tb'[i].value;
      && r'.pair == r.pair && r'.createdAt == r.createdAt && r'.firstSeen == r.firstSeen
      && r'.lastSeenAt == e.wallClockAt
      && if r.state == Entering then
           && r'.entrySeen == r.entrySeen + (e.wallClockAt - r.lastSeenAt)
           && r'.state == (if r'.entrySeen >= cfg.entryConfirm then Present else Entering)
           && r'.arrivedAt == (if r'.state == Present then Some(e.wallClockAt) else r.arrivedAt)
         else r'.state == Present && r'.arrivedAt == r.arrivedAt
  }

  /** The row is gone if it was ENTERING, else CLOSED one exit window after its last detection;
      a new one begins. */
  predicate Replaced(cfg: Config, r: Row, tb': Table, i: nat, p: Pair, e: Event) {
    && i < |tb'| - 1
    && tb'[|tb'| - 1] == Some(NewVisit(p, e))
    && if r.state == Entering then tb'[i].None?
       else
         && tb'[i].Some? && tb'[i].value.state == Closed
         && tb'[i].value.departedAt == Some(r.lastSeenAt + cfg.exitConfirm)
  }

  /** The pair's next detection, after any foreign run and any foreign start of its own video,
      whatever the state of its open visit: it continues the same row if and only if
      `Continues`; otherwise it starts a new visit. */
  lemma {:induction false} OneVisitAcrossVideos(
      cfg: Config, tb: Table, steps: seq<Step>, clock: Time, pre: seq<Event>, e: Event, i: nat, p: Pair)
    requires cfg.Ok() && Shaped(tb) && Ordered(steps, clock) && AllForeign(steps, p)
    requires i < |tb| && Of(tb[i], p) && tb[i].value.Open()
    requires forall k :: 0 <= k < |pre| ==> !About(pre[k], p)
    requires About(e, p)
    ensures var tb' := Observe(cfg, Loop(cfg, Run(cfg, tb, steps), p.1, pre), p.1, e);
      if Continues(cfg, tb[i].value, LastTouch(steps, p), LastStart(steps), e.wallClockAt)
      then Resumed(cfg, tb[i].value, tb', i, e)
      else Replaced(cfg, tb[i].value, tb', i, p, e)
  {
    hide Observe, Loop, Run, Left, Continues, Resumed, Replaced, LastTouch, LastStart, Shaped;
    var tb1 := Loop(cfg, Run(cfg, tb, steps), p.1, pre);
    BeforeDetection(cfg, tb, steps, clock, pre, i, p);
    if tb[i].value.state == Entering {
      AtEntering(cfg, tb[i].value, LastTouch(steps, p), LastStart(steps), tb1, e, i, p);
    } else {
      AtDetection(cfg, tb[i].value, LastTouch(steps, p), LastStart(steps), tb1, e, i, p);
    }
  }

  /** The table the detection finds: what is left of the old row, and no other open row. */
  lemma {:induction false} BeforeDetection(
      cfg: Config, tb: Table, steps: seq<Step>, clock: Time, pre: seq<Event>, i: nat, p: Pair)
    requires Shaped(tb) && Ordered(steps, clock) && AllForeign(steps, p)
    requires i < |tb| && Of(tb[i], p) && tb[i].value.Open()
    requires forall k :: 0 <= k < |pre| ==> !About(pre[k], p)
    ensures var tb1 := Loop(cfg, Run(cfg, tb, steps), p.1, pre);
      && i < |tb1| && tb1[i] == Left(cfg, tb[i], LastTouch(steps, p), LastStart(steps))
      && OpenAt(tb1, p) == (if OpenFor(tb1[i], p) then i else |tb1|)
  {
    hide Left, Shaped, Extends, Run, Loop;
    var mid := Run(cfg, tb, steps);
    var tb1 := Loop(cfg, mid, p.1, pre);
    ForeignRun(cfg, tb, steps, clock, i, p);
    LoopLeavesSlot(cfg, mid, p.1, pre, i, p);
    RunKeeps(cfg, tb, steps);
    LoopKeeps(cfg, mid, p.1, pre);
    ExtendsTransitive(tb, mid, tb1);
    OnlyOpen(tb, tb1, i, p);
  }

  /** A pair's only open row stays its only one as long as no row is inserted. */
  lemma OnlyOpen(tb: Table, tb1: Table, i: nat, p: Pair)
    requires Shaped(tb) && Extends(tb, tb1) && NoNewRow(tb, tb1, p)
    requires i < |tb| && Of(tb[i], p) && tb[i].value.Open()
    ensures OpenAt(tb1, p) == (if OpenFor(tb1[i], p) then i else |tb1|)
  {
    forall j | 0 <= j < |tb1| && j != i ensures !OpenFor(tb1[j], p) {
      if Of(tb1[j], p) {
        assert SamePair(tb[i], tb[j]);
        assert SlotKept(tb[j], tb1[j]);
      }
    }
  }

  /** What is left of an arrived row: it is PRESENT, LEAVING or CLOSED by its times. */
  lemma LeftArrived(cfg: Config, r: Row, touched: Option<Time>, started: Option<Time>)
    requires cfg.Ok() && r.Open() && r.state != Entering
    ensures var slot := Left(cfg, Some(r), touched, started);
      && slot.Some?
      && var q := slot.value;
        && q.pair == r.pair && q.createdAt == r.createdAt && q.firstSeen == r.firstSeen
        && q.arrivedAt == r.arrivedAt && q.lastSeenAt == r.lastSeenAt
        && q.state == (
          if touched.None? || touched.value - r.lastSeenAt < cfg.exitConfirm then r.state
          else if touched.value - r.lastSeenAt < 2.0 * cfg.exitConfirm then Leaving
          else Closed)
        && (q.state == Closed ==> q.departedAt == Some(r.lastSeenAt + cfg.exitConfirm))
  {
  }

  lemma ObserveOpen(cfg: Config, tb1: Table, e: Event, i: nat, p: Pair)
    requires About(e, p) && i < |tb1| && OpenAt(tb1, p) == i
    ensures var q := QuietExit(cfg, tb1[i].value, e.wallClockAt);
      Observe(cfg, tb1, p.1, e) ==
        if q.state == Closed then tb1[i := Some(q)] + [Some(NewVisit(p, e))]
        else tb1[i := Some(Transition(cfg, q, e.wallClockAt, e.id))]
  {
  }

  lemma ObserveNone(cfg: Config, tb1: Table, e: Event, p: Pair)
    requires About(e, p) && OpenAt(tb1, p) == |tb1|
    ensures Observe(cfg, tb1, p.1, e) == tb1 + [Some(NewVisit(p, e))]
  {
  }

  lemma AtDetection(
      cfg: Config, r: Row, touched: Option<Time>, started: Option<Time>, tb1: Table, e: Event, i: nat, p: Pair)
    requires cfg.Ok() && r.pair == p && r.Open() && r.state != Entering && About(e, p)
    requires i < |tb1| && tb1[i] == Left(cfg, Some(r), touched, started)
    requires OpenAt(tb1, p) == (if OpenFor(tb1[i], p) then i else |tb1|)
    ensures var tb' := Observe(cfg, tb1, p.1, e);
      if Continues(cfg, r, touched, started, e.wallClockAt)
      then Resumed(cfg, r, tb', i, e)
      else Replaced(cfg, r, tb', i, p, e)
  {
    hide Left, NewVisit, OpenAt, Observe;
    LeftArrived(cfg, r, touched, started);
    if tb1[i].value.state == Closed {
      ObserveNone(cfg, tb1, e, p);
    } else {
      ObserveOpen(cfg, tb1, e, i, p);
      DetectArrived(cfg, r, tb1[i].value, touched, started, e.wallClockAt, e.id);
      hide QuietExit, Transition, Continues;
    }
  }

  /** On the row alone: what is left of it, still open, and the detection. */
  lemma DetectArrived(
      cfg: Config, r: Row, q: Row, touched: Option<Time>, started: Option<Time>, t: Time, eventId: Option<int>)
    requires cfg.Ok() && r.Open() && r.state != Entering && q.Open()
    requires Some(q) == Left(cfg, Some(r), touched, started)
    ensures var u := QuietExit(cfg, q, t);
      if Continues(cfg, r, touched, started, t)
      then
        && u.state != Closed
        && var r' := Transition(cfg, u, t, eventId);
          && r'.pair == r.pair && r'.createdAt == r.createdAt && r'.firstSeen == r.firstSeen
          && r'.lastSeenAt == t && r'.state == Present && r'.arrivedAt == r.arrivedAt
      else u.state == Closed && u.departedAt == Some(r.lastSeenAt + cfg.exitConfirm)
  {
    LeftArrived(cfg, r, touched, started);
    hide Left;
  }

  lemma AtEntering(
      cfg: Config, r: Row, touched: Option<Time>, started: Option<Time>, tb1: Table, e: Event, i: nat, p: Pair)
    requires cfg.Ok() && r.pair == p && r.state == Entering && About(e, p)
    requires i < |tb1| && tb1[i] == Left(cfg, Some(r), touched, started)
    requires OpenAt(tb1, p) == (if OpenFor(tb1[i], p) then i else |tb1|)
    ensures var tb' := Observe(cfg, tb1, p.1, e);
      if Continues(cfg, r, touched, started, e.wallClockAt)
      then Resumed(cfg, r, tb', i, e)
      else Replaced(cfg, r, tb', i, p, e)
  {
  }

  /** The promise as the documentation has it, for a gap shorter than two exit windows: nothing
      that happens during it splits a visit that has arrived, but one that is still ENTERING
      goes on exactly if it survives. */
  lemma {:induction false} ShortGapIsOneVisit(
      cfg: Config, tb: Table, steps: seq<Step>, clock: Time, pre: seq<Event>, e: Event, i: nat, p: Pair)
    requires cfg.Ok() && Shaped(tb) && Ordered(steps, clock) && AllForeign(steps, p)
    requires i < |tb| && Of(tb[i], p) && tb[i].value.Open()
    requires forall k :: 0 <= k < |pre| ==> !About(pre[k], p)
    requires About(e, p) && ClockAfter(steps, clock) <= e.wallClockAt
    requires e.wallClockAt - tb[i].value.lastSeenAt < 2.0 * cfg.exitConfirm
    ensures var tb' := Observe(cfg, Loop(cfg, Run(cfg, tb, steps), p.1, pre), p.1, e);
      Resumed(cfg, tb[i].value, tb', i, e) <==>
        (tb[i].value.state == Entering ==> Survives(cfg, tb[i].value, LastTouch(steps, p), LastStart(steps)))
  {
    hide Observe, Loop, Run;
    OneVisitAcrossVideos(cfg, tb, steps, clock, pre, e, i, p);
    LastInTime(steps, clock, p);
  }

  /** A short first clip is where it fails. All its detections carry nearly one time, so it
      leaves its visit ENTERING; a stale check 3 * entry_confirm later deletes that, and the next
      detection starts afresh, however short the gap between the two. */
  lemma {:induction false} FirstClipForgotten(cfg: Config, p: Pair, e0: Event, check: Time, e1: Event)
    requires cfg.Ok() && cfg.entryConfirm > 0.0
    requires About(e0, p) && About(e1, p) && e0.insertStamp == e0.wallClockAt
    requires e0.wallClockAt + 3.0 * cfg.entryConfirm <= check <= e1.wallClockAt
    ensures var tb := Batch(cfg, [], Some(p.1), [e0]);
      && tb == [Some(NewVisit(p, e0))]
      && Observe(cfg, Run(cfg, tb, [StaleCheck(check)]), p.1, e1) == [None, Some(NewVisit(p, e1))]
  {
    var tb := [Some(NewVisit(p, e0))];
    SingleEvent(cfg, [], p.1, e0);
    assert Batch(cfg, [], Some(p.1), [e0]) == tb;
    Unchecked(cfg, tb, check, p);
    assert Run(cfg, tb, [StaleCheck(check)]) == Sweep(cfg, tb, check) == [None];
  }

  lemma SingleEvent(cfg: Config, tb: Table, station: int, e: Event)
    ensures Batch(cfg, tb, Some(station), [e]) ==
      SweepStation(cfg, Observe(cfg, tb, station, e), station, e.wallClockAt)
  {
    assert [e][1..] == [] && SortByFrame([e]) == [e];
    assert [e][..0] == [];
    assert Loop(cfg, tb, station, [e]) == Observe(cfg, Loop(cfg, tb, station, []), station, e);
  }

  /** For a longer gap a stale check does matter. A PRESENT visit found again after two exit
      windows or more is split, unless one check in its second window has moved it to LEAVING,
      which the loop always resumes: a single check saves it exactly then. */
  lemma {:induction false} StaleCheckRescuesIff(cfg: Config, tb: Table, check: Time, e: Event, i: nat, p: Pair)
    requires cfg.Ok() && Shaped(tb) && About(e, p)
    requires i < |tb| && Of(tb[i], p) && tb[i].value.state == Present
    requires e.wallClockAt - tb[i].value.lastSeenAt >= 2.0 * cfg.exitConfirm
    ensures Replaced(cfg, tb[i].value, Observe(cfg, tb, p.1, e), i, p, e)
    ensures var gap, saved := check - tb[i].value.lastSeenAt, Observe(cfg, Run(cfg, tb, [StaleCheck(check)]), p.1, e);
      if cfg.exitConfirm <= gap < 2.0 * cfg.exitConfirm
      then Resumed(cfg, tb[i].value, saved, i, e)
      else Replaced(cfg, tb[i].value, saved, i, p, e)
  {
    hide Observe, Run;
    OneVisitAcrossVideos(cfg, tb, [], check, [], e, i, p);
    OneVisitAcrossVideos(cfg, tb, [StaleCheck(check)], check, [], e, i, p);
    Unchecked(cfg, tb, check, p);
  }

  lemma Unchecked(cfg: Config, tb: Table, check: Time, p: Pair)
    ensures Run(cfg, tb, []) == tb && Loop(cfg, tb, p.1, []) == tb
    ensures var tb' := Run(cfg, tb, [StaleCheck(check)]); Loop(cfg, tb', p.1, []) == tb'
    ensures LastTouch([], p) == None && LastTouch([StaleCheck(check)], p) == Some(check)
    ensures Run(cfg, tb, [StaleCheck(check)]) == Sweep(cfg, tb, check)
  {
  }
}

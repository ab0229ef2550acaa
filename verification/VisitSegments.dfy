/** What the event loop computes, said without a state machine: the pair's detections fall into
    stays, and each stay is read off the detection times alone. The first of them may carry on
    a visit that was open before. */
module VisitSegments {
  import opened Wrappers
  import opened VisitModel
  import opened VisitInvariants
  import opened VisitTracks

  /** A visit row without its id, its pair and what was published about it. */
  datatype Stay = Stay(
    state: VisitState,
    createdAt: Time,
    firstSeen: Time,
    arrivedAt: Option<Time>,
    departedAt: Option<Time>,
    lastSeenAt: Time,
    entrySeen: Time,
    entryEvent: Option<int>,
    lastEvent: Option<int>)
  {
    predicate Open() {
      state != Closed
    }

    /** The moment from which an ENTERING stay's time is counted: its first detection, unless
        the clock has played tricks in an earlier video. */
    function Anchor(): Time {
      lastSeenAt - entrySeen
    }
  }

  function StayOf(r: Row): Stay {
    Stay(r.state, r.createdAt, r.firstSeen, r.arrivedAt, r.departedAt, r.lastSeenAt, r.entrySeen, r.entryEvent,
      r.lastEvent)
  }

  function Stays(rows: seq<Row>): seq<Stay> {
    seq(|rows|, i requires 0 <= i < |rows| => StayOf(rows[i]))
  }

  // ---------------------------------------------------------------- the declarative reading

  function NewStay(e: Event): Stay {
    Stay(Entering, e.insertStamp, e.wallClockAt, None, None, e.wallClockAt, 0.0, e.id, e.id)
  }

  /** The first index from `k` on that is at least `entryConfirm` after `from`. */
  function Arrival(cfg: Config, es: seq<Event>, from: Time, k: nat): (a: nat)
    requires k <= |es|
    ensures k <= a <= |es|
    decreases |es| - k
  {
    if k == |es| || es[k].wallClockAt - from >= cfg.entryConfirm then k else Arrival(cfg, es, from, k + 1)
  }

  /** The first index from `k` on that follows a silence of two exit windows; `last` is the
      detection before `k`. */
  function Silence(cfg: Config, es: seq<Event>, last: Time, k: nat): (g: nat)
    requires k <= |es|
    ensures k <= g <= |es|
    decreases |es| - k
  {
    if k == |es| || es[k].wallClockAt - last >= 2.0 * cfg.exitConfirm then k
    else Silence(cfg, es, es[k].wallClockAt, k + 1)
  }

  /** Where the stay `st` ends if the detections from `k` on follow it. A LEAVING stay is resumed
      by the next detection however late that comes. */
  function StayEnd(cfg: Config, st: Stay, es: seq<Event>, k: nat): (g: nat)
    requires k <= |es|
    ensures k <= g <= |es|
  {
    match st.state
    case Entering =>
      var a := Arrival(cfg, es, st.Anchor(), k);
      if a == |es| then a else Silence(cfg, es, es[a].wallClockAt, a + 1)
    case Leaving => if k == |es| then k else Silence(cfg, es, es[k].wallClockAt, k + 1)
    case _ => Silence(cfg, es, st.lastSeenAt, k)
  }

  function Ended(cfg: Config, st: Stay): Stay {
    st.(state := Closed, departedAt := Some(st.lastSeenAt + cfg.exitConfirm))
  }

  /** The stay `st` after the detections from `k` to its end: PRESENT once it has arrived, and
      CLOSED one exit window after its last detection if others follow. */
  function StayOver(cfg: Config, st: Stay, es: seq<Event>, k: nat): Stay
    requires k <= |es|
  {
    var g := StayEnd(cfg, st, es, k);
    var seen := if g == k then st else st.(lastSeenAt := es[g - 1].wallClockAt, lastEvent := es[g - 1].id);
    var a := if st.state == Entering then Arrival(cfg, es, st.Anchor(), k) else k;
    if st.state == Entering && a == |es| then seen.(entrySeen := seen.lastSeenAt - st.Anchor())
    else
      var here :=
        if st.state == Entering then
          seen.(state := Present, arrivedAt := Some(es[a].wallClockAt), entryEvent := es[a].id,
            entrySeen := es[a].wallClockAt - st.Anchor())
        else if g == k then seen else seen.(state := Present);
      if g < |es| then Ended(cfg, here) else here
  }

  /** The stay `st` and those after it, over the detections from `k` on. */
  function Segments(cfg: Config, st: Stay, es: seq<Event>, k: nat): seq<Stay>
    requires k <= |es|
    decreases |es| - k
  {
    var g := StayEnd(cfg, st, es, k);
    [StayOver(cfg, st, es, k)] + if g == |es| then [] else Segments(cfg, NewStay(es[g]), es, g + 1)
  }

  /** The stays of a pair whose open visit, if it has one, is `open`. */
  function Visits(cfg: Config, open: Option<Stay>, es: seq<Event>): seq<Stay> {
    if open.Some? then Segments(cfg, open.value, es, 0)
    else if es == [] then []
    else Segments(cfg, NewStay(es[0]), es, 1)
  }

  lemma {:induction false} ArrivalIsFirst(cfg: Config, es: seq<Event>, from: Time, k: nat)
    requires k <= |es|
    ensures var a := Arrival(cfg, es, from, k);
      && (forall j :: k <= j < a ==> es[j].wallClockAt - from < cfg.entryConfirm)
      && (a < |es| ==> es[a].wallClockAt - from >= cfg.entryConfirm)
    decreases |es| - k
  {
    if k < |es| {
      ArrivalIsFirst(cfg, es, from, k + 1);
    }
  }

  function Before(es: seq<Event>, last: Time, k: nat, j: nat): Time
    requires k <= j <= |es|
  {
    if j == k then last else es[j - 1].wallClockAt
  }

  lemma {:induction false} SilenceIsFirst(cfg: Config, es: seq<Event>, last: Time, k: nat)
    requires k <= |es|
    ensures var g := Silence(cfg, es, last, k);
      && (forall j :: k <= j < g ==> es[j].wallClockAt - Before(es, last, k, j) < 2.0 * cfg.exitConfirm)
      && (g < |es| ==> es[g].wallClockAt - Before(es, last, k, g) >= 2.0 * cfg.exitConfirm)
    decreases |es| - k
  {
    if k < |es| {
      SilenceIsFirst(cfg, es, es[k].wallClockAt, k + 1);
    }
  }

  // ---------------------------------------------------------------- one more detection

  /** How a further detection changes the newest stay. */
  function StayStep(cfg: Config, st: Stay, e: Event): seq<Stay> {
    var t := e.wallClockAt;
    if st.state == Entering then
      var seen := st.entrySeen + (t - st.lastSeenAt);
      var st1 := st.(lastSeenAt := t, lastEvent := e.id, entrySeen := seen);
      if seen >= cfg.entryConfirm
      then [st1.(state := Present, arrivedAt := Some(t), entryEvent := e.id)] else [st1]
    else if st.state == Present && t - st.lastSeenAt >= 2.0 * cfg.exitConfirm then
      [Ended(cfg, st), NewStay(e)]
    else
      [st.(state := Present, lastSeenAt := t, lastEvent := e.id)]
  }

  lemma {:induction false} SilenceAppend(cfg: Config, es: seq<Event>, e: Event, last: Time, k: nat)
    requires k <= |es|
    ensures Silence(cfg, es + [e], last, k) ==
      if Silence(cfg, es, last, k) < |es| then Silence(cfg, es, last, k)
      else if e.wallClockAt - Before(es, last, k, |es|) >= 2.0 * cfg.exitConfirm then |es| else |es| + 1
    decreases |es| - k
  {
    if k < |es| {
      SilenceAppend(cfg, es, e, es[k].wallClockAt, k + 1);
    }
  }

  lemma {:induction false} ArrivalAppend(cfg: Config, es: seq<Event>, e: Event, from: Time, k: nat)
    requires k <= |es|
    ensures Arrival(cfg, es + [e], from, k) ==
      if Arrival(cfg, es, from, k) < |es| then Arrival(cfg, es, from, k)
      else if e.wallClockAt - from >= cfg.entryConfirm then |es| else |es| + 1
    decreases |es| - k
  {
    if k < |es| {
      ArrivalAppend(cfg, es, e, from, k + 1);
    }
  }

  /** What a further detection does to a stay, by whether that stay had ended before it. */
  ghost predicate StayAppends(cfg: Config, st: Stay, es: seq<Event>, e: Event, k: nat)
    requires k <= |es|
  {
    var g, g' := StayEnd(cfg, st, es, k), StayEnd(cfg, st, es + [e], k);
    if g < |es| then g' == g && StayOver(cfg, st, es + [e], k) == StayOver(cfg, st, es, k)
    else
      && StayOver(cfg, st, es, k).Open()
      && g' in {|es|, |es| + 1}
      && StayStep(cfg, StayOver(cfg, st, es, k), e) ==
        [StayOver(cfg, st, es + [e], k)] + (if g' == |es| then [NewStay(e)] else [])
  }

  lemma EnteringAppends(cfg: Config, st: Stay, es: seq<Event>, e: Event, k: nat)
    requires k <= |es| && st.state == Entering
    ensures StayAppends(cfg, st, es, e, k)
  {
    var a := Arrival(cfg, es, st.Anchor(), k);
    ArrivalAppend(cfg, es, e, st.Anchor(), k);
    if a < |es| {
      SilenceAppend(cfg, es, e, es[a].wallClockAt, a + 1);
    }
  }

  lemma StayEndAppend(cfg: Config, st: Stay, es: seq<Event>, e: Event, k: nat)
    requires k <= |es| && st.Open()
    ensures StayAppends(cfg, st, es, e, k)
  {
    match st.state
    case Entering => EnteringAppends(cfg, st, es, e, k);
    case Leaving =>
      if k < |es| {
        SilenceAppend(cfg, es, e, es[k].wallClockAt, k + 1);
      }
    case Present => SilenceAppend(cfg, es, e, st.lastSeenAt, k);
  }

  lemma SegmentsUnfold(cfg: Config, st: Stay, es: seq<Event>, k: nat)
    requires k <= |es|
    ensures var g := StayEnd(cfg, st, es, k);
      Segments(cfg, st, es, k) ==
        [StayOver(cfg, st, es, k)] + if g == |es| then [] else Segments(cfg, NewStay(es[g]), es, g + 1)
  {
  }

  /** A further detection changes only the last stay, and as `StayStep` says. */
  lemma {:induction false} SegmentsAppend(cfg: Config, st: Stay, es: seq<Event>, e: Event, k: nat)
    requires k <= |es| && st.Open()
    ensures var before := Segments(cfg, st, es, k);
      && before != [] && before[|before| - 1].Open()
      && Segments(cfg, st, es + [e], k) == before[..|before| - 1] + StayStep(cfg, before[|before| - 1], e)
    decreases |es| - k
  {
    hide StayStep, StayEnd, StayOver, Segments, NewStay;
    var g := StayEnd(cfg, st, es, k);
    StayEndAppend(cfg, st, es, e, k);
    SegmentsUnfold(cfg, st, es, k);
    SegmentsUnfold(cfg, st, es + [e], k);
    if g < |es| {
      NewStayOpen(es[g]);
      SegmentsAppend(cfg, NewStay(es[g]), es, e, g + 1);
      var first, rest := [StayOver(cfg, st, es, k)], Segments(cfg, NewStay(es[g]), es, g + 1);
      assert (first + rest)[..|rest|] == first + rest[..|rest| - 1];
    } else {
      FreshStay(cfg, es + [e]);
    }
  }

  lemma NewStayOpen(e: Event)
    ensures NewStay(e).Open()
  {
  }

  lemma FreshStay(cfg: Config, es: seq<Event>)
    requires es != []
    ensures Segments(cfg, NewStay(es[|es| - 1]), es, |es|) == [NewStay(es[|es| - 1])]
  {
  }

  // ---------------------------------------------------------------- the loop

  /** The pair's rows that no detection can touch any more. */
  function Settled(rows: seq<Row>): seq<Row> {
    if rows != [] && rows[|rows| - 1].Open() then rows[..|rows| - 1] else rows
  }

  function OpenStay(rows: seq<Row>): Option<Stay> {
    if rows != [] && rows[|rows| - 1].Open() then Some(StayOf(rows[|rows| - 1])) else None
  }

  /** A track's open visit is followed by exactly the stays of the detections. */
  lemma {:induction false} SeeAllSegments(cfg: Config, rows: seq<Row>, p: Pair, es: seq<Event>)
    requires cfg.exitConfirm > 0.0
    ensures var out, n := SeeAll(cfg, rows, p, es), |Settled(rows)|;
      && |out| >= n && out[..n] == Settled(rows)
      && Stays(out[n..]) == Visits(cfg, OpenStay(rows), es)
    ensures OneOpen(Visits(cfg, OpenStay(rows), es))
  {
    if es != [] {
      var es0, e := es[..|es| - 1], es[|es| - 1];
      assert es == es0 + [e];
      hide Segments, StayStep, See;
      SeeAllSegments(cfg, rows, p, es0);
      VisitsAppend(cfg, OpenStay(rows), es0, e);
      SeeStep(cfg, Settled(rows), SeeAll(cfg, rows, p, es0), Visits(cfg, OpenStay(rows), es0), p, e);
      assert Visits(cfg, OpenStay(rows), es) ==
        AfterOne(cfg, Visits(cfg, OpenStay(rows), es0), e);
      AfterOneOpen(cfg, Visits(cfg, OpenStay(rows), es0), e);
    } else if OpenStay(rows).Some? {
      assert rows[|rows| - 1..] == [rows[|rows| - 1]];
      assert StayOver(cfg, OpenStay(rows).value, es, 0) == OpenStay(rows).value;
    }
  }

  /** Only the last one can be, and is, open. */
  ghost predicate OneOpen(stays: seq<Stay>) {
    && (forall i :: 0 <= i < |stays| - 1 ==> stays[i].state == Closed)
    && (stays != [] ==> stays[|stays| - 1].Open())
  }

  function AfterOne(cfg: Config, stays: seq<Stay>, e: Event): seq<Stay> {
    if stays == [] then [NewStay(e)] else stays[..|stays| - 1] + StayStep(cfg, stays[|stays| - 1], e)
  }

  lemma AfterOneOpen(cfg: Config, stays: seq<Stay>, e: Event)
    requires OneOpen(stays)
    ensures OneOpen(AfterOne(cfg, stays, e))
  {
  }

  lemma VisitsAppend(cfg: Config, open: Option<Stay>, es: seq<Event>, e: Event)
    requires open.Some? ==> open.value.Open()
    ensures Visits(cfg, open, es + [e]) == AfterOne(cfg, Visits(cfg, open, es), e)
  {
    hide StayStep;
    if open.Some? {
      SegmentsAppend(cfg, open.value, es, e, 0);
    } else if es == [] {
      FreshStay(cfg, [e]);
    } else {
      SegmentsAppend(cfg, NewStay(es[0]), es, e, 1);
      assert (es + [e])[0] == es[0];
    }
  }

  lemma SeeStep(cfg: Config, settled: seq<Row>, mid: seq<Row>, stays: seq<Stay>, p: Pair, e: Event)
    requires cfg.exitConfirm > 0.0
    requires |mid| >= |settled| && mid[..|settled|] == settled && Stays(mid[|settled|..]) == stays
    requires OneOpen(stays)
    requires stays == [] ==> settled == [] || !settled[|settled| - 1].Open()
    ensures var out := See(cfg, mid, p, e);
      && |out| >= |settled| && out[..|settled|] == settled
      && Stays(out[|settled|..]) == AfterOne(cfg, stays, e)
  {
    var n := |settled|;
    if stays == [] {
      assert mid == settled;
    } else {
      assert StayOf(mid[|mid| - 1]) == stays[|stays| - 1];
    }
  }

  lemma {:induction false} TrackSettled(tb: Table, p: Pair)
    requires Shaped(tb)
    ensures forall k :: 0 <= k < |Settled(Track(tb, p))| ==> !Settled(Track(tb, p))[k].Open()
  {
    if tb != [] {
      var n := |tb| - 1;
      var init := Track(tb[..n], p);
      if Of(tb[n], p) {
        assert forall i :: 0 <= i < n && Of(tb[i], p) ==> SamePair(tb[i], tb[n]);
        TrackAllClosed(tb[..n], p);
        assert (init + [tb[n].value])[..|init|] == init;
      } else {
        TrackSettled(tb[..n], p);
        assert Track(tb, p) == init;
      }
    }
  }

  lemma {:induction false} TrackAllClosed(tb: Table, p: Pair)
    requires forall i :: 0 <= i < |tb| && Of(tb[i], p) ==> tb[i].value.state == Closed
    ensures forall k :: 0 <= k < |Track(tb, p)| ==> !Track(tb, p)[k].Open()
  {
    if tb != [] {
      TrackAllClosed(tb[..|tb| - 1], p);
    }
  }

  /** The event loop on a mixed batch, for any pair: its closed rows are as they were, and its
      open row, if any, gives way to the declarative stays of its own in-ROI detections,
      whatever else the batch holds and whether or not the clock is monotone. */
  lemma LoopSegments(cfg: Config, tb: Table, station: int, es: seq<Event>, p: Pair)
    requires cfg.exitConfirm > 0.0 && Shaped(tb) && p.1 == station
    ensures var rows, after := Track(tb, p), Track(Loop(cfg, tb, station, es), p);
      var n := |Settled(rows)|;
      && |after| >= n && after[..n] == Settled(rows)
      && Stays(after[n..]) == Visits(cfg, OpenStay(rows), Mine(es, p))
  {
    LoopOnTrack(cfg, tb, station, es, p);
    SeeAllSegments(cfg, Track(tb, p), p, Mine(es, p));
  }

  // ---------------------------------------------------------------- the final exit timer

  /** What the exit timer at `now` leaves of a stay. */
  function TimedOut(cfg: Config, st: Stay, now: Time): seq<Stay> {
    match st.state
    case Closed => [st]
    case Entering => if now - st.createdAt >= 3.0 * cfg.entryConfirm then [] else [st]
    case _ =>
      if now - st.lastSeenAt >= 2.0 * cfg.exitConfirm then [Ended(cfg, st)]
      else if now - st.lastSeenAt >= cfg.exitConfirm then [st.(state := Leaving)]
      else [st]
  }

  /** Only the last stay can be open, so only it is timed out. */
  function Final(cfg: Config, stays: seq<Stay>, now: Time): seq<Stay> {
    if stays == [] then [] else stays[..|stays| - 1] + TimedOut(cfg, stays[|stays| - 1], now)
  }

  lemma {:induction false} SweepTrackConcat(cfg: Config, a: seq<Row>, b: seq<Row>, now: Time)
    ensures SweepTrack(cfg, a + b, now) == SweepTrack(cfg, a, now) + SweepTrack(cfg, b, now)
  {
    if b == [] {
      assert a + b == a;
    } else {
      SweepTrackConcat(cfg, a, b[..|b| - 1], now);
      assert (a + b)[..|a + b| - 1] == a + b[..|b| - 1];
    }
  }

  lemma {:induction false} SweepTrackClosed(cfg: Config, rows: seq<Row>, now: Time)
    requires forall k :: 0 <= k < |rows| ==> !rows[k].Open()
    ensures SweepTrack(cfg, rows, now) == rows
  {
    if rows != [] {
      SweepTrackClosed(cfg, rows[..|rows| - 1], now);
    }
  }

  lemma SweepIsTimedOut(cfg: Config, r: Row, now: Time)
    requires cfg.exitConfirm > 0.0
    ensures var slot := SweepSlot(cfg, Some(r), now);
      TimedOut(cfg, StayOf(r), now) == if slot.Some? then [StayOf(slot.value)] else []
  {
  }

  lemma StaysConcat(a: seq<Row>, b: seq<Row>)
    ensures Stays(a + b) == Stays(a) + Stays(b)
  {
  }

  lemma SweepTrackFinal(cfg: Config, rows: seq<Row>, now: Time)
    requires cfg.exitConfirm > 0.0 && OneOpen(Stays(rows))
    ensures Stays(SweepTrack(cfg, rows, now)) == Final(cfg, Stays(rows), now)
  {
    if rows != [] {
      var init, last := rows[..|rows| - 1], rows[|rows| - 1];
      assert rows == init + [last];
      StaysConcat(init, [last]);
      hide SweepSlot, TimedOut, StayOf, Row.Open, Stay.Open;
      forall k | 0 <= k < |init| ensures !init[k].Open() {
        assert Stays(rows)[k] == StayOf(init[k]);
        ClosedStay(init[k]);
      }
      SweepTrackClosed(cfg, init, now);
      SweepIsTimedOut(cfg, last, now);
      var slot := SweepSlot(cfg, Some(last), now);
      StaysConcat(init, if slot.Some? then [slot.value] else []);
      hide Stays;
      assert Stays(rows)[..|rows| - 1] == Stays(init);
    }
  }

  lemma ClosedStay(r: Row)
    ensures r.Open() <==> StayOf(r).state != Closed
  {
  }

  /** A whole video, declaratively: a pair's closed rows stay, and its open row, if any, gives
      way to the stays of its own in-ROI detections, the last of them timed out once, at the
      last wall clock of the video. */
  lemma {:induction false} VideoSegments(cfg: Config, tb: Table, station: int, events: seq<Event>, p: Pair)
    requires cfg.exitConfirm > 0.0 && Shaped(tb) && p.1 == station && events != []
    ensures SortByFrame(events) != []
    ensures var es := SortByFrame(events);
      var rows, after := Track(tb, p), Track(Batch(cfg, tb, Some(station), events), p);
      var n := |Settled(rows)|;
      && |after| >= n && after[..n] == Settled(rows)
      && Stays(after[n..]) == Final(cfg, Visits(cfg, OpenStay(rows), Mine(es, p)), es[|es| - 1].wallClockAt)
  {
    hide Batch, Visits, See, SweepTrack, Shaped, Settled, OpenStay, Final;
    var es, rows := SortByFrame(events), Track(tb, p);
    BatchOnTrack(cfg, tb, station, events, p);
    SeeAllSegments(cfg, rows, p, Mine(es, p));
    var mid, now := SeeAll(cfg, rows, p, Mine(es, p)), es[|es| - 1].wallClockAt;
    var gained := mid[|Settled(rows)|..];
    assert mid == Settled(rows) + gained;
    TrackSettled(tb, p);
    SweepTrackConcat(cfg, Settled(rows), gained, now);
    SweepTrackClosed(cfg, Settled(rows), now);
    SweepTrackFinal(cfg, gained, now);
  }
}

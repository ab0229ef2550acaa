/** The CHECK constraints of the visits table when the clock may go back: exactly which batches,
    stale checks and runs never show the database a row that it rejects, neither at a commit nor
    at one of the flushes that inserting a visit causes inside a batch. */
module VisitChecks {
  import opened Wrappers
  import opened VisitModel
  import opened VisitInvariants
  import opened VisitTiming
  import opened VisitTracks
  import opened VisitSegments

  // ---------------------------------------------------------------- one pair

  /** `DbChecks`, read off a stay. */
  predicate StayChecks(st: Stay) {
    && (st.arrivedAt.Some? || st.state == Entering)
    && (st.state == Closed <==> st.departedAt.Some?)
    && (st.departedAt.None? || st.arrivedAt.None? || st.arrivedAt.value < st.departedAt.value)
    && st.entrySeen >= 0.0
  }

  ghost predicate AllStayChecks(stays: seq<Stay>) {
    forall i :: 0 <= i < |stays| ==> StayChecks(stays[i])
  }

  ghost predicate TrackChecks(rows: seq<Row>) {
    forall i :: 0 <= i < |rows| ==> DbChecks(rows[i])
  }

  /** What the detection times must satisfy for the stay `st`, continued by the detections from
      `k` on and timed out at `now` if there is such a moment: one that never arrives was last
      seen no earlier than its anchor, or is deleted; one that closes arrived less than an exit
      window after its last detection. */
  predicate StayMeets(cfg: Config, st: Stay, es: seq<Event>, k: nat, now: Option<Time>)
    requires k <= |es|
  {
    var g := StayEnd(cfg, st, es, k);
    var last := Before(es, st.lastSeenAt, k, g);
    var closes := g < |es| || (now.Some? && now.value - last >= 2.0 * cfg.exitConfirm);
    if st.state == Entering then
      var a := Arrival(cfg, es, st.Anchor(), k);
      if a == |es| then st.Anchor() <= last || (now.Some? && now.value - st.createdAt >= 3.0 * cfg.entryConfirm)
      else closes ==> es[a].wallClockAt < last + cfg.exitConfirm
    else closes ==> st.arrivedAt.Some? && st.arrivedAt.value < last + cfg.exitConfirm
  }

  predicate Meets(cfg: Config, st: Stay, es: seq<Event>, k: nat, now: Option<Time>)
    requires k <= |es|
    decreases |es| - k
  {
    var g := StayEnd(cfg, st, es, k);
    && StayMeets(cfg, st, es, k, now)
    && (g < |es| ==> Meets(cfg, NewStay(es[g]), es, g + 1, now))
  }

  /** The same for all stays of a pair whose open visit, if any, is `open`. */
  predicate VisitsMeet(cfg: Config, open: Option<Stay>, es: seq<Event>, now: Option<Time>) {
    if open.Some? then Meets(cfg, open.value, es, 0, now)
    else es == [] || Meets(cfg, NewStay(es[0]), es, 1, now)
  }

  function Finally(cfg: Config, stays: seq<Stay>, now: Option<Time>): seq<Stay> {
    if now.Some? then Final(cfg, stays, now.value) else stays
  }

  /** An open stay that has arrived only when it is not ENTERING, and not departed. */
  predicate Running(st: Stay) {
    st.Open() && st.departedAt.None? && (st.state != Entering ==> st.arrivedAt.Some?)
  }

  lemma TimedOutChecks(cfg: Config, st: Stay, now: Time)
    requires cfg.exitConfirm > 0.0 && Running(st)
    ensures AllStayChecks(TimedOut(cfg, st, now)) <==>
      if st.state == Entering then
        st.entrySeen >= 0.0 || now - st.createdAt >= 3.0 * cfg.entryConfirm
      else
        && st.entrySeen >= 0.0
        && (now - st.lastSeenAt >= 2.0 * cfg.exitConfirm ==> st.arrivedAt.value < st.lastSeenAt + cfg.exitConfirm)
  {
    var end := TimedOut(cfg, st, now);
    assert AllStayChecks(end) <==> end == [] || StayChecks(end[0]);
  }

  lemma ConsChecks(first: Stay, rest: seq<Stay>)
    ensures AllStayChecks([first] + rest) <==> StayChecks(first) && AllStayChecks(rest)
  {
    if AllStayChecks([first] + rest) {
      assert StayChecks(([first] + rest)[0]);
      forall i | 0 <= i < |rest| ensures StayChecks(rest[i]) {
        assert ([first] + rest)[i + 1] == rest[i];
      }
    }
  }

  /** One stay: its own end if others follow it, the final timer if not. */
  lemma StayMeetsIff(cfg: Config, st: Stay, es: seq<Event>, k: nat, now: Option<Time>)
    requires cfg.Ok() && k <= |es| && StayChecks(st) && st.Open()
    ensures var over := StayOver(cfg, st, es, k);
      StayMeets(cfg, st, es, k, now) <==>
        if StayEnd(cfg, st, es, k) < |es| || now.None? then StayChecks(over)
        else AllStayChecks(TimedOut(cfg, over, now.value))
  {
    ArrivalIsFirst(cfg, es, st.Anchor(), k);
    var over := StayOver(cfg, st, es, k);
    if StayEnd(cfg, st, es, k) == |es| && now.Some? {
      TimedOutChecks(cfg, over, now.value);
    }
  }

  lemma {:induction false} MeetsIff(cfg: Config, st: Stay, es: seq<Event>, k: nat, now: Option<Time>)
    requires cfg.Ok() && k <= |es| && StayChecks(st) && st.Open()
    ensures Segments(cfg, st, es, k) != []
    ensures Meets(cfg, st, es, k, now) <==> AllStayChecks(Finally(cfg, Segments(cfg, st, es, k), now))
    decreases |es| - k
  {
    hide StayMeets, StayOver, StayEnd, StayChecks, TimedOut, AllStayChecks, NewStay, Segments;
    var g := StayEnd(cfg, st, es, k);
    var first := StayOver(cfg, st, es, k);
    StayMeetsIff(cfg, st, es, k, now);
    SegmentsUnfold(cfg, st, es, k);
    if g < |es| {
      NewStayChecks(es[g]);
      MeetsIff(cfg, NewStay(es[g]), es, g + 1, now);
      var rest := Segments(cfg, NewStay(es[g]), es, g + 1);
      assert ([first] + rest)[..|rest|] == [first] + rest[..|rest| - 1];
      assert Finally(cfg, [first] + rest, now) == [first] + Finally(cfg, rest, now);
      ConsChecks(first, Finally(cfg, rest, now));
    } else {
      ConsChecks(first, []);
      NoChecks();
      assert [first] + [] == [first];
      assert now.Some? ==> Finally(cfg, [first], now) == TimedOut(cfg, first, now.value);
    }
  }

  lemma NoChecks()
    ensures AllStayChecks([])
  {
  }

  lemma NewStayChecks(e: Event)
    ensures StayChecks(NewStay(e)) && NewStay(e).Open()
  {
  }

  lemma VisitsMeetIff(cfg: Config, open: Option<Stay>, es: seq<Event>, now: Option<Time>)
    requires cfg.Ok() && (open.Some? ==> StayChecks(open.value) && open.value.Open())
    ensures VisitsMeet(cfg, open, es, now) <==> AllStayChecks(Finally(cfg, Visits(cfg, open, es), now))
  {
    if open.Some? {
      MeetsIff(cfg, open.value, es, 0, now);
    } else if es != [] {
      NewStayChecks(es[0]);
      MeetsIff(cfg, NewStay(es[0]), es, 1, now);
    }
  }

  /** A track whose settled rows are accepted is accepted if its other rows are. */
  lemma TrackChecksSplit(rows: seq<Row>, n: nat)
    requires n <= |rows| && TrackChecks(rows[..n])
    ensures TrackChecks(rows) <==> AllStayChecks(Stays(rows[n..]))
  {
    var stays := Stays(rows[n..]);
    assert forall i :: 0 <= i < |stays| ==> stays[i] == StayOf(rows[n + i]);
    assert forall i :: 0 <= i < n ==> rows[i] == rows[..n][i];
    forall i | 0 <= i < |rows| && AllStayChecks(stays) ensures DbChecks(rows[i]) {
      if i >= n {
        assert stays[i - n] == StayOf(rows[i]);
      }
    }
  }

  lemma TrackOpening(rows: seq<Row>)
    requires TrackChecks(rows)
    ensures TrackChecks(Settled(rows))
    ensures OpenStay(rows).Some? ==> StayChecks(OpenStay(rows).value) && OpenStay(rows).value.Open()
  {
  }

  /** The event loop, for one pair of an accepted table: its rows are acceptable after the
      events `es` exactly when its detections among them meet the condition. This is what any
      flush inside the loop finds; the condition on the batch's commit follows. */
  lemma LoopMeetsIff(cfg: Config, tb: Table, station: int, es: seq<Event>, p: Pair)
    requires cfg.Ok() && Shaped(tb) && p.1 == station && TrackChecks(Track(tb, p))
    ensures TrackChecks(Track(Loop(cfg, tb, station, es), p)) <==>
      VisitsMeet(cfg, OpenStay(Track(tb, p)), Mine(es, p), None)
  {
    hide VisitsMeet, Visits, Settled, OpenStay, Loop, TrackChecks, AllStayChecks, Shaped;
    var rows := Track(tb, p);
    TrackOpening(rows);
    LoopSegments(cfg, tb, station, es, p);
    TrackChecksSplit(Track(Loop(cfg, tb, station, es), p), |Settled(rows)|);
    VisitsMeetIff(cfg, OpenStay(rows), Mine(es, p), None);
  }

  /** A whole video, for one pair, the final exit timer included. */
  lemma {:induction false} VideoMeetsIff(cfg: Config, tb: Table, station: int, events: seq<Event>, p: Pair)
    requires cfg.Ok() && Shaped(tb) && p.1 == station && events != [] && TrackChecks(Track(tb, p))
    ensures SortByFrame(events) != []
    ensures var es := SortByFrame(events);
      TrackChecks(Track(Batch(cfg, tb, Some(station), events), p)) <==>
        VisitsMeet(cfg, OpenStay(Track(tb, p)), Mine(es, p), Some(es[|es| - 1].wallClockAt))
  {
    hide VisitsMeet, Visits, Settled, OpenStay, Batch, TrackChecks, AllStayChecks, Shaped;
    var rows := Track(tb, p);
    TrackOpening(rows);
    VideoSegments(cfg, tb, station, events, p);
    var es := SortByFrame(events);
    TrackChecksSplit(Track(Batch(cfg, tb, Some(station), events), p), |Settled(rows)|);
    VisitsMeetIff(cfg, OpenStay(rows), Mine(es, p), Some(es[|es| - 1].wallClockAt));
  }

  // ---------------------------------------------------------------- the table

  ghost predicate MeetsChecks(tb: Table) {
    forall i :: 0 <= i < |tb| && tb[i].Some? ==> DbChecks(tb[i].value)
  }

  ghost predicate PairChecks(tb: Table, p: Pair) {
    forall i :: 0 <= i < |tb| && Of(tb[i], p) ==> DbChecks(tb[i].value)
  }

  lemma {:induction false} TrackChecksIff(tb: Table, p: Pair)
    ensures TrackChecks(Track(tb, p)) <==> PairChecks(tb, p)
  {
    if tb != [] {
      var n := |tb| - 1;
      var rows := Track(tb[..n], p);
      TrackChecksIff(tb[..n], p);
      assert forall i :: 0 <= i < n ==> tb[..n][i] == tb[i];
      assert PairChecks(tb, p) <==> PairChecks(tb[..n], p) && (Of(tb[n], p) ==> DbChecks(tb[n].value));
      if Of(tb[n], p) {
        assert (rows + [tb[n].value])[|rows|] == tb[n].value;
        assert forall i :: 0 <= i < |rows| ==> (rows + [tb[n].value])[i] == rows[i];
      } else {
        assert Track(tb, p) == rows;
      }
    }
  }

  lemma ByPairs(tb: Table)
    ensures MeetsChecks(tb) <==> forall p :: PairChecks(tb, p)
  {
    if forall p :: PairChecks(tb, p) {
      forall i | 0 <= i < |tb| && tb[i].Some? ensures DbChecks(tb[i].value) {
        assert PairChecks(tb, tb[i].value.pair);
      }
    }
  }

  // ---------------------------------------------------------------- flushes inside a batch

  /** After the detections `es` of its pair, `e` begins a new stay. */
  predicate Begins(cfg: Config, open: Option<Stay>, es: seq<Event>, e: Event) {
    var before := Visits(cfg, open, es);
    before == [] ||
    (before[|before| - 1].state == Present &&
      e.wallClockAt - before[|before| - 1].lastSeenAt >= 2.0 * cfg.exitConfirm)
  }

  /** The n-th event, counted from 1, begins a stay of its pair; its visit is inserted, and the
      session flushes whatever the events so far have changed. */
  predicate FlushedAt(cfg: Config, tb: Table, station: int, es: seq<Event>, n: nat)
    requires 0 < n <= |es|
  {
    var e := es[n - 1];
    e.Counts() &&
    var p := (e.tractorId.value, station);
    Begins(cfg, OpenStay(Track(tb, p)), Mine(es[..n - 1], p), e)
  }

  /** A pair's open row, seen on its track. */
  lemma OpenOnTrack(tb: Table, p: Pair)
    requires Shaped(tb)
    ensures var i := OpenAt(tb, p);
      OpenStay(Track(tb, p)) == if i < |tb| then Some(StayOf(tb[i].value)) else None
  {
    var i := OpenAt(tb, p);
    if i < |tb| {
      assert forall j :: i < j < |tb| ==> !SamePair(tb[i], tb[j]);
      TrackUpdate(tb, p, i, tb[i].value);
    } else {
      TrackClosed(tb, p);
    }
  }

  /** On the table: exactly the events at which the loop adds a row. */
  lemma FlushedIff(cfg: Config, tb: Table, station: int, es: seq<Event>, n: nat)
    requires cfg.exitConfirm > 0.0 && Shaped(tb) && 0 < n <= |es|
    ensures FlushedAt(cfg, tb, station, es, n) <==>
      |Loop(cfg, tb, station, es[..n])| > |Loop(cfg, tb, station, es[..n - 1])|
  {
    var es0, e := es[..n - 1], es[n - 1];
    var mid := Loop(cfg, tb, station, es0);
    assert es[..n] == es0 + [e];
    LoopAppend(cfg, tb, station, es0, e);
    LoopKeeps(cfg, tb, station, es0);
    if e.Counts() {
      var p := (e.tractorId.value, station);
      var rows := Track(tb, p);
      LoopOnTrack(cfg, tb, station, es0, p);
      SeeAllSegments(cfg, rows, p, Mine(es0, p));
      TrackSettled(tb, p);
      NewestStay(Track(mid, p), Settled(rows), Visits(cfg, OpenStay(rows), Mine(es0, p)));
      OpenOnTrack(mid, p);
      hide Loop, Track, Visits, Settled, Mine, Shaped;
      ObserveInserts(cfg, mid, station, e);
    }
  }

  lemma NewestStay(rows: seq<Row>, settled: seq<Row>, stays: seq<Stay>)
    requires |rows| >= |settled| && rows[..|settled|] == settled && Stays(rows[|settled|..]) == stays
    requires OneOpen(stays) && forall k :: 0 <= k < |settled| ==> !settled[k].Open()
    ensures OpenStay(rows) == if stays == [] then None else Some(stays[|stays| - 1])
  {
    if stays == [] {
      assert rows == settled;
    } else {
      assert StayOf(rows[|rows| - 1]) == stays[|stays| - 1];
    }
  }

  lemma ObserveInserts(cfg: Config, mid: Table, station: int, e: Event)
    requires cfg.exitConfirm > 0.0 && e.Counts()
    ensures var i := OpenAt(mid, (e.tractorId.value, station));
      |Observe(cfg, mid, station, e)| > |mid| <==>
        i == |mid| || (mid[i].value.state == Present &&
          e.wallClockAt - mid[i].value.lastSeenAt >= 2.0 * cfg.exitConfirm)
  {
  }

  /** All pairs of the station have acceptable times so far. */
  ghost predicate SoFarMeets(cfg: Config, tb: Table, station: int, es: seq<Event>) {
    forall p: Pair :: p.1 == station ==> VisitsMeet(cfg, OpenStay(Track(tb, p)), Mine(es, p), None)
  }

  lemma LoopTableIff(cfg: Config, tb: Table, station: int, es: seq<Event>)
    requires cfg.Ok() && Shaped(tb) && MeetsChecks(tb)
    ensures MeetsChecks(Loop(cfg, tb, station, es)) <==> SoFarMeets(cfg, tb, station, es)
  {
    var tb' := Loop(cfg, tb, station, es);
    ByPairs(tb);
    ByPairs(tb');
    forall p: Pair
      ensures PairChecks(tb', p) <==>
        (p.1 == station ==> VisitsMeet(cfg, OpenStay(Track(tb, p)), Mine(es, p), None))
    {
      hide VisitsMeet, OpenStay, Loop, Mine, Track, PairChecks;
      TrackChecksIff(tb, p);
      TrackChecksIff(tb', p);
      if p.1 == station {
        LoopMeetsIff(cfg, tb, station, es, p);
      } else {
        LoopElsewhere(cfg, tb, station, es, p);
      }
    }
  }

  // ---------------------------------------------------------------- one step

  /** All that the step flushes or commits is accepted. */
  ghost predicate StepAccepted(cfg: Config, tb: Table, step: Step) {
    && MeetsChecks(Do(cfg, tb, step))
    && (step.Video? && step.station.Some? ==> LoopAccepted(cfg, tb, step.station.value, SortByFrame(step.events)))
  }

  /** If the n-th event of the loop inserts a row, the table is accepted then. */
  ghost predicate FlushAccepted(cfg: Config, tb: Table, station: int, es: seq<Event>, n: nat)
    requires 0 < n <= |es|
  {
    |Loop(cfg, tb, station, es[..n])| > |Loop(cfg, tb, station, es[..n - 1])| ==>
      MeetsChecks(Loop(cfg, tb, station, es[..n]))
  }

  ghost predicate LoopAccepted(cfg: Config, tb: Table, station: int, es: seq<Event>) {
    forall n :: 0 < n <= |es| ==> FlushAccepted(cfg, tb, station, es, n)
  }

  /** If the n-th event begins a stay, the times so far are acceptable. */
  ghost predicate FlushMeets(cfg: Config, tb: Table, station: int, es: seq<Event>, n: nat)
    requires 0 < n <= |es|
  {
    FlushedAt(cfg, tb, station, es, n) ==> SoFarMeets(cfg, tb, station, es[..n])
  }

  ghost predicate LoopMeets(cfg: Config, tb: Table, station: int, es: seq<Event>) {
    forall n :: 0 < n <= |es| ==> FlushMeets(cfg, tb, station, es, n)
  }

  /** What a step must find for the database to accept what it flushes and commits. */
  ghost predicate StepMeets(cfg: Config, tb: Table, step: Step) {
    match step
    case Video(station, events) =>
      var es := SortByFrame(events);
      es != [] && station.Some? ==>
        && LoopMeets(cfg, tb, station.value, es)
        && EndMeets(cfg, tb, station.value, es)
    case StaleCheck(now) =>
      forall i :: 0 <= i < |tb| && tb[i].Some? && tb[i].value.state in {Present, Leaving} ==>
        now - tb[i].value.lastSeenAt >= 2.0 * cfg.exitConfirm ==>
          tb[i].value.arrivedAt.Some? &&
          tb[i].value.arrivedAt.value < tb[i].value.lastSeenAt + cfg.exitConfirm
    case Startup(_) => true
  }

  /** At the commit, the final exit timer included. */
  ghost predicate EndMeets(cfg: Config, tb: Table, station: int, es: seq<Event>)
    requires es != []
  {
    forall p: Pair :: p.1 == station ==>
      VisitsMeet(cfg, OpenStay(Track(tb, p)), Mine(es, p), Some(es[|es| - 1].wallClockAt))
  }

  lemma LoopAcceptedIff(cfg: Config, tb: Table, station: int, es: seq<Event>)
    requires cfg.Ok() && Shaped(tb) && MeetsChecks(tb)
    ensures LoopAccepted(cfg, tb, station, es) <==> LoopMeets(cfg, tb, station, es)
  {
    forall n | 0 < n <= |es|
      ensures FlushAccepted(cfg, tb, station, es, n) <==> FlushMeets(cfg, tb, station, es, n)
    {
      hide Loop, FlushedAt, SoFarMeets, MeetsChecks, Shaped;
      FlushedIff(cfg, tb, station, es, n);
      LoopTableIff(cfg, tb, station, es[..n]);
    }
  }

  lemma BatchMeetsIff(cfg: Config, tb: Table, station: int, events: seq<Event>)
    requires cfg.Ok() && Shaped(tb) && MeetsChecks(tb) && events != []
    ensures SortByFrame(events) != []
    ensures MeetsChecks(Batch(cfg, tb, Some(station), events)) <==>
      EndMeets(cfg, tb, station, SortByFrame(events))
  {
    SortIsStable(events, 0);
    var es, tb' := SortByFrame(events), Batch(cfg, tb, Some(station), events);
    var now := es[|es| - 1].wallClockAt;
    ByPairs(tb);
    ByPairs(tb');
    forall p: Pair
      ensures PairChecks(tb', p) <==>
        (p.1 == station ==> VisitsMeet(cfg, OpenStay(Track(tb, p)), Mine(es, p), Some(now)))
    {
      hide VisitsMeet, OpenStay, Batch, Mine, SortByFrame;
      TrackChecksIff(tb, p);
      TrackChecksIff(tb', p);
      BatchOnTrack(cfg, tb, station, events, p);
      if p.1 == station {
        VideoMeetsIff(cfg, tb, station, events, p);
      }
    }
  }

  lemma SweepMeetsIff(cfg: Config, tb: Table, now: Time)
    requires cfg.Ok() && MeetsChecks(tb)
    ensures MeetsChecks(Sweep(cfg, tb, now)) <==> StepMeets(cfg, tb, StaleCheck(now))
  {
    var tb' := Sweep(cfg, tb, now);
    assert forall i :: 0 <= i < |tb| ==> tb'[i] == SweepSlot(cfg, tb[i], now);
    forall i | 0 <= i < |tb| && tb[i].Some?
      ensures (tb'[i].Some? ==> DbChecks(tb'[i].value)) <==>
        (tb[i].value.state in {Present, Leaving} && now - tb[i].value.lastSeenAt >= 2.0 * cfg.exitConfirm ==>
          tb[i].value.arrivedAt.Some? && tb[i].value.arrivedAt.value < tb[i].value.lastSeenAt + cfg.exitConfirm)
    {
      assert DbChecks(tb[i].value);
    }
  }

  lemma DoMeetsIff(cfg: Config, tb: Table, step: Step)
    requires cfg.Ok() && Shaped(tb) && MeetsChecks(tb)
    ensures StepAccepted(cfg, tb, step) <==> StepMeets(cfg, tb, step)
  {
    hide MeetsChecks, LoopMeets, LoopAccepted, EndMeets, Shaped;
    match step
    case Video(station, events) =>
      SortIsStable(events, 0);
      if station.Some? {
        LoopAcceptedIff(cfg, tb, station.value, SortByFrame(events));
        if events != [] {
          BatchMeetsIff(cfg, tb, station.value, events);
        } else {
          NoEvents(cfg, tb, station.value);
        }
      }
    case StaleCheck(now) => SweepMeetsIff(cfg, tb, now);
    case Startup(now) => RecoverMeets(cfg, tb, now);
  }

  lemma NoEvents(cfg: Config, tb: Table, station: int)
    ensures LoopMeets(cfg, tb, station, [])
  {
  }

  lemma RecoverMeets(cfg: Config, tb: Table, now: Time)
    requires MeetsChecks(tb)
    ensures MeetsChecks(Recover(cfg, tb, now))
  {
  }

  // ---------------------------------------------------------------- every run

  /** All that the run flushes or commits is accepted. */
  ghost predicate Accepted(cfg: Config, steps: seq<Step>) {
    steps == [] ||
    (Accepted(cfg, steps[..|steps| - 1]) &&
      StepAccepted(cfg, Run(cfg, [], steps[..|steps| - 1]), steps[|steps| - 1]))
  }

  ghost predicate StepsMeet(cfg: Config, steps: seq<Step>) {
    steps == [] ||
    (StepsMeet(cfg, steps[..|steps| - 1]) &&
      StepMeets(cfg, Run(cfg, [], steps[..|steps| - 1]), steps[|steps| - 1]))
  }

  /** Whatever its clocks: the database accepts everything that a run flushes and commits if and
      only if each step finds detection times that meet the condition. */
  lemma {:induction false} RunAcceptedIff(cfg: Config, steps: seq<Step>)
    requires cfg.Ok()
    ensures Accepted(cfg, steps) <==> StepsMeet(cfg, steps)
    ensures Accepted(cfg, steps) ==> MeetsChecks(Run(cfg, [], steps))
  {
    hide StepMeets, LoopAccepted;
    if steps != [] {
      var init := steps[..|steps| - 1];
      RunAcceptedIff(cfg, init);
      if Accepted(cfg, init) {
        RunKeeps(cfg, [], init);
        DoMeetsIff(cfg, Run(cfg, [], init), steps[|steps| - 1]);
      }
    }
  }

  lemma TimelyMeets(cfg: Config, tb: Table, clock: Time)
    requires cfg.Ok() && Shaped(tb) && Timely(cfg, tb, clock)
    ensures MeetsChecks(tb)
  {
  }

  lemma OrderedLoopMeets(cfg: Config, tb: Table, station: int, es: seq<Event>, clock: Time)
    requires cfg.Ok() && Shaped(tb) && Timely(cfg, tb, clock) && Ascending(es, clock)
    ensures LoopAccepted(cfg, tb, station, es)
  {
    forall n | 0 < n <= |es| ensures MeetsChecks(Loop(cfg, tb, station, es[..n])) {
      hide Loop, Shaped, Timely, MeetsChecks;
      LoopKeeps(cfg, tb, station, es[..n]);
      LoopTimely(cfg, tb, station, es[..n], clock);
      TimelyMeets(cfg, Loop(cfg, tb, station, es[..n]), es[n - 1].wallClockAt);
    }
  }

  /** A clock that does not go back is enough. */
  lemma {:induction false} OrderedRunsMeet(cfg: Config, steps: seq<Step>, clock: Time)
    requires cfg.Ok() && Ordered(steps, clock)
    ensures StepsMeet(cfg, steps) && Accepted(cfg, steps)
  {
    hide StepMeets, MeetsChecks, LoopAccepted, Timely, Shaped, Do;
    if steps != [] {
      var init, last := steps[..|steps| - 1], steps[|steps| - 1];
      var tb := Run(cfg, [], init);
      OrderedRunsMeet(cfg, init, clock);
      EmptyTimely(cfg, clock);
      RunKeeps(cfg, [], init);
      RunTimely(cfg, [], init, clock);
      RunKeeps(cfg, [], steps);
      RunTimely(cfg, [], steps, clock);
      TimelyMeets(cfg, Run(cfg, [], steps), ClockAfter(steps, clock));
      if last.Video? && last.station.Some? {
        OrderedLoopMeets(cfg, tb, last.station.value, SortByFrame(last.events), ClockAfter(init, clock));
      }
    }
    RunAcceptedIff(cfg, steps);
  }

  lemma EmptyTimely(cfg: Config, clock: Time)
    ensures Shaped([]) && Timely(cfg, [], clock)
  {
  }

  // ---------------------------------------------------------------- three inputs that fail

  function Seen(tractor: int, frame: int, t: Time): Event {
    Event(None, Some(tractor), true, frame, t, t)
  }

  function Glimpse(frame: int, t: Time): Event {
    Event(None, None, false, frame, t, t)
  }

  lemma {:induction false} SortedStays(es: seq<Event>)
    requires ByFrame(es)
    ensures SortByFrame(es) == es
  {
    if es != [] {
      SortedStays(es[1..]);
      assert es[1..] == [] || es[0].frameNumber <= es[1..][0].frameNumber;
    }
  }

  function Own(e: Event, p: Pair): seq<Event> {
    if About(e, p) then [e] else []
  }

  lemma MineOfFour(a: Event, b: Event, c: Event, d: Event, p: Pair)
    ensures Mine([a, b], p) == Own(a, p) + Own(b, p)
    ensures Mine([a, b, c], p) == Own(a, p) + Own(b, p) + Own(c, p)
    ensures Mine([a, b, c, d], p) == Own(a, p) + Own(b, p) + Own(c, p) + Own(d, p)
  {
    assert Mine([], p) == [];
    hide Mine, About;
    MineAppend([], p, a);
    assert [] + [a] == [a];
    MineAppend([a], p, b);
    assert [a] + [b] == [a, b];
    MineAppend([a, b], p, c);
    assert [a, b] + [c] == [a, b, c];
    MineAppend([a, b, c], p, d);
    assert [a, b, c] + [d] == [a, b, c, d];
  }

  /** A first video of tractor 1 at station 1, in frame order: its rows, by the theorem. */
  lemma FirstVideo(cfg: Config, es: seq<Event>) returns (rows: seq<Row>)
    requires cfg.exitConfirm > 0.0 && ByFrame(es) && es != []
    ensures rows == Track(Batch(cfg, [], Some(1), es), (1, 1))
    ensures Stays(rows) == Final(cfg, Visits(cfg, None, Mine(es, (1, 1))), es[|es| - 1].wallClockAt)
  {
    rows := Track(Batch(cfg, [], Some(1), es), (1, 1));
    SortedStays(es);
    VideoSegments(cfg, [], 1, es, (1, 1));
    assert Track([], (1, 1)) == [];
    assert rows[0..] == rows;
  }

  lemma BackwardsStays(cfg: Config, a: Event, b: Event)
    requires cfg.Ok() && a.wallClockAt == a.insertStamp && b.wallClockAt == a.wallClockAt - 1.0 && a.id == b.id == None
    ensures var t := a.wallClockAt;
      Final(cfg, Visits(cfg, None, [a, b]), t - 1.0) == [Stay(Entering, t, t, None, None, t - 1.0, -1.0, None, None)]
  {
    var es := [a, b];
    assert Arrival(cfg, es, a.wallClockAt, 1) == Arrival(cfg, es, a.wallClockAt, 2) == 2;
    SegmentsUnfold(cfg, NewStay(a), es, 1);
  }

  /** A second detection stamped before the first drives `entry_seen_seconds` below zero. */
  lemma EntryTimeBelowZero(cfg: Config, t: Time)
    requires cfg.Ok()
    ensures var rows := Track(Batch(cfg, [], Some(1), [Seen(1, 0, t), Seen(1, 1, t - 1.0)]), (1, 1));
      |rows| == 1 && rows[0].state == Entering && rows[0].entrySeen == -1.0 && !DbChecks(rows[0])
  {
    hide Batch, Track, Final, Visits, Mine, SortByFrame;
    var a, b := Seen(1, 0, t), Seen(1, 1, t - 1.0);
    var rows := FirstVideo(cfg, [a, b]);
    MineOfFour(a, b, a, a, (1, 1));
    assert Own(a, (1, 1)) + Own(b, (1, 1)) == [a, b];
    BackwardsStays(cfg, a, b);
    assert Stays(rows)[0] == StayOf(rows[0]);
  }

  /** Three detections, the last one stamped an exit window before the second, and a frame
      with nothing on it two exit windows after the last. */
  function SetBack(cfg: Config, t: Time): seq<Event> {
    [Seen(1, 0, t), Seen(1, 1, t + cfg.entryConfirm), Seen(1, 2, t + cfg.entryConfirm - cfg.exitConfirm)]
    + [Glimpse(3, t + cfg.entryConfirm + cfg.exitConfirm)]
  }

  lemma SetBackOrder(cfg: Config, t: Time)
    ensures var es := SetBack(cfg, t);
      ByFrame(es) && es != [] && es[|es| - 1].wallClockAt == t + cfg.entryConfirm + cfg.exitConfirm
  {
  }

  lemma SetBackMine(cfg: Config, t: Time)
    ensures Mine(SetBack(cfg, t), (1, 1)) == SetBack(cfg, t)[..3]
  {
    var es := SetBack(cfg, t);
    hide Mine;
    MineOfFour(es[0], es[1], es[2], es[3], (1, 1));
    assert es == [es[0], es[1], es[2], es[3]];
  }

  lemma SetBackStays(cfg: Config, t: Time)
    requires cfg.Ok()
    ensures var (c, x) := (cfg.entryConfirm, cfg.exitConfirm);
      Final(cfg, Visits(cfg, None, SetBack(cfg, t)[..3]), t + c + x) ==
        [Stay(Closed, t, t, Some(t + c), Some(t + c), t + c - x, c, None, None)]
  {
    var c, x, mine := cfg.entryConfirm, cfg.exitConfirm, SetBack(cfg, t)[..3];
    assert |mine| == 3 && mine[1].wallClockAt == t + c && mine[2].wallClockAt == t + c - x;
    assert Silence(cfg, mine, t + c, 2) == Silence(cfg, mine, t + c - x, 3) == 3;
    SegmentsUnfold(cfg, NewStay(mine[0]), mine, 1);
    assert Arrival(cfg, mine, t, 1) == 1;
    hide Silence, Arrival, Segments;
    assert StayOver(cfg, NewStay(mine[0]), mine, 1)
      == Stay(Present, t, t, Some(t + c), None, t + c - x, c, None, None);
  }

  /** And a visit can close with `departed_at` no later than `arrived_at` although its entry
      time is fine. */
  lemma DepartureNotAfterArrival(cfg: Config, t: Time)
    requires cfg.Ok()
    ensures var rows := Track(Batch(cfg, [], Some(1), SetBack(cfg, t)), (1, 1));
      && |rows| == 1 && rows[0].state == Closed && rows[0].entrySeen >= 0.0
      && rows[0].arrivedAt == rows[0].departedAt == Some(t + cfg.entryConfirm)
      && !DbChecks(rows[0])
  {
    hide Batch, Track, Final, Visits, Mine, SetBack;
    SetBackOrder(cfg, t);
    SetBackMine(cfg, t);
    SetBackStays(cfg, t);
    var rows := FirstVideo(cfg, SetBack(cfg, t));
    assert Stays(rows)[0] == StayOf(rows[0]);
  }

  /** Tractor 1 is set back for one frame only, but in between tractor 2 comes in. */
  function Interrupted(t: Time): seq<Event> {
    [Seen(1, 0, t), Seen(1, 1, t - 1.0), Seen(2, 2, t), Seen(1, 3, t + 0.5)]
  }

  lemma InterruptedMine(t: Time, p: Pair)
    ensures var es := Interrupted(t);
      && Mine(es[..3], (1, 1)) == [es[0], es[1]]
      && Mine(es, p) == if p.0 == 1 then [es[0], es[1], es[3]] else if p.0 == 2 then [es[2]] else []
  {
    var es := Interrupted(t);
    hide Mine;
    MineOfFour(es[0], es[1], es[2], es[3], p);
    MineOfFour(es[0], es[1], es[2], es[3], (1, 1));
    assert es == [es[0], es[1], es[2], es[3]] && es[..3] == [es[0], es[1], es[2]];
  }

  lemma InterruptedTimes(cfg: Config, t: Time)
    requires cfg.entryConfirm >= 1.0
    ensures var es := Interrupted(t);
      && VisitsMeet(cfg, None, [es[0], es[1], es[3]], Some(t + 0.5))
      && VisitsMeet(cfg, None, [es[2]], Some(t + 0.5))
      && !VisitsMeet(cfg, None, [es[0], es[1]], None)
  {
    var es := Interrupted(t);
    var all, two := [es[0], es[1], es[3]], [es[0], es[1]];
    assert Arrival(cfg, all, t, 1) == Arrival(cfg, all, t, 2) == Arrival(cfg, all, t, 3) == 3;
    assert Arrival(cfg, two, t, 1) == Arrival(cfg, two, t, 2) == 2;
  }

  lemma InterruptedEnd(cfg: Config, t: Time)
    requires cfg.Ok() && cfg.entryConfirm >= 1.0
    ensures EndMeets(cfg, [], 1, Interrupted(t))
  {
    InterruptedTimes(cfg, t);
    assert VisitsMeet(cfg, None, [], Some(t + 0.5));
    hide VisitsMeet, Mine;
    forall p: Pair | p.1 == 1
      ensures VisitsMeet(cfg, OpenStay(Track([], p)), Mine(Interrupted(t), p), Some(t + 0.5))
    {
      InterruptedMine(t, p);
      NothingOpen(p);
    }
  }

  lemma NothingOpen(p: Pair)
    ensures OpenStay(Track([], p)) == None
  {
  }

  lemma InterruptedOrder(t: Time)
    ensures |Interrupted(t)| == 4 && SortByFrame(Interrupted(t)) == Interrupted(t)
  {
    SortedStays(Interrupted(t));
  }

  lemma EmptyMeets()
    ensures Shaped([]) && MeetsChecks([])
  {
  }

  lemma InterruptedBreaks(cfg: Config, t: Time)
    requires cfg.Ok() && cfg.entryConfirm >= 1.0
    ensures !SoFarMeets(cfg, [], 1, Interrupted(t)[..3])
  {
    InterruptedTimes(cfg, t);
    InterruptedMine(t, (1, 1));
    NothingOpen((1, 1));
    hide VisitsMeet, Mine, Track, OpenStay, Interrupted;
  }

  /** And a batch can fail although the table that it would commit is fine: inserting the second
      tractor's visit flushes the first one's while its entry time is below zero. */
  lemma FlushBelowZero(cfg: Config, t: Time)
    requires cfg.Ok() && cfg.entryConfirm >= 1.0
    ensures |Interrupted(t)| == 4
    ensures var es := Interrupted(t);
      && MeetsChecks(Batch(cfg, [], Some(1), es))
      && FlushedAt(cfg, [], 1, es, 3) && !MeetsChecks(Loop(cfg, [], 1, es[..3]))
      && !StepAccepted(cfg, [], Video(Some(1), es))
  {
    hide VisitsMeet, EndMeets, SoFarMeets, FlushedAt, Loop, Batch, SortByFrame, Interrupted, MeetsChecks;
    var es := Interrupted(t);
    InterruptedOrder(t);
    EmptyMeets();
    InterruptedEnd(cfg, t);
    BatchMeetsIff(cfg, [], 1, es);
    InterruptedBreaks(cfg, t);
    LoopTableIff(cfg, [], 1, es[..3]);
    InterruptedFlush(cfg, t);
    FlushedIff(cfg, [], 1, es, 3);
    assert !FlushAccepted(cfg, [], 1, es, 3);
  }

  lemma InterruptedFlush(cfg: Config, t: Time)
    ensures FlushedAt(cfg, [], 1, Interrupted(t), 3)
  {
    var es, p := Interrupted(t), (2, 1);
    assert Mine(es[..2], p) == [] by {
      hide Mine;
      MineOfFour(es[0], es[1], es[2], es[3], p);
      assert es[..2] == [es[0], es[1]];
    }
    NothingOpen(p);
    InterruptedAt(t);
    hide Mine, Track, OpenStay, Interrupted;
    FirstBegins(cfg, es[2]);
  }

  lemma InterruptedAt(t: Time)
    ensures |Interrupted(t)| == 4 && Interrupted(t)[2] == Seen(2, 2, t)
  {
  }

  lemma FirstBegins(cfg: Config, e: Event)
    ensures Begins(cfg, None, [], e)
  {
  }
}

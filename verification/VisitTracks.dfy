/** One pair's view of the table. A batch may interleave many tractors; this module shows that
    each pair gets exactly what its own detections alone would have given it. */
module VisitTracks {
  import opened Wrappers
  import opened VisitModel
  import opened VisitInvariants

  predicate Of(slot: Option<Row>, p: Pair) {
    slot.Some? && slot.value.pair == p
  }

  /** The pair's rows in id order, ids forgotten. */
  function Track(tb: Table, p: Pair): seq<Row> {
    if tb == [] then []
    else
      var last := tb[|tb| - 1];
      Track(tb[..|tb| - 1], p) + (if Of(last, p) then [last.value] else [])
  }

  predicate About(e: Event, p: Pair) {
    e.Counts() && e.tractorId.value == p.0
  }

  /** The pair's own in-ROI detections. */
  function Mine(es: seq<Event>, p: Pair): seq<Event> {
    if es == [] then []
    else Mine(es[..|es| - 1], p) + (if About(es[|es| - 1], p) then [es[|es| - 1]] else [])
  }

  function Update(cfg: Config, r: Row, e: Event): (Row, bool) {
    var q := QuietExit(cfg, r, e.wallClockAt);
    if q.state == Closed then (q, true) else (Transition(cfg, q, e.wallClockAt, e.id), false)
  }

  /** A detection of the pair, acting on its newest row only. */
  function See(cfg: Config, rows: seq<Row>, p: Pair, e: Event): seq<Row> {
    if rows == [] || !rows[|rows| - 1].Open() then rows + [NewVisit(p, e)]
    else
      var (r, gone) := Update(cfg, rows[|rows| - 1], e);
      rows[|rows| - 1 := r] + (if gone then [NewVisit(p, e)] else [])
  }

  function SeeAll(cfg: Config, rows: seq<Row>, p: Pair, es: seq<Event>): seq<Row> {
    if es == [] then rows
    else See(cfg, SeeAll(cfg, rows, p, es[..|es| - 1]), p, es[|es| - 1])
  }

  /** The exit timer on a track; deleted rows drop out. */
  function SweepTrack(cfg: Config, rows: seq<Row>, now: Time): seq<Row> {
    if rows == [] then []
    else
      var last := SweepSlot(cfg, Some(rows[|rows| - 1]), now);
      SweepTrack(cfg, rows[..|rows| - 1], now) + (if last.Some? then [last.value] else [])
  }

  // ---------------------------------------------------------------- projection of one event

  /** Where row `i` ends up when it is the pair's newest: at the end of the track. */
  lemma {:induction false} TrackUpdate(tb: Table, p: Pair, i: nat, r: Row)
    requires i < |tb| && tb[i].Some? && tb[i].value.pair == p && r.pair == p
    requires forall j :: i < j < |tb| && tb[j].Some? ==> tb[j].value.pair != p
    ensures |Track(tb, p)| > 0 && Track(tb, p)[|Track(tb, p)| - 1] == tb[i].value
    ensures Track(tb[i := Some(r)], p) == Track(tb, p)[|Track(tb, p)| - 1 := r]
  {
    var n := |tb| - 1;
    var tb' := tb[i := Some(r)];
    if i == n {
      assert tb'[..n] == tb[..n];
    } else {
      TrackUpdate(tb[..n], p, i, r);
      assert tb'[..n] == tb[..n][i := Some(r)];
    }
  }

  lemma {:induction false} TrackOther(tb: Table, p: Pair, i: nat, r: Row)
    requires i < |tb| && tb[i].Some? && tb[i].value.pair != p && r.pair != p
    ensures Track(tb[i := Some(r)], p) == Track(tb, p)
  {
    var n := |tb| - 1;
    var tb' := tb[i := Some(r)];
    if i == n {
      assert tb'[..n] == tb[..n];
    } else {
      TrackOther(tb[..n], p, i, r);
      assert tb'[..n] == tb[..n][i := Some(r)];
    }
  }

  lemma TrackAppend(tb: Table, p: Pair, r: Row)
    ensures Track(tb + [Some(r)], p) == Track(tb, p) + (if r.pair == p then [r] else [])
  {
  }

  lemma {:induction false} TrackClosed(tb: Table, p: Pair)
    requires OpenAt(tb, p) == |tb|
    ensures forall k :: 0 <= k < |Track(tb, p)| ==> Track(tb, p)[k].state == Closed
  {
    if tb != [] {
      assert OpenAt(tb[..|tb| - 1], p) == |tb| - 1;
      TrackClosed(tb[..|tb| - 1], p);
    }
  }

  lemma ObserveOnTrack(cfg: Config, tb: Table, station: int, e: Event, p: Pair)
    requires Shaped(tb) && p.1 == station
    ensures Track(Observe(cfg, tb, station, e), p)
      == if About(e, p) then See(cfg, Track(tb, p), p, e) else Track(tb, p)
  {
    if e.Counts() {
      var q := (e.tractorId.value, station);
      var i := OpenAt(tb, q);
      if i == |tb| {
        TrackAppend(tb, p, NewVisit(q, e));
        if q == p {
          TrackClosed(tb, p);
        }
      } else {
        var r := Update(cfg, tb[i].value, e).0;
        if q == p {
          assert forall j :: i < j < |tb| ==> !SamePair(tb[i], tb[j]);
          TrackUpdate(tb, p, i, r);
        } else {
          TrackOther(tb, p, i, r);
        }
        TrackAppend(tb[i := Some(r)], p, NewVisit(q, e));
      }
    }
  }

  lemma MineAppend(es: seq<Event>, p: Pair, e: Event)
    ensures Mine(es + [e], p) == if About(e, p) then Mine(es, p) + [e] else Mine(es, p)
  {
  }

  lemma LoopAppend(cfg: Config, tb: Table, station: int, es: seq<Event>, e: Event)
    ensures Loop(cfg, tb, station, es + [e]) == Observe(cfg, Loop(cfg, tb, station, es), station, e)
  {
  }

  lemma SeeAllAppend(cfg: Config, rows: seq<Row>, p: Pair, es: seq<Event>, e: Event)
    ensures SeeAll(cfg, rows, p, es + [e]) == See(cfg, SeeAll(cfg, rows, p, es), p, e)
  {
  }

  /** The loop over a mixed batch, seen by one pair, is the loop over its own detections. */
  lemma {:induction false} LoopOnTrack(cfg: Config, tb: Table, station: int, es: seq<Event>, p: Pair)
    requires Shaped(tb) && p.1 == station
    ensures Track(Loop(cfg, tb, station, es), p) == SeeAll(cfg, Track(tb, p), p, Mine(es, p))
  {
    if es != [] {
      var es0, e := es[..|es| - 1], es[|es| - 1];
      hide Observe, See, Track;
      var mid := Loop(cfg, tb, station, es0);
      LoopOnTrack(cfg, tb, station, es0, p);
      LoopKeeps(cfg, tb, station, es0);
      assert es == es0 + [e];
      MineAppend(es0, p, e);
      LoopAppend(cfg, tb, station, es0, e);
      SeeAllAppend(cfg, Track(tb, p), p, Mine(es0, p), e);
      ObserveOnTrack(cfg, mid, station, e, p);
    }
  }

  /** A pair of another station is not touched by the loop. */
  lemma {:induction false} LoopElsewhere(cfg: Config, tb: Table, station: int, es: seq<Event>, p: Pair)
    requires p.1 != station
    ensures Track(Loop(cfg, tb, station, es), p) == Track(tb, p)
  {
    if es != [] {
      var es0, e := es[..|es| - 1], es[|es| - 1];
      LoopElsewhere(cfg, tb, station, es0, p);
      var mid := Loop(cfg, tb, station, es0);
      if e.Counts() {
        var q := (e.tractorId.value, station);
        var i := OpenAt(mid, q);
        TrackAppend(mid, p, NewVisit(q, e));
        if i < |mid| {
          var r := Update(cfg, mid[i].value, e).0;
          TrackOther(mid, p, i, r);
          TrackAppend(mid[i := Some(r)], p, NewVisit(q, e));
        }
      }
    }
  }

  // ---------------------------------------------------------------- projection of a sweep

  /** A step that sweeps exactly the pair's rows (and whatever else) sweeps its track. */
  lemma {:induction false} SweepOnTrack(cfg: Config, tb: Table, tb': Table, now: Time, p: Pair)
    requires |tb'| == |tb|
    requires forall i :: 0 <= i < |tb| ==>
      if Of(tb[i], p) then tb'[i] == SweepSlot(cfg, tb[i], now) else !Of(tb'[i], p)
    ensures Track(tb', p) == SweepTrack(cfg, Track(tb, p), now)
  {
    if tb != [] {
      var n := |tb| - 1;
      SweepOnTrack(cfg, tb[..n], tb'[..n], now, p);
      var rows := Track(tb[..n], p);
      if Of(tb[n], p) {
        assert (rows + [tb[n].value])[..|rows|] == rows;
      } else {
        assert Track(tb, p) == rows;
      }
    }
  }

  /** What a batch does to each pair: at its own station, the pair's detections and then the
      exit timer at the batch's last wall clock; at any other station, nothing. */
  lemma BatchOnTrack(cfg: Config, tb: Table, station: int, events: seq<Event>, p: Pair)
    requires Shaped(tb) && events != []
    ensures SortByFrame(events) != []
    ensures var es := SortByFrame(events);
      Track(Batch(cfg, tb, Some(station), events), p) ==
        if p.1 == station
        then SweepTrack(cfg, SeeAll(cfg, Track(tb, p), p, Mine(es, p)), es[|es| - 1].wallClockAt)
        else Track(tb, p)
  {
    SortIsStable(events, 0);
    hide Loop, SeeAll, Mine, SweepTrack, Track, Shaped, SortByFrame;
    var es := SortByFrame(events);
    var mid, now := Loop(cfg, tb, station, es), es[|es| - 1].wallClockAt;
    var end := SweepStation(cfg, mid, station, now);
    if p.1 == station {
      LoopOnTrack(cfg, tb, station, es, p);
      SweepOnTrack(cfg, mid, end, now, p);
    } else {
      LoopElsewhere(cfg, tb, station, es, p);
      TrackSame(mid, end, p);
    }
  }

  lemma {:induction false} TrackSame(tb: Table, tb': Table, p: Pair)
    requires |tb'| == |tb|
    requires forall i :: 0 <= i < |tb| ==> if Of(tb[i], p) then tb'[i] == tb[i] else !Of(tb'[i], p)
    ensures Track(tb', p) == Track(tb, p)
  {
    if tb != [] {
      TrackSame(tb[..|tb| - 1], tb'[..|tb| - 1], p);
    }
  }

  // ---------------------------------------------------------------- interleaving

  lemma {:induction false} MineOfMine(es: seq<Event>, p: Pair)
    ensures Mine(Mine(es, p), p) == Mine(es, p)
  {
    if es != [] {
      var es0, e := es[..|es| - 1], es[|es| - 1];
      assert es == es0 + [e];
      MineOfMine(es0, p);
      MineAppend(es0, p, e);
      MineAppend(Mine(es0, p), p, e);
    }
  }

  /** A loop over the pair's own detections among `es`, then the exit timer at `now`. */
  function Alone(cfg: Config, tb: Table, station: int, es: seq<Event>, p: Pair, now: Time): Table {
    SweepStation(cfg, Loop(cfg, tb, station, Mine(es, p)), station, now)
  }

  lemma AloneOnTrack(cfg: Config, tb: Table, station: int, es: seq<Event>, p: Pair, now: Time)
    requires Shaped(tb) && p.1 == station
    ensures Track(Alone(cfg, tb, station, es, p, now), p)
      == SweepTrack(cfg, SeeAll(cfg, Track(tb, p), p, Mine(es, p)), now)
  {
    LoopOnTrack(cfg, tb, station, Mine(es, p), p);
    MineOfMine(es, p);
    SweepOnTrack(cfg, Loop(cfg, tb, station, Mine(es, p)), Alone(cfg, tb, station, es, p, now), now, p);
  }

  /** Interleaving is invisible: a mixed batch gives a pair the same rows, ids apart, as a loop
      over its own in-ROI detections followed by the exit timer at the mixed batch's last wall
      clock. Unknown tractors and detections outside the ROI matter only through that time. */
  lemma {:induction false} InterleavingInvisible(cfg: Config, tb: Table, station: int, events: seq<Event>, p: Pair)
    requires Shaped(tb) && p.1 == station && events != []
    ensures SortByFrame(events) != []
    ensures var es := SortByFrame(events);
      Track(Batch(cfg, tb, Some(station), events), p)
        == Track(Alone(cfg, tb, station, es, p, es[|es| - 1].wallClockAt), p)
  {
    hide Batch, Alone, SeeAll, Mine, SweepTrack;
    var es := SortByFrame(events);
    BatchOnTrack(cfg, tb, station, events, p);
    AloneOnTrack(cfg, tb, station, es, p, es[|es| - 1].wallClockAt);
  }

  // ---------------------------------------------------------------- frame order

  function WithFrame(es: seq<Event>, f: int): seq<Event> {
    if es == [] then []
    else (if es[0].frameNumber == f then [es[0]] else []) + WithFrame(es[1..], f)
  }

  ghost predicate ByFrame(es: seq<Event>) {
    forall i, j :: 0 <= i < j < |es| ==> es[i].frameNumber <= es[j].frameNumber
  }

  lemma {:induction false} InsertIsStable(e: Event, es: seq<Event>, f: int)
    ensures WithFrame(InsertByFrame(e, es), f) == (if e.frameNumber == f then [e] else []) + WithFrame(es, f)
    ensures |InsertByFrame(e, es)| == |es| + 1
  {
    if es == [] || e.frameNumber <= es[0].frameNumber {
      assert ([e] + es)[1..] == es;
    } else {
      InsertIsStable(e, es[1..], f);
      assert ([es[0]] + InsertByFrame(e, es[1..]))[1..] == InsertByFrame(e, es[1..]);
    }
  }

  lemma {:induction false} InsertIsSorted(e: Event, es: seq<Event>)
    requires ByFrame(es)
    ensures ByFrame(InsertByFrame(e, es))
    ensures InsertByFrame(e, es)[0] == e || (es != [] && InsertByFrame(e, es)[0] == es[0])
  {
    if es != [] && e.frameNumber > es[0].frameNumber {
      InsertIsSorted(e, es[1..]);
      assert es[1..] == [] || es[0].frameNumber <= es[1..][0].frameNumber;
    }
  }

  /** The sort is by frame number and stable: events of one frame keep their order, and none
      is lost or added. */
  lemma {:induction false} SortIsStable(es: seq<Event>, f: int)
    ensures ByFrame(SortByFrame(es)) && |SortByFrame(es)| == |es|
    ensures WithFrame(SortByFrame(es), f) == WithFrame(es, f)
  {
    if es != [] {
      SortIsStable(es[1..], f);
      InsertIsStable(es[0], SortByFrame(es[1..]), f);
      InsertIsSorted(es[0], SortByFrame(es[1..]));
    }
  }
}

/** What each operation of the aggregator does, read off the columns: every statement here names
    the tables before and after and nothing in between. */
module VisitEffects {
  import opened Wrappers
  import opened VisitModel
  import opened VisitInvariants
  import opened VisitTracks

  // ---------------------------------------------------------------- which detections count

  /** An unknown marker, or a detection outside the region of interest, does nothing at all. */
  lemma IgnoredDetection(cfg: Config, tb: Table, station: int, e: Event)
    requires e.tractorId.None? || !e.insideRoi
    ensures Observe(cfg, tb, station, e) == tb
  {
  }

  /** A pair's own detections among `es`: exactly those of its tractor inside the region of
      interest, each once and in order. */
  lemma {:induction false} MineIsFilter(es: seq<Event>, p: Pair) returns (at: seq<nat>)
    ensures |at| == |Mine(es, p)|
    ensures forall k :: 0 <= k < |at| ==> at[k] < |es| && Mine(es, p)[k] == es[at[k]]
    ensures forall j, k :: 0 <= j < k < |at| ==> at[j] < at[k]
    ensures forall i :: 0 <= i < |es| ==> (i in at <==> es[i].tractorId == Some(p.0) && es[i].insideRoi)
  {
    at := [];
    if es != [] {
      var n := |es| - 1;
      at := MineIsFilter(es[..n], p);
      if es[n].tractorId == Some(p.0) && es[n].insideRoi {
        at := at + [n];
      }
    }
  }

  /** A pair's track: exactly its rows, each once and in the order of their ids. */
  lemma {:induction false} TrackIsFilter(tb: Table, p: Pair) returns (ids: seq<nat>)
    ensures |ids| == |Track(tb, p)|
    ensures forall k :: 0 <= k < |ids| ==> ids[k] < |tb| && tb[ids[k]] == Some(Track(tb, p)[k])
    ensures forall j, k :: 0 <= j < k < |ids| ==> ids[j] < ids[k]
    ensures forall i :: 0 <= i < |tb| ==> (i in ids <==> tb[i].Some? && tb[i].value.pair == p)
  {
    ids := [];
    if tb != [] {
      var n := |tb| - 1;
      ids := TrackIsFilter(tb[..n], p);
      if tb[n].Some? && tb[n].value.pair == p {
        ids := ids + [n];
      }
    }
  }

  // ---------------------------------------------------------------- one detection

  /** Tractor `d` is seen at `station` inside the region of interest. */
  predicate IsSeen(e: Event, d: int) {
    e.tractorId == Some(d) && e.insideRoi
  }

  /** The row at `i` is the pair's open one. */
  predicate OpenRow(tb: Table, i: nat, p: Pair) {
    i < |tb| && tb[i].Some? && tb[i].value.pair == p && tb[i].value.state != Closed
  }

  ghost predicate NoOpenRow(tb: Table, p: Pair) {
    forall i: nat :: !OpenRow(tb, i, p)
  }

  /** The row that the first detection of a visit makes, and what is published about it. */
  function Entrance(d: int, station: int, e: Event): Row {
    Row((d, station), Entering, None, None, e.wallClockAt, 0.0, e.id, e.id, e.insertStamp, e.wallClockAt,
      [Frame(Entering, None, e.wallClockAt, e.id)])
  }

  lemma FoundOpen(tb: Table, i: nat, p: Pair)
    requires Shaped(tb) && OpenRow(tb, i, p)
    ensures OpenAt(tb, p) == i
  {
    ShapedIsUnique(tb);
  }

  /** A pair without an open row enters. */
  lemma SeenFirst(cfg: Config, tb: Table, station: int, e: Event, d: int)
    requires IsSeen(e, d) && NoOpenRow(tb, (d, station))
    ensures Observe(cfg, tb, station, e) == tb + [Some(Entrance(d, station, e))]
  {
    EntranceIs(d, station, e);
    assert !OpenRow(tb, OpenAt(tb, (d, station)), (d, station));
  }

  lemma EntranceIs(d: int, station: int, e: Event)
    ensures NewVisit((d, station), e) == Entrance(d, station, e)
  {
    assert [] + [Frame(Entering, None, e.wallClockAt, e.id)] == [Frame(Entering, None, e.wallClockAt, e.id)];
  }

  /** An ENTERING visit counts the time since its last detection, and arrives when it has
      `entry_confirm` of it. */
  lemma SeenEntering(cfg: Config, tb: Table, station: int, e: Event, d: int, i: nat)
    requires Shaped(tb) && IsSeen(e, d) && OpenRow(tb, i, (d, station)) && tb[i].value.state == Entering
    ensures var r, t := tb[i].value, e.wallClockAt;
      var seen := r.entrySeen + (t - r.lastSeenAt);
      var r1 := r.(entrySeen := seen, lastSeenAt := t, lastEvent := e.id);
      Observe(cfg, tb, station, e) == tb[i := Some(
        if seen < cfg.entryConfirm then r1
        else r1.(state := Present, arrivedAt := Some(t), entryEvent := e.id,
          frames := r.frames + [Frame(Present, Some(t), t, e.id)]))]
  {
    FoundOpen(tb, i, (d, station));
  }

  /** A PRESENT visit is resumed, silently within one exit window and with a frame within two;
      after two it is closed one window after its last detection, and another one enters. */
  lemma SeenPresent(cfg: Config, tb: Table, station: int, e: Event, d: int, i: nat)
    requires cfg.exitConfirm > 0.0
    requires Shaped(tb) && IsSeen(e, d) && OpenRow(tb, i, (d, station)) && tb[i].value.state == Present
    ensures var r, t := tb[i].value, e.wallClockAt;
      var gap, r1 := t - r.lastSeenAt, r.(lastSeenAt := t, lastEvent := e.id);
      Observe(cfg, tb, station, e) ==
        if gap < cfg.exitConfirm then tb[i := Some(r1)]
        else if gap < 2.0 * cfg.exitConfirm then
          tb[i := Some(r1.(frames := r.frames + [Frame(Present, r.arrivedAt, t, e.id)]))]
        else
          tb[i := Some(r.(state := Closed, departedAt := Some(r.lastSeenAt + cfg.exitConfirm),
            frames := r.frames + [Frame(Closed, r.arrivedAt, r.lastSeenAt, None)]))]
          + [Some(Entrance(d, station, e))]
  {
    FoundOpen(tb, i, (d, station));
    EntranceIs(d, station, e);
  }

  /** A LEAVING visit is resumed, however late. */
  lemma SeenLeaving(cfg: Config, tb: Table, station: int, e: Event, d: int, i: nat)
    requires Shaped(tb) && IsSeen(e, d) && OpenRow(tb, i, (d, station)) && tb[i].value.state == Leaving
    ensures var r, t := tb[i].value, e.wallClockAt;
      Observe(cfg, tb, station, e) == tb[i := Some(r.(state := Present, lastSeenAt := t, lastEvent := e.id,
        frames := r.frames + [Frame(Present, r.arrivedAt, t, e.id)]))]
  {
    FoundOpen(tb, i, (d, station));
  }

  /** In every case the pair's newest row is open and was last seen just then. */
  lemma SeenIsRecorded(cfg: Config, tb: Table, station: int, e: Event, d: int) returns (i: nat)
    requires cfg.exitConfirm > 0.0 && Shaped(tb) && IsSeen(e, d)
    ensures var tb' := Observe(cfg, tb, station, e);
      && OpenRow(tb', i, (d, station))
      && tb'[i].value.lastSeenAt == e.wallClockAt && tb'[i].value.lastEvent == e.id
      && forall j :: i < j < |tb'| && tb'[j].Some? ==> tb'[j].value.pair != (d, station)
  {
    hide Observe, Shaped;
    ObserveKeeps(cfg, tb, station, e);
    if j :| OpenRow(tb, j, (d, station)) {
      i := SeenOpen(cfg, tb, station, e, d, j);
    } else {
      SeenFirst(cfg, tb, station, e, d);
      i := |tb|;
    }
    NewestIsLast(Observe(cfg, tb, station, e), i, (d, station));
  }

  lemma SeenOpen(cfg: Config, tb: Table, station: int, e: Event, d: int, j: nat) returns (i: nat)
    requires cfg.exitConfirm > 0.0 && Shaped(tb) && IsSeen(e, d) && OpenRow(tb, j, (d, station))
    ensures var tb' := Observe(cfg, tb, station, e);
      && OpenRow(tb', i, (d, station))
      && tb'[i].value.lastSeenAt == e.wallClockAt && tb'[i].value.lastEvent == e.id
  {
    hide Observe, Shaped;
    i := j;
    match tb[j].value.state {
      case Entering => SeenEntering(cfg, tb, station, e, d, j);
      case Present =>
        SeenPresent(cfg, tb, station, e, d, j);
        if e.wallClockAt - tb[j].value.lastSeenAt >= 2.0 * cfg.exitConfirm {
          i := |tb|;
        }
      case Leaving => SeenLeaving(cfg, tb, station, e, d, j);
    }
  }

  lemma NewestIsLast(tb: Table, i: nat, p: Pair)
    requires Shaped(tb) && OpenRow(tb, i, p)
    ensures forall j :: i < j < |tb| && tb[j].Some? ==> tb[j].value.pair != p
  {
    forall j | i < j < |tb| && tb[j].Some? ensures tb[j].value.pair != p {
      assert !SamePair(tb[i], tb[j]);
    }
  }

  // ---------------------------------------------------------------- the exit timer

  /** What the exit timer makes of the slot `a` at `now`. */
  ghost predicate TimerLeaves(cfg: Config, a: Option<Row>, now: Time, b: Option<Row>) {
    if a.None? then b.None?
    else
      var r := a.value;
      var quiet := now - r.lastSeenAt;
      var left := Frame(Leaving, r.arrivedAt, r.lastSeenAt, None);
      var gone := Frame(Closed, r.arrivedAt, r.lastSeenAt, None);
      var departed := r.(state := Closed, departedAt := Some(r.lastSeenAt + cfg.exitConfirm));
      match r.state
      case Entering => b == if now - r.createdAt >= 3.0 * cfg.entryConfirm then None else a
      case Present =>
        b == if quiet < cfg.exitConfirm then a
          else if quiet < 2.0 * cfg.exitConfirm then Some(r.(state := Leaving, frames := r.frames + [left]))
          else Some(departed.(frames := r.frames + [left, gone]))
      case Leaving =>
        b == if quiet < 2.0 * cfg.exitConfirm then a else Some(departed.(frames := r.frames + [gone]))
      case Closed => b == a
  }

  lemma TimerOnSlot(cfg: Config, a: Option<Row>, now: Time)
    requires cfg.exitConfirm > 0.0
    ensures TimerLeaves(cfg, a, now, SweepSlot(cfg, a, now))
  {
    if a.Some? && a.value.state == Present && now - a.value.lastSeenAt >= 2.0 * cfg.exitConfirm {
      var r := a.value;
      var left := Frame(Leaving, r.arrivedAt, r.lastSeenAt, None);
      var gone := Frame(Closed, r.arrivedAt, r.lastSeenAt, None);
      assert (r.frames + [left]) + [gone] == r.frames + [left, gone];
    }
  }

  /** A stale check treats every row so. */
  lemma CheckEffect(cfg: Config, tb: Table, now: Time)
    requires cfg.exitConfirm > 0.0
    ensures var tb' := Do(cfg, tb, StaleCheck(now));
      |tb'| == |tb| && forall i :: 0 <= i < |tb| ==> TimerLeaves(cfg, tb[i], now, tb'[i])
  {
    forall i | 0 <= i < |tb| ensures TimerLeaves(cfg, tb[i], now, SweepSlot(cfg, tb[i], now)) {
      TimerOnSlot(cfg, tb[i], now);
    }
  }

  /** A start-up recovery deletes the ENTERING rows older than the grace period, no others, and
      changes nothing else. */
  lemma StartupEffect(cfg: Config, tb: Table, now: Time)
    ensures var tb' := Do(cfg, tb, Startup(now));
      |tb'| == |tb| && forall i :: 0 <= i < |tb| ==>
        tb'[i] == if tb[i].Some? && tb[i].value.state == Entering
            && now - tb[i].value.createdAt > cfg.entryConfirm * cfg.graceMultiplier
          then None else tb[i]
  {
  }

  /** A video is its events in frame order, one by one, and then the exit timer, once, on the
      rows of its station; without a station or events it is nothing. */
  lemma VideoEffect(cfg: Config, tb: Table, station: int, events: seq<Event>)
    requires cfg.exitConfirm > 0.0
    ensures Do(cfg, tb, Video(None, events)) == Do(cfg, tb, Video(Some(station), [])) == tb
    ensures events != [] ==> SortByFrame(events) != []
    ensures events != [] ==>
      var es := SortByFrame(events);
      var looped, tb' := Loop(cfg, tb, station, es), Do(cfg, tb, Video(Some(station), events));
      |tb'| == |looped| && forall i :: 0 <= i < |looped| ==>
        if looped[i].Some? && looped[i].value.pair.1 == station
        then TimerLeaves(cfg, looped[i], es[|es| - 1].wallClockAt, tb'[i]) else tb'[i] == looped[i]
  {
    SortIsStable(events, 0);
    if events != [] {
      var es := SortByFrame(events);
      var looped := Loop(cfg, tb, station, es);
      forall i | 0 <= i < |looped|
        ensures TimerLeaves(cfg, looped[i], es[|es| - 1].wallClockAt,
          SweepSlot(cfg, looped[i], es[|es| - 1].wallClockAt))
      {
        TimerOnSlot(cfg, looped[i], es[|es| - 1].wallClockAt);
      }
    }
  }

  /** The loop takes its events one by one, in order. */
  lemma LoopEffect(cfg: Config, tb: Table, station: int, es: seq<Event>, e: Event)
    ensures Loop(cfg, tb, station, []) == tb
    ensures Loop(cfg, tb, station, es + [e]) == Observe(cfg, Loop(cfg, tb, station, es), station, e)
  {
  }
}

/** The visit aggregator as it is written: mutable rows, two in-memory indexes and a session.
    Every method is tied to its function on tables in VisitModel, so what is proved there about
    all runs holds of this code. */
module VisitAggregator {
  import opened Wrappers
  import opened VisitModel
  import opened VisitInvariants
  import opened VisitSweeps

  /** A row object of the session. `firstSeen` and `frames` are history, kept for the proofs. */
  class Visit {
    const id: nat
    const pair: Pair
    const createdAt: Time
    var state: VisitState
    var arrivedAt: Option<Time>
    var departedAt: Option<Time>
    var lastSeenAt: Time
    var entrySeen: Time
    var entryEvent: Option<int>
    var lastEvent: Option<int>
    ghost const firstSeen: Time
    ghost var frames: seq<Frame>

    constructor (id: nat, pair: Pair, createdAt: Time, frameTime: Time, eventId: Option<int>)
      ensures this.id == id && this.pair == pair
      ensures ToRow() == Row(pair, Entering, None, None, frameTime, 0.0, eventId, eventId, createdAt, frameTime, [])
    {
      this.id, this.pair, this.createdAt := id, pair, createdAt;
      state, arrivedAt, departedAt := Entering, None, None;
      lastSeenAt, entrySeen := frameTime, 0.0;
      entryEvent, lastEvent := eventId, eventId;
      firstSeen, frames := frameTime, [];
    }

    ghost function ToRow(): Row
      reads this
    {
      Row(pair, state, arrivedAt, departedAt, lastSeenAt, entrySeen, entryEvent, lastEvent,
        createdAt, firstSeen, frames)
    }
  }

  /** One message on the status channel: which visit, and the frame. */
  type Publication = (nat, Frame)

  /** The frames of one visit, in order. */
  function FramesOf(log: seq<Publication>, id: nat): seq<Frame> {
    if log == [] then []
    else
      FramesOf(log[..|log| - 1], id) + (if log[|log| - 1].0 == id then [log[|log| - 1].1] else [])
  }

  lemma FramesOfAppend(log: seq<Publication>, m: Publication)
    ensures forall id: nat :: FramesOf(log + [m], id) == FramesOf(log, id) + (if m.0 == id then [m.1] else [])
  {
  }

  lemma {:induction false} FramesOfUnknown(log: seq<Publication>, id: nat)
    requires forall k :: 0 <= k < |log| ==> log[k].0 != id
    ensures FramesOf(log, id) == []
  {
    if log != [] {
      FramesOfUnknown(log[..|log| - 1], id);
    }
  }

  class VisitService {
    const cfg: Config
    /** The visits table; the index is the primary key and a deleted row is null. */
    var rows: seq<Visit?>
    var published: seq<Publication>
    ghost var Contents: Table

    ghost function Objects(): set<Visit>
      reads this
    {
      set v: Visit | v in rows
    }

    /** Row objects, `Contents` and the published log tell the same story. */
    ghost predicate Sync()
      reads this, Objects()
    {
      && |Contents| == |rows|
      && (forall i :: 0 <= i < |rows| ==>
        if rows[i] == null then Contents[i].None?
        else
          var v: Visit := rows[i];
          v.id == i && Contents[i] == Some(v.ToRow()) && v.frames == FramesOf(published, i))
      && (forall k :: 0 <= k < |published| ==> published[k].0 < |rows|)
    }

    /** The same, except that `Contents` may lag behind the fields of one row being written. */
    ghost predicate Writing(visit: Visit)
      reads this, visit, Objects()
    {
      && |Contents| == |rows| && Stored(visit)
      && visit.frames == FramesOf(published, visit.id)
      && (forall i :: 0 <= i < |rows| && i != visit.id ==>
        if rows[i] == null then Contents[i].None?
        else
          var v: Visit := rows[i];
          v.id == i && Contents[i] == Some(v.ToRow()) && v.frames == FramesOf(published, i))
      && (forall k :: 0 <= k < |published| ==> published[k].0 < |rows|)
    }

    ghost method Written(visit: Visit)
      requires Writing(visit)
      modifies this`Contents
      ensures Sync()
      ensures Contents == old(Contents)[visit.id := Some(visit.ToRow())]
    {
      Contents := Contents[visit.id := Some(visit.ToRow())];
    }

    ghost predicate Valid()
      reads this, Objects()
    {
      Sync() && Shaped(Contents)
    }

    predicate Stored(v: Visit)
      reads this
    {
      v.id < |rows| && rows[v.id] == v
    }

    constructor (cfg: Config)
      ensures Valid() && this.cfg == cfg && Contents == [] && Objects() == {}
    {
      this.cfg := cfg;
      rows, published, Contents := [], [], [];
    }

    method PublishStatusChange(visit: Visit, eventId: Option<int>)
      requires Writing(visit)
      modifies this`published, this`Contents, visit`frames
      ensures Sync()
      ensures Contents == old(Contents)[visit.id := Some(Announce(old(visit.ToRow()), eventId))]
      ensures visit.ToRow() == Announce(old(visit.ToRow()), eventId)
      ensures published == old(published) +
        [(visit.id, Frame(visit.state, visit.arrivedAt, visit.lastSeenAt, eventId))]
    {
      var frame := Frame(visit.state, visit.arrivedAt, visit.lastSeenAt, eventId);
      FramesOfAppend(published, (visit.id, frame));
      published := published + [(visit.id, frame)];
      visit.frames := visit.frames + [frame];
      Written(visit);
    }

    method ApplyStateTransition(visit: Visit, frameTime: Time, eventId: Option<int>)
      requires Sync() && Stored(visit)
      modifies this`published, this`Contents, visit
      ensures Sync()
      ensures visit.ToRow() == Transition(cfg, old(visit.ToRow()), frameTime, eventId)
      ensures Contents == old(Contents)[visit.id := Some(visit.ToRow())]
    {
      hide FramesOf;
      if visit.state == Entering {
        var elapsed := frameTime - visit.lastSeenAt;
        visit.entrySeen := visit.entrySeen + elapsed;
        visit.lastSeenAt := frameTime;
        visit.lastEvent := eventId;
        if visit.entrySeen >= cfg.entryConfirm {
          visit.state := Present;
          visit.arrivedAt := Some(frameTime);
          visit.entryEvent := eventId;
          PublishStatusChange(visit, eventId);
        } else {
          Written(visit);
        }
      } else if visit.state == Present {
        visit.lastSeenAt := frameTime;
        visit.lastEvent := eventId;
        Written(visit);
      } else if visit.state == Leaving {
        visit.state := Present;
        visit.lastSeenAt := frameTime;
        visit.lastEvent := eventId;
        PublishStatusChange(visit, eventId);
      }
    }

    method DeleteVisit(visit: Visit)
      requires Writing(visit)
      modifies this`rows, this`Contents
      ensures Sync()
      ensures Contents == old(Contents)[visit.id := None]
      ensures rows == old(rows)[visit.id := null]
    {
      rows := rows[visit.id := null];
      Contents := Contents[visit.id := None];
    }

    /** The first part of the exit timer. */
    method LeaveIfQuiet(visit: Visit, now: Time)
      requires Sync() && Stored(visit)
      modifies this`published, this`Contents, visit
      ensures Sync()
      ensures var r := old(visit.ToRow());
        visit.ToRow() == if r.state == Present && now - r.lastSeenAt >= cfg.exitConfirm
          then Announce(r.(state := Leaving), None) else r
      ensures Contents == old(Contents)[visit.id := Some(visit.ToRow())]
    {
      hide FramesOf;
      if visit.state == Present && now - visit.lastSeenAt >= cfg.exitConfirm {
        visit.state := Leaving;
        PublishStatusChange(visit, None);
      }
    }

    /** The last part of the exit timer. */
    method CloseIfGone(visit: Visit, now: Time)
      requires Sync() && Stored(visit)
      modifies this`published, this`Contents, visit
      ensures Sync()
      ensures visit.ToRow() == ExitIfLeaving(cfg, old(visit.ToRow()), now)
      ensures Contents == old(Contents)[visit.id := Some(visit.ToRow())]
    {
      if visit.state == Leaving && now - visit.lastSeenAt >= 2.0 * cfg.exitConfirm {
        visit.state := Closed;
        visit.departedAt := Some(visit.lastSeenAt + cfg.exitConfirm);
        PublishStatusChange(visit, None);
      }
    }

    method MaybeCloseVisit(visit: Visit, now: Time)
      requires Writing(visit) && visit.state != Closed
      modifies this`rows, this`published, this`Contents, visit
      ensures Sync()
      ensures Contents == old(Contents)[visit.id := CloseOut(cfg, old(visit.ToRow()), now)]
      ensures rows == old(rows)[visit.id := if Contents[visit.id].None? then null else visit]
      ensures Contents[visit.id].Some? ==> Contents[visit.id].value == visit.ToRow()
      ensures Contents[visit.id].None? ==> visit.state == Entering
    {
      if visit.state == Entering {
        if now - visit.createdAt >= cfg.EntryTimeout() {
          DeleteVisit(visit);
        } else {
          Written(visit);
        }
        return;
      }
      hide FramesOf, Announce, ExitIfLeaving;
      Written(visit);
      LeaveIfQuiet(visit, now);
      CloseIfGone(visit, now);
    }

    /** The insert that succeeds: the pair has no open row. */
    method CreateVisit(pair: Pair, event: Event) returns (visit: Visit)
      requires Sync()
      modifies this`rows, this`published, this`Contents
      ensures Sync() && fresh(visit) && Stored(visit)
      ensures visit.ToRow() == NewVisit(pair, event)
      ensures Contents == old(Contents) + [Some(NewVisit(pair, event))]
      ensures rows == old(rows) + [visit]
    {
      FramesOfUnknown(published, |rows|);
      visit := new Visit(|rows|, pair, event.insertStamp, event.wallClockAt, event.id);
      rows := rows + [visit];
      Contents := Contents + [Some(visit.ToRow())];
      PublishStatusChange(visit, event.id);
    }

    /** `active` holds the station's open rows by pair, `lastSeen` their last detections;
        nothing is said about the pair `p0`. */
    ghost predicate IndexedBut(station: int, active: map<Pair, Visit>, lastSeen: map<Pair, Time>, p0: Option<Pair>)
      reads this, Objects(), active.Values
    {
      && (forall p :: p in active && Some(p) != p0 ==>
        Stored(active[p]) && active[p].pair == p && p.1 == station && active[p].state != Closed
        && p in lastSeen && lastSeen[p] == active[p].lastSeenAt)
      && (forall i :: 0 <= i < |rows| && rows[i] != null && rows[i].pair.1 == station && Some(rows[i].pair) != p0 ==>
        rows[i].state == Closed || rows[i].pair in active)
    }

    /** `active` holds exactly the station's open rows. */
    ghost predicate Indexed(station: int, active: map<Pair, Visit>, lastSeen: map<Pair, Time>)
      reads this, Objects(), active.Values
    {
      IndexedBut(station, active, lastSeen, None)
    }

    method GetOpenVisitsForStation(station: int) returns (active: map<Pair, Visit>, lastSeen: map<Pair, Time>)
      requires Valid()
      ensures Indexed(station, active, lastSeen)
    {
      active := map[];
      for i := 0 to |rows|
        invariant forall p :: p in active ==>
          Stored(active[p]) && active[p].pair == p && p.1 == station && active[p].state != Closed
        invariant forall k :: 0 <= k < i && rows[k] != null && rows[k].pair.1 == station && rows[k].state != Closed ==>
          rows[k].pair in active
      {
        var v := rows[i];
        if v != null && v.pair.1 == station && v.state != Closed {
          active := active[v.pair := v];
        }
      }
      lastSeen := map p | p in active :: active[p].lastSeenAt;
    }

    /** The pair's entry in the index is its open row in the table, and its only one. */
    lemma IndexFindsOpen(station: int, active: map<Pair, Visit>, lastSeen: map<Pair, Time>, p: Pair)
      requires Valid() && Indexed(station, active, lastSeen) && p.1 == station
      ensures OpenAt(Contents, p) == if p in active then active[p].id else |Contents|
    {
    }

    /** The loop's own use of the exit timer, by the cached time of the last detection. */
    method CloseIfQuiet(visit: Visit, frameTime: Time, seen: Time)
      requires Sync() && Stored(visit) && visit.state != Closed && seen == visit.lastSeenAt
      modifies this`rows, this`published, this`Contents, visit
      ensures Sync() && rows == old(rows)
      ensures visit.ToRow() == QuietExit(cfg, old(visit.ToRow()), frameTime)
      ensures Contents == old(Contents)[visit.id := Some(visit.ToRow())]
    {
      if visit.state == Present {
        var gap := frameTime - seen;
        if gap >= cfg.exitConfirm {
          visit.state := Leaving;
          MaybeCloseVisit(visit, frameTime);
        }
      }
    }

    /** A pair without an open row enters. */
    method Enter(station: int, pair: Pair, event: Event, active0: map<Pair, Visit>, lastSeen0: map<Pair, Time>)
      returns (active: map<Pair, Visit>, lastSeen: map<Pair, Time>)
      requires Sync() && pair.1 == station && IndexedBut(station, active0, lastSeen0, Some(pair))
      modifies this`rows, this`published, this`Contents
      ensures Sync() && Indexed(station, active, lastSeen)
      ensures Contents == old(Contents) + [Some(NewVisit(pair, event))]
      ensures fresh(Objects() - old(Objects()))
    {
      var visit := CreateVisit(pair, event);
      active, lastSeen := active0[pair := visit], lastSeen0[pair := event.wallClockAt];
    }

    /** An open visit is seen again. */
    method Resume(station: int, visit: Visit, event: Event, active: map<Pair, Visit>, lastSeen0: map<Pair, Time>)
      returns (lastSeen: map<Pair, Time>)
      requires Sync() && Stored(visit) && visit.state != Closed && visit.pair.1 == station
      requires IndexedBut(station, active, lastSeen0, Some(visit.pair))
      requires visit.pair in active && active[visit.pair] == visit
      modifies this`published, this`Contents, visit
      ensures Sync() && Indexed(station, active, lastSeen)
      ensures Contents == old(Contents)[visit.id :=
        Some(Transition(cfg, old(visit.ToRow()), event.wallClockAt, event.id))]
    {
      ApplyStateTransition(visit, event.wallClockAt, event.id);
      lastSeen := lastSeen0[visit.pair := event.wallClockAt];
    }

    method Sighting(station: int, visit: Visit, event: Event, active0: map<Pair, Visit>, lastSeen0: map<Pair, Time>)
      returns (active: map<Pair, Visit>, lastSeen: map<Pair, Time>)
      requires Sync() && visit.pair.1 == station && visit.pair in active0 && active0[visit.pair] == visit
      requires Indexed(station, active0, lastSeen0)
      requires forall i :: 0 <= i < |rows| && i != visit.id && rows[i] != null && rows[i].pair == visit.pair ==>
        rows[i].state == Closed
      modifies this`rows, this`published, this`Contents, visit
      ensures Sync() && Indexed(station, active, lastSeen)
      ensures fresh(Objects() - old(Objects()))
      ensures var r := QuietExit(cfg, old(visit.ToRow()), event.wallClockAt);
        Contents == if r.state == Closed
          then old(Contents)[visit.id := Some(r)] + [Some(NewVisit(visit.pair, event))]
          else old(Contents)[visit.id := Some(Transition(cfg, r, event.wallClockAt, event.id))]
    {
      active, lastSeen := active0, lastSeen0;
      CloseIfQuiet(visit, event.wallClockAt, lastSeen[visit.pair]);
      if visit.state == Closed {
        active, lastSeen := Enter(station, visit.pair, event, active, lastSeen);
      } else {
        lastSeen := Resume(station, visit, event, active, lastSeen);
      }
    }

    /** The body of the event loop. */
    method HandleEvent(station: int, event: Event, active0: map<Pair, Visit>, lastSeen0: map<Pair, Time>)
      returns (active: map<Pair, Visit>, lastSeen: map<Pair, Time>)
      requires Valid() && Indexed(station, active0, lastSeen0)
      modifies this, Objects()
      ensures Valid() && Indexed(station, active, lastSeen)
      ensures Contents == Observe(cfg, old(Contents), station, event)
      ensures fresh(Objects() - old(Objects()))
    {
      active, lastSeen := active0, lastSeen0;
      ObserveKeeps(cfg, Contents, station, event);
      if event.tractorId.Some? && event.insideRoi {
        var pair := (event.tractorId.value, station);
        IndexFindsOpen(station, active, lastSeen, pair);
        if pair in active {
          var visit := active[pair];
          OthersClosed(visit);
          active, lastSeen := Sighting(station, visit, event, active, lastSeen);
        } else {
          active, lastSeen := Enter(station, pair, event, active, lastSeen);
        }
      }
    }

    lemma OthersClosed(visit: Visit)
      requires Valid() && Stored(visit) && visit.state != Closed
      ensures Contents[visit.id] == Some(visit.ToRow())
      ensures forall i :: 0 <= i < |rows| && i != visit.id && rows[i] != null && rows[i].pair == visit.pair ==>
        rows[i].state == Closed
    {
    }

    /** The exit timer on one stored open row. */
    method CloseStored(visit: Visit, now: Time)
      requires Sync() && Stored(visit) && visit.state != Closed
      modifies this`rows, this`published, this`Contents, visit
      ensures Sync() && Objects() <= old(Objects())
      ensures Contents == old(Contents)[visit.id := SweepSlot(cfg, old(Contents)[visit.id], now)]
      ensures |rows| == old(|rows|) && forall i :: 0 <= i < |rows| && i != visit.id ==> rows[i] == old(rows)[i]
      ensures old(Contents)[visit.id].Some? && old(Contents)[visit.id].value.Open()
      ensures visit.state == Closed <==> Contents[visit.id].Some? && !Contents[visit.id].value.Open()
    {
      MaybeCloseVisit(visit, now);
    }

    lemma StillOpen(visit: Visit)
      requires Sync() && Stored(visit) && visit.id < |Contents|
      requires Contents[visit.id].Some? && Contents[visit.id].value.Open()
      ensures visit.state != Closed
    {
    }

    /** What the final pass over the index leaves while the pairs in `todo` still wait. */
    static ghost predicate ClosedBut(
      cfg: Config, tb: Table, tb': Table, station: int, now: Time, todo: set<Pair>)
    {
      && |tb'| == |tb|
      && forall i :: 0 <= i < |tb| ==>
        if AtStation(tb[i], station) && tb[i].value.pair !in todo
        then tb'[i] == SweepSlot(cfg, tb[i], now) else tb'[i] == tb[i]
    }

    static lemma ClosedButNext(
      cfg: Config, tb: Table, tb': Table, station: int, now: Time, todo: set<Pair>, p: Pair, id: nat)
      requires ClosedBut(cfg, tb, tb', station, now, todo) && UniqueOpen(tb)
      requires p in todo && p.1 == station && id < |tb| && OpenFor(tb[id], p)
      ensures ClosedBut(cfg, tb, tb'[id := SweepSlot(cfg, tb'[id], now)], station, now, todo - {p})
    {
    }

    lemma IndexCovers(station: int, active: map<Pair, Visit>, lastSeen: map<Pair, Time>, now: Time)
      requires Valid() && Indexed(station, active, lastSeen)
      ensures ClosedBut(cfg, Contents, Contents, station, now, active.Keys)
      ensures forall p :: p in active ==>
        active[p].id < |Contents| && OpenFor(Contents[active[p].id], p) && p.1 == station
      ensures UniqueOpen(Contents)
    {
    }

    /** After the loop: the exit timer on everything the index still holds, in any order. */
    method ForceClose(station: int, active: map<Pair, Visit>, ghost lastSeen: map<Pair, Time>, finalTime: Time)
      requires Valid() && Indexed(station, active, lastSeen)
      modifies this, Objects()
      ensures Sync() && Objects() <= old(Objects())
      ensures Contents == SweepStation(cfg, old(Contents), station, finalTime)
    {
      hide FramesOf, SweepSlot, Shaped, Sync;
      ghost var tb := Contents;
      var todo := active.Keys;
      IndexCovers(station, active, lastSeen, finalTime);
      while todo != {}
        invariant Sync() && Objects() <= old(Objects()) && todo <= active.Keys
        invariant forall p :: p in todo ==> Stored(active[p]) && active[p].id < |tb|
        invariant ClosedBut(cfg, tb, Contents, station, finalTime, todo)
        decreases todo
      {
        var p :| p in todo;
        ghost var before := Contents;
        var visit := active[p];
        assert OpenFor(tb[visit.id], p) && p.1 == station;
        StillOpen(visit);
        CloseStored(visit, finalTime);
        ClosedButNext(cfg, tb, before, station, finalTime, todo, p, visit.id);
        todo := todo - {p};
      }
    }

    method ProcessVideoForVisits(stationId: Option<int>, events: seq<Event>)
      requires Valid()
      modifies this, Objects()
      ensures Valid() && fresh(Objects() - old(Objects()))
      ensures Contents == Batch(cfg, old(Contents), stationId, events)
    {
      hide FramesOf, Observe, SweepStation, SortByFrame, Shaped;
      DoKeeps(cfg, Contents, Video(stationId, events));
      var eventList := SortByFrame(events);
      if |eventList| == 0 || stationId.None? {
        return;
      }
      var station := stationId.value;
      var active, lastSeen := GetOpenVisitsForStation(station);
      for n := 0 to |eventList|
        invariant Valid() && Indexed(station, active, lastSeen)
        invariant Contents == Loop(cfg, old(Contents), station, eventList[..n])
        invariant fresh(Objects() - old(Objects()))
      {
        assert eventList[..n + 1][..n] == eventList[..n];
        active, lastSeen := HandleEvent(station, eventList[n], active, lastSeen);
      }
      assert eventList[..|eventList|] == eventList;
      ForceClose(station, active, lastSeen, eventList[|eventList| - 1].wallClockAt);
    }

    /** The periodic check; returns how many visits it closed. */
    method CheckStaleVisits(now: Time) returns (closed: nat)
      requires Valid()
      modifies this, Objects()
      ensures Valid() && Objects() <= old(Objects())
      ensures Contents == Sweep(cfg, old(Contents), now)
      ensures closed == |ClosedIds(old(Contents), Contents)|
    {
      hide FramesOf, SweepSlot, ClosedIds, NewlyClosed;
      NoneCounted();
      ghost var tb := Contents;
      closed := 0;
      for i := 0 to |rows|
        invariant Sync() && |Contents| == |tb| && Objects() <= old(Objects())
        invariant forall k :: 0 <= k < |tb| ==> Contents[k] == if k < i then SweepSlot(cfg, tb[k], now) else tb[k]
        invariant closed == NewlyClosed(tb[..i], Contents[..i])
      {
        ghost var done := Contents[..i];
        var wasClosed := CheckRow(i, now);
        closed := closed + if wasClosed then 1 else 0;
        CountNext(tb, Contents, i);
        assert Contents[..i] == done;
      }
      assert tb[..|tb|] == tb && Contents[..|tb|] == Contents;
      assert Contents == Sweep(cfg, tb, now);
      NewlyClosedIsSize(tb, Contents);
      DoKeeps(cfg, tb, StaleCheck(now));
    }

    method CheckRow(i: nat, now: Time) returns (closed: bool)
      requires Sync() && i < |rows|
      modifies this, Objects()
      ensures Sync() && Objects() <= old(Objects())
      ensures Contents == old(Contents)[i := SweepSlot(cfg, old(Contents)[i], now)]
      ensures closed == (old(Contents)[i].Some? && old(Contents)[i].value.Open()
        && Contents[i].Some? && !Contents[i].value.Open())
    {
      var visit := rows[i];
      closed := false;
      if visit != null && visit.state != Closed {
        CloseStored(visit, now);
        closed := visit.state == Closed;
      }
    }

    /** Start-up recovery; returns how many open visits it looked at and how many it deleted. */
    method RecoverOpenVisits(now: Time) returns (recovered: nat, deletedEnterings: nat)
      requires Valid()
      modifies this
      ensures Valid() && Objects() <= old(Objects())
      ensures Contents == Recover(cfg, old(Contents), now)
      ensures recovered == |OpenIds(old(Contents))| && deletedEnterings == |DeletedIds(old(Contents), Contents)|
    {
      hide FramesOf, RecoverSlot, OpenIds, DeletedIds, OpenCount, Deleted;
      NoneCounted();
      ghost var tb := Contents;
      recovered, deletedEnterings := 0, 0;
      for i := 0 to |rows|
        invariant Sync() && |Contents| == |tb| && Objects() <= old(Objects())
        invariant forall k :: 0 <= k < |tb| ==> Contents[k] == if k < i then RecoverSlot(cfg, tb[k], now) else tb[k]
        invariant recovered == OpenCount(tb[..i]) && deletedEnterings == Deleted(tb[..i], Contents[..i])
      {
        ghost var done := Contents[..i];
        var open, deleted := RecoverOne(i, now);
        recovered := recovered + if open then 1 else 0;
        deletedEnterings := deletedEnterings + if deleted then 1 else 0;
        CountNext(tb, Contents, i);
        assert Contents[..i] == done;
      }
      assert tb[..|tb|] == tb && Contents[..|tb|] == Contents;
      assert Contents == Recover(cfg, tb, now);
      OpenCountIsSize(tb);
      DeletedIsSize(tb, Contents);
      DoKeeps(cfg, tb, Startup(now));
    }

    method RecoverOne(i: nat, now: Time) returns (open: bool, deleted: bool)
      requires Sync() && i < |rows|
      modifies this`rows, this`Contents
      ensures Sync() && Objects() <= old(Objects())
      ensures Contents == old(Contents)[i := RecoverSlot(cfg, old(Contents)[i], now)]
      ensures open <==> old(Contents)[i].Some? && old(Contents)[i].value.Open()
      ensures deleted <==> old(Contents)[i].Some? && Contents[i].None?
    {
      var visit := rows[i];
      open, deleted := visit != null && visit.state != Closed, false;
      if open && visit.state == Entering {
        var age := now - visit.createdAt;
        if age > cfg.RecoveryAge() {
          DeleteVisit(visit);
          deleted := true;
        }
      }
    }
  }
}

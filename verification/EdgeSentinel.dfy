/** `POST /v1/events/ingest`: one never-ending "video" per station whose window widens with
    every accepted batch. A station's content hash is the hash of its code, so the sentinel is
    found by code here. */
module EdgeSentinel {
  import opened Wrappers

  type Time = real

  /** A station code; only its identity matters here. */
  type Code = int

  datatype Detection = Detection(arucoId: Option<int>, frameNumber: nat)

  datatype Batch = Batch(stationCode: Code, startedAt: Time, endedAt: Time, events: seq<Detection>)

  datatype EventRow = EventRow(stationCode: Code, detection: Detection, wallClockAt: Time)

  datatype Sentinel = Sentinel(id: nat, stationId: int, startedAt: Time, endedAt: Time)

  datatype Response =
    | Created(videoFileId: nat, eventsCreated: nat, sentinelCreated: bool)
    | UnknownStation
    | BadTimes

  function Min(a: Time, b: Time): Time {
    if a <= b then a else b
  }

  function Max(a: Time, b: Time): Time {
    if a <= b then b else a
  }

  /** The batches that are not answered with an error. */
  predicate Accepted(stations: map<Code, int>, b: Batch) {
    b.stationCode in stations && b.startedAt < b.endedAt
  }

  function Rows(b: Batch): seq<EventRow> {
    seq(|b.events|, i requires 0 <= i < |b.events| => EventRow(b.stationCode, b.events[i], b.endedAt))
  }

  // ---------------------------------------------------------------- the history

  function Of(taken: seq<Batch>, code: Code): seq<Batch> {
    if taken == [] then []
    else
      var last := taken[|taken| - 1];
      Of(taken[..|taken| - 1], code) + (if last.stationCode == code then [last] else [])
  }

  function AllRows(taken: seq<Batch>): seq<EventRow> {
    if taken == [] then [] else AllRows(taken[..|taken| - 1]) + Rows(taken[|taken| - 1])
  }

  /** [started, ended] is the least window around the batches' own. */
  ghost predicate IsWindow(mine: seq<Batch>, started: Time, ended: Time) {
    && started < ended
    && (forall i :: 0 <= i < |mine| ==> started <= mine[i].startedAt && mine[i].endedAt <= ended)
    && (exists i :: 0 <= i < |mine| && mine[i].startedAt == started)
    && (exists i :: 0 <= i < |mine| && mine[i].endedAt == ended)
  }

  lemma OfAppend(taken: seq<Batch>, b: Batch, code: Code)
    ensures Of(taken + [b], code) == if b.stationCode == code then Of(taken, code) + [b] else Of(taken, code)
  {
  }

  lemma AllRowsAppend(taken: seq<Batch>, b: Batch)
    ensures AllRows(taken + [b]) == AllRows(taken) + Rows(b)
  {
  }

  /** One station's part of the sentinel table, given its accepted batches. */
  ghost predicate CodeOk(
      stations: map<Code, int>, sentinels: map<Code, Sentinel>, nextId: nat, mine: seq<Batch>, code: Code)
  {
    && (code in sentinels <==> mine != [])
    && (code in sentinels ==>
      && IsWindow(mine, sentinels[code].startedAt, sentinels[code].endedAt)
      && code in stations && sentinels[code].stationId == stations[code] && sentinels[code].id < nextId)
  }

  /** The sentinel table tells the history: one sentinel for each station with an accepted
      batch, none for the others, its window the least one around that station's batches. */
  ghost predicate Consistent(stations: map<Code, int>, sentinels: map<Code, Sentinel>, nextId: nat, taken: seq<Batch>) {
    && (forall code :: CodeOk(stations, sentinels, nextId, Of(taken, code), code))
    && (forall a, b :: a in sentinels && b in sentinels && sentinels[a].id == sentinels[b].id ==> a == b)
  }

  function Widened(
      sentinels: map<Code, Sentinel>, nextId: nat, stationId: int, code: Code, startedAt: Time, endedAt: Time): Sentinel
  {
    if code in sentinels then
      var s := sentinels[code];
      Sentinel(s.id, stationId, Min(s.startedAt, startedAt), Max(s.endedAt, endedAt))
    else Sentinel(nextId, stationId, startedAt, endedAt)
  }

  lemma AcceptKeeps(
      stations: map<Code, int>, sentinels: map<Code, Sentinel>, nextId: nat, taken: seq<Batch>, b: Batch)
    requires Consistent(stations, sentinels, nextId, taken) && Accepted(stations, b)
    ensures var code := b.stationCode;
      var s := Widened(sentinels, nextId, stations[code], code, b.startedAt, b.endedAt);
      Consistent(stations, sentinels[code := s], if code in sentinels then nextId else nextId + 1, taken + [b])
  {
    var code := b.stationCode;
    var s := Widened(sentinels, nextId, stations[code], code, b.startedAt, b.endedAt);
    var nextId' := if code in sentinels then nextId else nextId + 1;
    forall c ensures CodeOk(stations, sentinels[code := s], nextId', Of(taken + [b], c), c) {
      assert CodeOk(stations, sentinels, nextId, Of(taken, c), c);
      OfAppend(taken, b, c);
      WindowAppend(Of(taken, c), b);
    }
    var after := sentinels[code := s];
    forall c, d | c in after && d in after && after[c].id == after[d].id ensures c == d {
      assert CodeOk(stations, sentinels, nextId, Of(taken, c), c);
      assert CodeOk(stations, sentinels, nextId, Of(taken, d), d);
    }
  }

  lemma WindowAppend(mine: seq<Batch>, b: Batch)
    requires b.startedAt < b.endedAt
    ensures mine == [] ==> IsWindow(mine + [b], b.startedAt, b.endedAt)
    ensures forall started, ended :: IsWindow(mine, started, ended) ==>
      IsWindow(mine + [b], Min(started, b.startedAt), Max(ended, b.endedAt))
  {
    var all := mine + [b];
    assert all[|mine|] == b;
    forall started, ended | IsWindow(mine, started, ended)
      ensures IsWindow(all, Min(started, b.startedAt), Max(ended, b.endedAt))
    {
      var i :| 0 <= i < |mine| && mine[i].startedAt == started;
      var j :| 0 <= j < |mine| && mine[j].endedAt == ended;
      assert all[i] == mine[i] && all[j] == mine[j];
    }
  }

  // ---------------------------------------------------------------- the endpoint

  /** The ingest endpoint over its two tables. `stations` maps codes to ids. */
  class EdgeIngest {
    const stations: map<Code, int>
    var sentinels: map<Code, Sentinel>
    var events: seq<EventRow>
    var nextId: nat
    /** Every batch that was accepted, in order. */
    ghost var taken: seq<Batch>

    ghost predicate Valid()
      reads this
    {
      && events == AllRows(taken)
      && Consistent(stations, sentinels, nextId, taken)
      && forall i :: 0 <= i < |taken| ==> Accepted(stations, taken[i])
    }

    constructor (stations: map<Code, int>)
      ensures Valid() && this.stations == stations && taken == []
    {
      this.stations := stations;
      sentinels, events, nextId, taken := map[], [], 0, [];
    }

    method GetOrCreateEdgeSentinel(stationId: int, code: Code, startedAt: Time, endedAt: Time)
      returns (sentinel: Sentinel, createdNow: bool)
      requires startedAt < endedAt
      modifies this`sentinels, this`nextId
      ensures createdNow <==> code !in old(sentinels)
      ensures sentinel == Widened(old(sentinels), old(nextId), stationId, code, startedAt, endedAt)
      ensures sentinels == old(sentinels)[code := sentinel]
      ensures sentinel.stationId == stationId
      ensures createdNow ==> sentinel.startedAt == startedAt && sentinel.endedAt == endedAt
      ensures !createdNow ==>
        var before := old(sentinels)[code];
        && sentinel.id == before.id
        && sentinel.startedAt == (if startedAt < before.startedAt then startedAt else before.startedAt)
        && sentinel.endedAt == (if endedAt > before.endedAt then endedAt else before.endedAt)
      ensures nextId == old(nextId) + if createdNow then 1 else 0
    {
      if code in sentinels {
        var existing := sentinels[code];
        var newEnded := Max(existing.endedAt, endedAt);
        var newStarted := Min(existing.startedAt, startedAt);
        sentinel := existing.(startedAt := newStarted, endedAt := newEnded, stationId := stationId);
        createdNow := false;
      } else {
        sentinel := Sentinel(nextId, stationId, startedAt, endedAt);
        nextId := nextId + 1;
        createdNow := true;
      }
      sentinels := sentinels[code := sentinel];
    }

    /** A rejected batch changes nothing; an accepted one widens the window and adds its rows.
        "created" is reported exactly on the station's first accepted batch. */
    method IngestEdgeBatch(b: Batch) returns (response: Response)
      requires Valid()
      modifies this
      ensures Valid()
      ensures taken == old(taken) + (if Accepted(stations, b) then [b] else [])
      ensures response.Created? <==> b.stationCode in stations && b.startedAt < b.endedAt
      ensures response.UnknownStation? <==> b.stationCode !in stations
      ensures response.BadTimes? <==> b.stationCode in stations && b.startedAt >= b.endedAt
      ensures response.Created? ==>
        && |events| == |old(events)| + |b.events| && events[..|old(events)|] == old(events)
        && forall k :: 0 <= k < |b.events| ==>
          events[|old(events)| + k] == EventRow(b.stationCode, b.events[k], b.endedAt)
      ensures response.Created? ==>
        && response.eventsCreated == |b.events|
        && response.sentinelCreated == (Of(old(taken), b.stationCode) == [])
        && b.stationCode in sentinels && response.videoFileId == sentinels[b.stationCode].id
        && (!response.sentinelCreated ==>
          b.stationCode in old(sentinels) && response.videoFileId == old(sentinels)[b.stationCode].id)
      ensures !response.Created? ==> sentinels == old(sentinels) && events == old(events)
    {
      hide IsWindow, Of, AllRows;
      if b.stationCode !in stations {
        return UnknownStation;
      }
      if b.startedAt >= b.endedAt {
        return BadTimes;
      }
      assert CodeOk(stations, sentinels, nextId, Of(taken, b.stationCode), b.stationCode);
      AcceptKeeps(stations, sentinels, nextId, taken, b);
      AllRowsAppend(taken, b);
      taken := taken + [b];
      var sentinel, createdNow :=
        GetOrCreateEdgeSentinel(stations[b.stationCode], b.stationCode, b.startedAt, b.endedAt);
      if |b.events| > 0 {
        events := events + Rows(b);
      } else {
        assert events + Rows(b) == events;
      }
      response := Created(sentinel.id, |b.events|, createdNow);
      assert events[..|old(events)|] == old(events);
    }
  }

  // ---------------------------------------------------------------- the promises

  lemma WindowUnique(mine: seq<Batch>, mine': seq<Batch>, s: Time, e: Time, s': Time, e': Time)
    requires forall b :: b in mine <==> b in mine'
    requires IsWindow(mine, s, e) && IsWindow(mine', s', e')
    ensures s == s' && e == e'
  {
    var i :| 0 <= i < |mine| && mine[i].startedAt == s;
    var j :| 0 <= j < |mine'| && mine'[j].startedAt == s';
    var k :| 0 <= k < |mine| && mine[k].endedAt == e;
    var l :| 0 <= l < |mine'| && mine'[l].endedAt == e';
    assert mine[i] in mine && mine'[j] in mine' && mine[k] in mine && mine'[l] in mine';
  }

  /** The order and the repetition of batches do not matter: two endpoints that have accepted
      the same batches for a station, in whatever order, as often as you like and whatever else
      besides, both have its sentinel, for the same station and with the same window, or
      neither has one. */
  lemma WindowOrderIrrelevant(
      stations: map<Code, int>, code: Code, taken: seq<Batch>, taken': seq<Batch>,
      sentinels: map<Code, Sentinel>, nextId: nat, sentinels': map<Code, Sentinel>, nextId': nat)
    requires Consistent(stations, sentinels, nextId, taken) && Consistent(stations, sentinels', nextId', taken')
    requires forall b: Batch :: b.stationCode == code ==> (b in taken <==> b in taken')
    ensures code in sentinels <==> code in sentinels'
    ensures code in sentinels ==>
      sentinels'[code] == sentinels[code].(id := sentinels'[code].id)
  {
    var mine, mine' := Of(taken, code), Of(taken', code);
    assert CodeOk(stations, sentinels, nextId, mine, code) && CodeOk(stations, sentinels', nextId', mine', code);
    forall b: Batch ensures b in mine <==> b in mine' {
      OfMembers(taken, code, b);
      OfMembers(taken', code, b);
    }
    assert mine != [] ==> mine[0] in mine';
    assert mine' != [] ==> mine'[0] in mine;
    if mine != [] {
      WindowUnique(mine, mine', sentinels[code].startedAt, sentinels[code].endedAt,
        sentinels'[code].startedAt, sentinels'[code].endedAt);
    }
  }

  lemma {:induction false} OfMembers(taken: seq<Batch>, code: Code, b: Batch)
    ensures b in Of(taken, code) <==> b.stationCode == code && b in taken
  {
    if taken != [] {
      OfMembers(taken[..|taken| - 1], code, b);
      assert taken == taken[..|taken| - 1] + [taken[|taken| - 1]];
    }
  }

  lemma {:induction false} RowsComeFromBatches(taken: seq<Batch>, k: nat) returns (i: nat)
    requires k < |AllRows(taken)|
    ensures i < |Of(taken, AllRows(taken)[k].stationCode)|
    ensures Of(taken, AllRows(taken)[k].stationCode)[i].endedAt == AllRows(taken)[k].wallClockAt
  {
    var n := |taken| - 1;
    if k < |AllRows(taken[..n])| {
      i := RowsComeFromBatches(taken[..n], k);
    } else {
      i := |Of(taken[..n], AllRows(taken)[k].stationCode)|;
    }
  }

  /** Every event ever written lies, by its wall clock, inside its station's present window. */
  lemma EventsInsideWindow(
      stations: map<Code, int>, sentinels: map<Code, Sentinel>, nextId: nat, taken: seq<Batch>, k: nat)
    requires Consistent(stations, sentinels, nextId, taken) && k < |AllRows(taken)|
    requires forall i :: 0 <= i < |taken| ==> Accepted(stations, taken[i])
    ensures var row := AllRows(taken)[k];
      && row.stationCode in sentinels
      && sentinels[row.stationCode].startedAt < row.wallClockAt <= sentinels[row.stationCode].endedAt
  {
    var code := AllRows(taken)[k].stationCode;
    var i := RowsComeFromBatches(taken, k);
    OfMembers(taken, code, Of(taken, code)[i]);
    assert CodeOk(stations, sentinels, nextId, Of(taken, code), code);
  }
}

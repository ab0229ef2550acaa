/** The periodic stale check and the start-up recovery: repeating them changes nothing, and the
    reported counts account for every open row. */
module VisitSweeps {
  import opened Wrappers
  import opened VisitModel

  function SweepAll(cfg: Config, tb: Table, times: seq<Time>): Table {
    if times == [] then tb
    else Sweep(cfg, SweepAll(cfg, tb, times[..|times| - 1]), times[|times| - 1])
  }

  // ---------------------------------------------------------------- absorption

  /** An earlier sweep of a row is absorbed by a later one, frames included. */
  lemma SlotAbsorbs(cfg: Config, slot: Option<Row>, t1: Time, t2: Time)
    requires t1 <= t2
    ensures SweepSlot(cfg, SweepSlot(cfg, slot, t1), t2) == SweepSlot(cfg, slot, t2)
  {
  }

  /** However many stale checks run, at whatever nondecreasing times, with no detection in
      between, the table, `departed_at` and published frames included, is the one the last
      check alone would leave. */
  lemma {:induction false} SweepsAbsorb(cfg: Config, tb: Table, times: seq<Time>)
    requires times != []
    requires forall i, j :: 0 <= i < j < |times| ==> times[i] <= times[j]
    ensures SweepAll(cfg, tb, times) == Sweep(cfg, tb, times[|times| - 1])
  {
    var n := |times| - 1;
    var mid, now := SweepAll(cfg, tb, times[..n]), times[n];
    if n > 0 {
      SweepsAbsorb(cfg, tb, times[..n]);
      var t1 := times[n - 1];
      forall i | 0 <= i < |tb| ensures SweepSlot(cfg, mid[i], now) == SweepSlot(cfg, tb[i], now) {
        SlotAbsorbs(cfg, tb[i], t1, now);
      }
    }
  }

  ghost predicate RecoveryAbsorbed(cfg: Config, tb: Table, t0: Time, t: Time) {
    Sweep(cfg, Recover(cfg, tb, t0), t) == Sweep(cfg, tb, t)
  }

  ghost predicate AlwaysAbsorbed(cfg: Config) {
    forall tb: Table, t0, t :: t0 <= t ==> RecoveryAbsorbed(cfg, tb, t0, t)
  }

  function Leftover(createdAt: Time): Row {
    Row((1, 1), Entering, None, None, createdAt, 0.0, None, None, createdAt, createdAt,
      [Frame(Entering, None, createdAt, None)])
  }

  lemma AbsorbedIffOlder(cfg: Config)
    ensures AlwaysAbsorbed(cfg) <==> cfg.RecoveryAge() >= cfg.EntryTimeout()
  {
    var grace, limit := cfg.RecoveryAge(), cfg.EntryTimeout();
    hide Config.RecoveryAge, Config.EntryTimeout;
    if grace >= limit {
      forall tb: Table, t0, t | t0 <= t ensures RecoveryAbsorbed(cfg, tb, t0, t) {
        forall i | 0 <= i < |tb|
          ensures SweepSlot(cfg, RecoverSlot(cfg, tb[i], t0), t) == SweepSlot(cfg, tb[i], t)
        {
        }
      }
    } else {
      var age := (grace + limit) / 2.0;
      var tb: Table := [Some(Leftover(0.0))];
      assert Recover(cfg, tb, age)[0].None?;
      assert Sweep(cfg, Recover(cfg, tb, age), age)[0].None?;
      assert Sweep(cfg, tb, age)[0].Some?;
      assert !RecoveryAbsorbed(cfg, tb, age, age);
      assert !AlwaysAbsorbed(cfg);
    }
  }

  /** A recovery followed by a stale check leaves what the check alone leaves, on every table
      and at all times, exactly when the recovery's age limit is at least the check's own
      3 * entry_confirm: recovery then never deletes a visit the check would spare. */
  lemma RecoveryAbsorbedIff(cfg: Config)
    ensures AlwaysAbsorbed(cfg) <==> cfg.entryConfirm * cfg.graceMultiplier >= 3.0 * cfg.entryConfirm
  {
    hide AlwaysAbsorbed;
    AbsorbedIffOlder(cfg);
    assert cfg.EntryTimeout() == 3.0 * cfg.entryConfirm;
    assert cfg.RecoveryAge() == cfg.entryConfirm * cfg.graceMultiplier;
  }

  lemma ProductOrder(c: real, a: real, b: real)
    requires c >= 0.0 && a <= b
    ensures c * a <= c * b
  {
  }

  /** The default multiplier 3 and anything above it are on the good side. */
  lemma DefaultGraceIsAbsorbed(cfg: Config)
    requires cfg.Ok() && cfg.graceMultiplier >= 3.0
    ensures AlwaysAbsorbed(cfg)
  {
    ProductOrder(cfg.entryConfirm, 3.0, cfg.graceMultiplier);
    RecoveryAbsorbedIff(cfg);
  }

  // ---------------------------------------------------------------- conservation

  function OpenCount(tb: Table): nat {
    if tb == [] then 0
    else OpenCount(tb[..|tb| - 1]) + (if tb[|tb| - 1].Some? && tb[|tb| - 1].value.Open() then 1 else 0)
  }

  /** How many rows the step from `tb` to `tb'` closed: the stale check's return value. */
  function NewlyClosed(tb: Table, tb': Table): nat
    requires |tb| == |tb'|
  {
    if tb == [] then 0
    else
      var n := |tb| - 1;
      NewlyClosed(tb[..n], tb'[..n]) +
      (if tb[n].Some? && tb[n].value.Open() && tb'[n].Some? && !tb'[n].value.Open() then 1 else 0)
  }

  function Deleted(tb: Table, tb': Table): nat
    requires |tb| == |tb'|
  {
    if tb == [] then 0
    else
      var n := |tb| - 1;
      Deleted(tb[..n], tb'[..n]) + (if tb[n].Some? && tb'[n].None? then 1 else 0)
  }

  function OpenIds(tb: Table): set<nat> {
    set i | 0 <= i < |tb| && tb[i].Some? && tb[i].value.state != Closed
  }

  function ClosedIds(tb: Table, tb': Table): set<nat>
    requires |tb| == |tb'|
  {
    set i | 0 <= i < |tb| && tb[i].Some? && tb[i].value.state != Closed && tb'[i].Some? && tb'[i].value.state == Closed
  }

  function DeletedIds(tb: Table, tb': Table): set<nat>
    requires |tb| == |tb'|
  {
    set i | 0 <= i < |tb| && tb[i].Some? && tb'[i].None?
  }

  lemma {:induction false} OpenCountIsSize(tb: Table)
    ensures OpenCount(tb) == |OpenIds(tb)|
  {
    if tb != [] {
      var n := |tb| - 1;
      OpenCountIsSize(tb[..n]);
      assert OpenIds(tb) == OpenIds(tb[..n]) + if n in OpenIds(tb) then {n} else {};
    }
  }

  lemma {:induction false} NewlyClosedIsSize(tb: Table, tb': Table)
    requires |tb| == |tb'|
    ensures NewlyClosed(tb, tb') == |ClosedIds(tb, tb')|
  {
    if tb != [] {
      var n := |tb| - 1;
      NewlyClosedIsSize(tb[..n], tb'[..n]);
      assert ClosedIds(tb, tb') == ClosedIds(tb[..n], tb'[..n]) + if n in ClosedIds(tb, tb') then {n} else {};
    }
  }

  lemma {:induction false} DeletedIsSize(tb: Table, tb': Table)
    requires |tb| == |tb'|
    ensures Deleted(tb, tb') == |DeletedIds(tb, tb')|
  {
    if tb != [] {
      var n := |tb| - 1;
      DeletedIsSize(tb[..n], tb'[..n]);
      assert DeletedIds(tb, tb') == DeletedIds(tb[..n], tb'[..n]) + if n in DeletedIds(tb, tb') then {n} else {};
    }
  }

  lemma NoneCounted()
    ensures OpenCount([]) == NewlyClosed([], []) == Deleted([], []) == 0
  {
  }

  lemma CountNext(tb: Table, tb': Table, i: nat)
    requires |tb| == |tb'| && i < |tb|
    ensures OpenCount(tb[..i + 1]) == OpenCount(tb[..i]) + (if tb[i].Some? && tb[i].value.Open() then 1 else 0)
    ensures NewlyClosed(tb[..i + 1], tb'[..i + 1]) == NewlyClosed(tb[..i], tb'[..i]) +
      (if tb[i].Some? && tb[i].value.Open() && tb'[i].Some? && !tb'[i].value.Open() then 1 else 0)
    ensures Deleted(tb[..i + 1], tb'[..i + 1]) == Deleted(tb[..i], tb'[..i]) +
      (if tb[i].Some? && tb'[i].None? then 1 else 0)
  {
    assert tb[..i + 1][..i] == tb[..i] && tb'[..i + 1][..i] == tb'[..i];
  }

  /** Every open row is still open, counted as closed, or was a deleted ENTERING row. */
  lemma {:induction false} SweepConserves(cfg: Config, tb: Table, now: Time)
    ensures OpenCount(tb) ==
      OpenCount(Sweep(cfg, tb, now)) + NewlyClosed(tb, Sweep(cfg, tb, now)) + Deleted(tb, Sweep(cfg, tb, now))
    ensures forall i :: 0 <= i < |tb| && tb[i].Some? && Sweep(cfg, tb, now)[i].None? ==>
      tb[i].value.state == Entering
  {
    if tb != [] {
      var n := |tb| - 1;
      SweepConserves(cfg, tb[..n], now);
      assert Sweep(cfg, tb, now)[..n] == Sweep(cfg, tb[..n], now);
    }
  }

  ghost predicate NoneOpen(tb: Table) {
    forall i :: 0 <= i < |tb| && tb[i].Some? ==> !tb[i].value.Open()
  }

  /** A stale check empties the farm exactly when every open row has run out of time. */
  lemma SweepLeavesNoneOpen(cfg: Config, tb: Table, now: Time)
    requires cfg.exitConfirm >= 0.0
    ensures NoneOpen(Sweep(cfg, tb, now)) <==>
      forall i :: 0 <= i < |tb| && tb[i].Some? && tb[i].value.Open() ==>
        if tb[i].value.state == Entering
        then now - tb[i].value.createdAt >= 3.0 * cfg.entryConfirm
        else now - tb[i].value.lastSeenAt >= 2.0 * cfg.exitConfirm
  {
    var end := Sweep(cfg, tb, now);
    assert forall i :: 0 <= i < |tb| ==> end[i] == SweepSlot(cfg, tb[i], now);
    if NoneOpen(end) {
      forall i | 0 <= i < |tb| && tb[i].Some? && tb[i].value.Open()
        ensures if tb[i].value.state == Entering
          then now - tb[i].value.createdAt >= 3.0 * cfg.entryConfirm
          else now - tb[i].value.lastSeenAt >= 2.0 * cfg.exitConfirm
      {
        assert end[i].Some? ==> !end[i].value.Open();
      }
    }
  }
}

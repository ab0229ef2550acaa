/** What is published about a visit: the grammar `Follows` in words, and the runs that show that
    it allows nothing too much. */
module VisitFrames {
  import opened Wrappers
  import opened VisitModel
  import opened VisitInvariants
  import opened VisitTiming

  /** The grammar in words: exactly one ENTERING, and it comes first; CLOSED only as the last
      frame; LEAVING never twice in a row. */
  lemma FrameGrammar(fs: seq<Frame>)
    requires FramesOk(fs)
    ensures forall i :: 0 <= i < |fs| ==> (fs[i].state == Entering <==> i == 0)
    ensures forall i :: 0 <= i < |fs| && fs[i].state == Closed ==> i == |fs| - 1
    ensures forall i :: 0 <= i < |fs| - 1 ==> !(fs[i].state == Leaving && fs[i + 1].state == Leaving)
  {
    forall i | 0 <= i < |fs|
      ensures fs[i].state == Entering <==> i == 0
      ensures fs[i].state == Closed ==> i == |fs| - 1
    {
      if i > 0 {
        assert Follows(fs[i - 1].state, fs[i - 1 + 1].state);
      }
      if i < |fs| - 1 {
        assert Follows(fs[i].state, fs[i + 1].state);
      }
    }
  }

  // ---------------------------------------------------------------- every successor occurs

  /** Somewhere in this run's log a frame with state `b` follows one with state `a` of the same
      visit. */
  ghost predicate Published(cfg: Config, steps: seq<Step>, a: VisitState, b: VisitState) {
    var tb := Run(cfg, [], steps);
    exists i, k :: 0 <= i < |tb| && tb[i].Some? && 0 <= k < |tb[i].value.frames| - 1
      && tb[i].value.frames[k].state == a && tb[i].value.frames[k + 1].state == b
  }

  function Spotted(t: Time): Event {
    Event(None, Some(1), true, 0, t, t + 1.0)
  }

  /** A video of station 1 with a single detection of tractor 1. */
  function Clip(t: Time): Step {
    Video(Some(1), [Spotted(t)])
  }

  lemma RunNext(cfg: Config, steps: seq<Step>, step: Step)
    ensures Run(cfg, [], steps + [step]) == Do(cfg, Run(cfg, [], steps), step)
    ensures ClockAfter(steps + [step], 0.0) == EndOf(step, ClockAfter(steps, 0.0))
    ensures Ordered(steps + [step], 0.0) <==> Ordered(steps, 0.0) && InTime(step, ClockAfter(steps, 0.0))
  {
    assert (steps + [step])[..|steps|] == steps;
  }

  lemma FirstClip(cfg: Config, t: Time)
    requires cfg.Ok() && t >= 0.0
    ensures Run(cfg, [], [Clip(t)]) == [Some(NewVisit((1, 1), Spotted(t)))]
    ensures Ordered([Clip(t)], 0.0) && ClockAfter([Clip(t)], 0.0) == t
  {
    var e := Spotted(t);
    RunNext(cfg, [], Clip(t));
    assert [] + [Clip(t)] == [Clip(t)];
    ClipDoes(cfg, [], t);
  }

  lemma ClipDoes(cfg: Config, tb: Table, t: Time)
    ensures Do(cfg, tb, Clip(t)) == SweepStation(cfg, Observe(cfg, tb, 1, Spotted(t)), 1, t)
    ensures EndOf(Clip(t), 0.0) == t
    ensures forall clock :: InTime(Clip(t), clock) <==> clock <= t
  {
    var e := Spotted(t);
    assert [e][1..] == [] && SortByFrame([e]) == [e];
    assert [e][..0] == [];
    assert Loop(cfg, tb, 1, [e]) == Observe(cfg, Loop(cfg, tb, 1, []), 1, e);
  }

  /** The run has left one row, which may still go on, and the time is `now`. */
  ghost predicate Standing(cfg: Config, steps: seq<Step>, r: Row, now: Time) {
    && Run(cfg, [], steps) == [Some(r)]
    && r.pair == (1, 1) && r.Open() && r.lastSeenAt <= now
    && Ordered(steps, 0.0) && ClockAfter(steps, 0.0) == now
  }

  /** A detection that makes or keeps the visit PRESENT. */
  lemma AddClip(cfg: Config, steps: seq<Step>, r: Row, now: Time, t: Time) returns (longer: seq<Step>, r': Row)
    requires cfg.Ok() && Standing(cfg, steps, r, now) && now <= t
    requires QuietExit(cfg, r, t).Open()
    requires Transition(cfg, QuietExit(cfg, r, t), t, None).state == Present
    ensures longer == steps + [Clip(t)] && Standing(cfg, longer, r', t)
    ensures r' == Transition(cfg, QuietExit(cfg, r, t), t, None)
  {
    longer, r' := steps + [Clip(t)], Transition(cfg, QuietExit(cfg, r, t), t, None);
    RunNext(cfg, steps, Clip(t));
    ClipDoes(cfg, [Some(r)], t);
    assert OpenAt([Some(r)], (1, 1)) == 0;
    assert Observe(cfg, [Some(r)], 1, Spotted(t)) == [Some(r')];
    assert SweepStation(cfg, [Some(r')], 1, t) == [Some(r')];
  }

  lemma AddCheck(cfg: Config, steps: seq<Step>, r: Row, now: Time, t: Time) returns (longer: seq<Step>, r': Row)
    requires cfg.Ok() && Standing(cfg, steps, r, now) && now <= t && r.state != Entering
    ensures longer == steps + [StaleCheck(t)] && Run(cfg, [], longer) == [Some(r')] && Ordered(longer, 0.0)
    ensures CloseOut(cfg, r, t) == Some(r') && (r'.Open() ==> Standing(cfg, longer, r', t))
  {
    longer, r' := steps + [StaleCheck(t)], CloseOut(cfg, r, t).value;
    RunNext(cfg, steps, StaleCheck(t));
    assert Sweep(cfg, [Some(r)], t) == [Some(r')];
  }

  function States(r: Row): seq<VisitState> {
    seq(|r.frames|, i requires 0 <= i < |r.frames| => r.frames[i].state)
  }

  /** A visit that is confirmed. */
  lemma Confirmed(cfg: Config) returns (steps: seq<Step>, r: Row)
    requires cfg.Ok()
    ensures Standing(cfg, steps, r, cfg.entryConfirm) && r.state == Present && r.lastSeenAt == cfg.entryConfirm
    ensures States(r) == [Entering, Present]
  {
    FirstClip(cfg, 0.0);
    steps, r := AddClip(cfg, [Clip(0.0)], NewVisit((1, 1), Spotted(0.0)), 0.0, cfg.entryConfirm);
  }

  /** Found again after one window, or by a check in LEAVING: PRESENT is published once more. */
  lemma Again(cfg: Config, steps: seq<Step>, r: Row, now: Time, t: Time) returns (longer: seq<Step>, r': Row)
    requires cfg.Ok() && Standing(cfg, steps, r, now) && now <= t
    requires r.state == Leaving ||
      (r.state == Present && cfg.exitConfirm <= t - r.lastSeenAt < 2.0 * cfg.exitConfirm)
    ensures Standing(cfg, longer, r', t) && r'.state == Present && r'.lastSeenAt == t
    ensures States(r') == States(r) + [Present]
  {
    hide Run, Ordered;
    longer, r' := AddClip(cfg, steps, r, now, t);
  }

  /** A check in the second window. */
  lemma Drifts(cfg: Config, steps: seq<Step>, r: Row, now: Time, t: Time) returns (longer: seq<Step>, r': Row)
    requires cfg.Ok() && Standing(cfg, steps, r, now) && now <= t && r.state == Present
    requires cfg.exitConfirm <= t - r.lastSeenAt < 2.0 * cfg.exitConfirm
    ensures Standing(cfg, longer, r', t) && r'.state == Leaving && r'.lastSeenAt == r.lastSeenAt
    ensures States(r') == States(r) + [Leaving]
  {
    hide Run, Ordered;
    longer, r' := AddCheck(cfg, steps, r, now, t);
  }

  /** A check after two windows. */
  lemma Departs(cfg: Config, steps: seq<Step>, r: Row, now: Time, t: Time) returns (longer: seq<Step>, r': Row)
    requires cfg.Ok() && Standing(cfg, steps, r, now) && now <= t && r.state == Present
    requires t - r.lastSeenAt >= 2.0 * cfg.exitConfirm
    ensures Ordered(longer, 0.0) && Run(cfg, [], longer) == [Some(r')]
    ensures States(r') == States(r) + [Leaving, Closed]
  {
    hide Run, Ordered;
    longer, r' := AddCheck(cfg, steps, r, now, t);
  }

  /** Found again after one window, moved to LEAVING by a check, found again, and given up. */
  lemma LongStory(cfg: Config) returns (steps: seq<Step>, r: Row)
    requires cfg.Ok()
    ensures Ordered(steps, 0.0) && Run(cfg, [], steps) == [Some(r)]
    ensures States(r) == [Entering, Present, Present, Leaving, Present, Leaving, Closed]
  {
    hide Standing, Run, Ordered, States;
    var c, x := cfg.entryConfirm, cfg.exitConfirm;
    steps, r := Confirmed(cfg);
    steps, r := Again(cfg, steps, r, c, c + x);
    steps, r := Drifts(cfg, steps, r, c + x, c + 2.0 * x);
    steps, r := Again(cfg, steps, r, c + 2.0 * x, c + 2.0 * x);
    steps, r := Departs(cfg, steps, r, c + 2.0 * x, c + 4.0 * x);
  }

  /** Found again only after two windows, and closed by the loop itself. */
  lemma ShortStory(cfg: Config) returns (steps: seq<Step>, r: Row)
    requires cfg.Ok()
    ensures Ordered(steps, 0.0) && |Run(cfg, [], steps)| == 2 && Run(cfg, [], steps)[0] == Some(r)
    ensures States(r) == [Entering, Present, Closed]
  {
    var now, t := cfg.entryConfirm, cfg.entryConfirm + 2.0 * cfg.exitConfirm;
    var before, r0 := Confirmed(cfg);
    steps, r := before + [Clip(t)], QuietExit(cfg, r0, t);
    RunNext(cfg, before, Clip(t));
    ClipDoes(cfg, [Some(r0)], t);
    assert OpenAt([Some(r0)], (1, 1)) == 0;
    assert Observe(cfg, [Some(r0)], 1, Spotted(t)) == [Some(r), Some(NewVisit((1, 1), Spotted(t)))];
  }

  lemma AllowedIsPublished(cfg: Config, a: VisitState, b: VisitState) returns (steps: seq<Step>)
    requires cfg.Ok() && Follows(a, b)
    ensures Ordered(steps, 0.0) && Published(cfg, steps, a, b)
  {
    hide Run, Ordered, Published;
    var r: Row;
    if a == Present && b == Closed {
      steps, r := ShortStory(cfg);
      InStates(cfg, steps, r, 1);
    } else {
      steps, r := LongStory(cfg);
      InStates(cfg, steps, r,
        if a == Entering then 0 else if a == Leaving then (if b == Present then 3 else 5)
        else if b == Present then 1 else 2);
    }
  }

  lemma PublishedIsAllowed(cfg: Config, steps: seq<Step>, a: VisitState, b: VisitState)
    requires Published(cfg, steps, a, b)
    ensures Follows(a, b)
  {
    RunKeeps(cfg, [], steps);
    var tb := Run(cfg, [], steps);
    hide Run;
    var i, k :| 0 <= i < |tb| && tb[i].Some? && 0 <= k < |tb[i].value.frames| - 1
      && tb[i].value.frames[k].state == a && tb[i].value.frames[k + 1].state == b;
    assert FramesOk(tb[i].value.frames);
  }

  /** `Follows` is exact: besides being kept by every run, each succession that it allows is
      published by some run whose clock does not go back, under every configuration. */
  lemma FollowsIsExact(cfg: Config, a: VisitState, b: VisitState)
    requires cfg.Ok()
    ensures Follows(a, b) <==> exists steps :: Ordered(steps, 0.0) && Published(cfg, steps, a, b)
  {
    hide Ordered, Published;
    if Follows(a, b) {
      var steps := AllowedIsPublished(cfg, a, b);
    }
    forall steps | Published(cfg, steps, a, b) ensures Follows(a, b) {
      PublishedIsAllowed(cfg, steps, a, b);
    }
  }

  lemma InStates(cfg: Config, steps: seq<Step>, r: Row, k: nat)
    requires Run(cfg, [], steps) != [] && Run(cfg, [], steps)[0] == Some(r) && k < |States(r)| - 1
    ensures Published(cfg, steps, States(r)[k], States(r)[k + 1])
  {
  }
}

/** The two retry loops with exponential delays: the MQTT subscriber's reconnects and the
    consumer's HTTP posts. */
module Backoff {

  type Time = real

  function Pow2(k: nat): (p: nat)
    ensures p >= 1
  {
    if k == 0 then 1 else 2 * Pow2(k - 1)
  }

  function Min(a: Time, b: Time): Time {
    if a <= b then a else b
  }

  // ---------------------------------------------------------------- run_forever

  /** One pass of the loop: the connection or subscription fails; or it holds for a while and
      breaks; or the message stream ends by itself. */
  datatype Pass = NoSubscription | BrokeLater | EndedCleanly

  function Capped(initial: Time, max: Time, k: nat): Time {
    Min(initial * Pow2(k) as real, max)
  }

  /** The wait after the k-th consecutive failure since the last successful subscribe. */
  function Wait(initial: Time, max: Time, k: nat): Time {
    if k == 0 then initial else Capped(initial, max, k)
  }

  /** How many failures in a row lead up to the end of the passes, a break after a successful
      subscription being the first of its row. */
  function Streak(passes: seq<Pass>): nat {
    if passes == [] then 0
    else
      match passes[|passes| - 1]
      case NoSubscription => Streak(passes[..|passes| - 1]) + 1
      case BrokeLater => 1
      case EndedCleanly => 0
  }

  /** The waits of a run in closed form: a clean end waits for nothing. */
  function Waits(initial: Time, max: Time, passes: seq<Pass>): seq<Time> {
    if passes == [] then []
    else
      Waits(initial, max, passes[..|passes| - 1]) +
      (if passes[|passes| - 1].EndedCleanly? then [] else [Wait(initial, max, Streak(passes) - 1)])
  }

  lemma WaitDoubles(initial: Time, max: Time, k: nat)
    requires initial >= 0.0 && max >= 0.0
    ensures Min(Wait(initial, max, k) * 2.0, max) == Wait(initial, max, k + 1)
  {
  }

  /** The subscriber's loop over the passes that happen before it is stopped. */
  method RunForever(initial: Time, max: Time, passes: seq<Pass>) returns (waits: seq<Time>)
    requires initial >= 0.0 && max >= 0.0
    ensures waits == Waits(initial, max, passes)
  {
    var delay := initial;
    waits := [];
    for n := 0 to |passes|
      invariant waits == Waits(initial, max, passes[..n])
      invariant delay == Wait(initial, max, Streak(passes[..n]))
    {
      assert passes[..n + 1][..n] == passes[..n];
      if !passes[n].NoSubscription? {
        delay := initial;
      }
      if !passes[n].EndedCleanly? {
        waits := waits + [delay];
        WaitDoubles(initial, max, Streak(passes[..n + 1]) - 1);
        delay := Min(delay * 2.0, max);
      }
    }
    assert passes[..|passes|] == passes;
  }

  /** The plain closed form min(initial * 2^k, max) holds for every k exactly when the initial
      delay does not exceed the maximum: the first wait is never capped. */
  lemma PlainClosedFormIff(initial: Time, max: Time)
    ensures (forall k: nat :: Wait(initial, max, k) == Capped(initial, max, k)) <==> initial <= max
  {
    assert initial * Pow2(0) as real == initial;
    if initial > max {
      assert Wait(initial, max, 0) != Capped(initial, max, 0);
    }
  }

  /** A clean end waits for nothing; a break after a successful subscription waits the initial
      delay, whatever came before it. */
  lemma WaitsReset(initial: Time, max: Time, passes: seq<Pass>)
    ensures Waits(initial, max, []) == []
    ensures Waits(initial, max, passes + [EndedCleanly]) == Waits(initial, max, passes)
    ensures Waits(initial, max, passes + [BrokeLater]) == Waits(initial, max, passes) + [initial]
  {
  }

  function Failures(n: nat): seq<Pass> {
    seq(n, _ => NoSubscription)
  }

  lemma {:induction false} FailuresCount(passes: seq<Pass>, n: nat)
    requires passes == [] || !passes[|passes| - 1].NoSubscription?
    ensures Streak(passes + Failures(n)) ==
      n + if passes != [] && passes[|passes| - 1].BrokeLater? then 1 else 0
  {
    var run := passes + Failures(n);
    if n == 0 {
      assert run == passes;
    } else {
      FailuresCount(passes, n - 1);
      assert run[..|run| - 1] == passes + Failures(n - 1);
    }
  }

  lemma OneMoreFailure(initial: Time, max: Time, before: seq<Pass>)
    ensures Waits(initial, max, before + [NoSubscription]) ==
      Waits(initial, max, before) + [Wait(initial, max, Streak(before))]
  {
    assert (before + [NoSubscription])[..|before|] == before;
  }

  lemma WaitIs(initial: Time, max: Time, k: nat)
    ensures var plain := initial * Pow2(k) as real;
      Wait(initial, max, k) == if k == 0 then initial else if plain <= max then plain else max
  {
  }

  /** The wait of one more failure to subscribe, after `n` of them in a row at the start or after
      a pass that did subscribe: min(initial * 2^n, max), or one doubling more when a break has
      taken the first wait. Only the first wait, the initial one, is not capped. */
  lemma FailureWaits(initial: Time, max: Time, passes: seq<Pass>, n: nat)
    requires passes == [] || !passes[|passes| - 1].NoSubscription?
    ensures var before := passes + Failures(n);
      var k := if passes != [] && passes[|passes| - 1].BrokeLater? then n + 1 else n;
      var plain := initial * Pow2(k) as real;
      Waits(initial, max, before + [NoSubscription]) == Waits(initial, max, before) +
        [if k == 0 then initial else if plain <= max then plain else max]
  {
    hide Waits, Wait, Streak, Failures, Pow2;
    FailuresCount(passes, n);
    OneMoreFailure(initial, max, passes + Failures(n));
    WaitIs(initial, max, Streak(passes + Failures(n)));
  }

  // ---------------------------------------------------------------- _forward_with_retries

  datatype Response = HttpError | Status(code: int)

  predicate Final(r: Response) {
    r.Status? && (200 <= r.code < 300 || 400 <= r.code < 500)
  }

  datatype Result = Delivered | Rejected | Raised | GaveUp

  function Sum(xs: seq<Time>): Time {
    if xs == [] then 0.0 else Sum(xs[..|xs| - 1]) + xs[|xs| - 1]
  }

  function DelayAt(backoff: Time, n: nat): Time {
    backoff * Pow2(n) as real
  }

  ghost predicate Doubling(backoff: Time, delays: seq<Time>) {
    forall n :: 0 <= n < |delays| ==> delays[n] == DelayAt(backoff, n)
  }

  lemma FirstDelay(backoff: Time)
    ensures Doubling(backoff, []) && backoff == DelayAt(backoff, 0)
  {
  }

  lemma Twice(b: real, x: real, y: real)
    requires y == 2.0 * x
    ensures b * y == (b * x) * 2.0
  {
  }

  lemma PowerNext(k: nat)
    ensures Pow2(k + 1) as real == 2.0 * Pow2(k) as real
  {
  }

  lemma DoublingNext(backoff: Time, delays: seq<Time>, delay: Time)
    requires Doubling(backoff, delays) && delay == DelayAt(backoff, |delays|)
    ensures Doubling(backoff, delays + [delay])
  {
    hide DelayAt;
  }

  lemma DelayNext(backoff: Time, k: nat, delay: Time)
    requires delay == DelayAt(backoff, k)
    ensures delay * 2.0 == DelayAt(backoff, k + 1)
  {
    hide Pow2;
    PowerNext(k);
    Twice(backoff, Pow2(k) as real, Pow2(k + 1) as real);
  }

  /** The consumer's loop. `response(n)` is what the n-th post, counted from 1, would meet. It
      stops at the first 2xx or 4xx or after `maxRetries` posts, and sleeps only between posts. */
  method ForwardWithRetries(maxRetries: nat, backoff: Time, response: nat -> Response)
    returns (posts: nat, delays: seq<Time>, result: Result)
    ensures posts <= maxRetries
    ensures forall n :: 1 <= n < posts ==> !Final(response(n))
    ensures posts < maxRetries ==> posts >= 1 && Final(response(posts))
    ensures forall n :: 1 <= n < posts && response(n).Status? ==>
      response(n).code < 200 || 300 <= response(n).code < 400 || response(n).code >= 500
    ensures posts < maxRetries ==> result in {Delivered, Rejected}
    ensures |delays| == if posts == 0 then 0 else posts - 1
    ensures Doubling(backoff, delays)
    ensures result.Delivered? <==> posts >= 1 && response(posts).Status? && 200 <= response(posts).code < 300
    ensures result.Rejected? <==> posts >= 1 && response(posts).Status? && 400 <= response(posts).code < 500
    ensures result.Raised? <==> posts >= 1 && response(posts).HttpError?
  {
    var delay := backoff;
    posts, delays, result := 0, [], GaveUp;
    hide DelayAt, Doubling;
    FirstDelay(backoff);
    var attempt := 1;
    while attempt <= maxRetries
      invariant 1 <= attempt <= maxRetries + 1
      invariant posts == attempt - 1 == |delays|
      invariant posts == maxRetries ==> maxRetries == 0
      invariant forall n :: 1 <= n <= posts ==> !Final(response(n))
      invariant delay == DelayAt(backoff, |delays|)
      invariant Doubling(backoff, delays)
      invariant result == GaveUp
    {
      posts := posts + 1;
      var r := response(attempt);
      if r.HttpError? && attempt == maxRetries {
        return posts, delays, Raised;
      }
      if r.Status? && 200 <= r.code < 300 {
        return posts, delays, Delivered;
      }
      if r.Status? && 400 <= r.code < 500 {
        return posts, delays, Rejected;
      }
      if attempt == maxRetries {
        return posts, delays, GaveUp;
      }
      DoublingNext(backoff, delays, delay);
      DelayNext(backoff, |delays|, delay);
      delays := delays + [delay];
      delay := delay * 2.0;
      attempt := attempt + 1;
    }
  }

  /** The delays requested before the n-th post, n counted from 1, add up to
      backoff * (2^(n-1) - 1). */
  lemma {:induction false} DelaysAddUp(backoff: Time, delays: seq<Time>)
    requires Doubling(backoff, delays)
    ensures Sum(delays) == backoff * (Pow2(|delays|) - 1) as real
  {
    if delays != [] {
      var m := |delays| - 1;
      DelaysAddUp(backoff, delays[..m]);
      var x := Pow2(m) as real;
      assert Pow2(m + 1) as real == 2.0 * x;
      assert backoff * (x - 1.0) + backoff * x == backoff * (2.0 * x - 1.0);
    }
  }
}

/** The edge process's batch buffer: detections are appended frame by frame, drained under the
    lock, and handed to the MQTT publisher. */
module EdgeBuffer {

  function Concat<T>(batches: seq<seq<T>>): seq<T> {
    if batches == [] then [] else Concat(batches[..|batches| - 1]) + batches[|batches| - 1]
  }

  lemma ConcatAppend<T>(batches: seq<seq<T>>, b: seq<T>)
    ensures Concat(batches + [b]) == Concat(batches) + b
  {
  }

  class EdgePipeline<Detection> {
    var buffer: seq<Detection>
    /** Batches handed to `publish`, in order; a failed publication drops its batch. */
    ghost var handed: seq<seq<Detection>>
    /** Every detection of the stream, in order. */
    ghost var detected: seq<Detection>

    /** Conservation: each detection is in exactly one handed batch or still in the buffer, and
        none has overtaken another. */
    ghost predicate Valid()
      reads this
    {
      Concat(handed) + buffer == detected
    }

    constructor ()
      ensures Valid() && detected == [] && handed == []
    {
      buffer, handed, detected := [], [], [];
    }

    method ProcessFrame(triggered: bool, found: seq<Detection>)
      requires Valid()
      modifies this
      ensures Valid() && handed == old(handed)
      ensures detected == old(detected) + if triggered then found else []
    {
      if !triggered {
        return;
      }
      for n := 0 to |found|
        invariant Valid() && handed == old(handed) && detected == old(detected) + found[..n]
      {
        assert found[..n + 1] == found[..n] + [found[n]];
        assert Concat(handed) + (buffer + [found[n]]) == (Concat(handed) + buffer) + [found[n]];
        buffer := buffer + [found[n]];
        detected := detected + [found[n]];
      }
      assert found[..|found|] == found;
    }

    /** Drains the whole buffer as one batch. An empty buffer is only published by the final
        flush, as a heartbeat. */
    method Flush(final: bool)
      requires Valid()
      modifies this
      ensures Valid() && buffer == [] && detected == old(detected)
      ensures handed == old(handed) + if old(buffer) == [] && !final then [] else [old(buffer)]
    {
      if |buffer| == 0 && !final {
        return;
      }
      var batch := buffer;
      buffer := [];
      ConcatAppend(handed, batch);
      handed := handed + [batch];
      assert Concat(handed) + buffer == Concat(handed);
    }

    /** A whole run: frames and timer flushes in any order, then the final flush. Everything
        detected has been handed over, in order and once, and what was detected up to a timer's
        flush without waiting for anything later. */
    method RunToStop(frames: seq<(bool, seq<Detection>)>, timer: nat -> bool)
      requires Valid()
      modifies this
      ensures Valid() && buffer == [] && Concat(handed) == detected
      ensures detected == old(detected) + Concat(Triggered(frames))
      ensures handed != [] && old(handed) <= handed
      ensures Punctual(handed, old(detected), frames, timer, |frames|)
    {
      NothingYet<Detection>();
      hide Concat, Triggered, Punctual;
      assert old(detected) + [] == old(detected) && frames[..0] == [];
      PunctualStart(handed, detected, frames, timer);
      for n := 0 to |frames|
        invariant Valid() && old(handed) <= handed
        invariant detected == old(detected) + Concat(Triggered(frames[..n]))
        invariant Punctual(handed, old(detected), frames, timer, n)
      {
        TriggeredNext(frames, n);
        ProcessFrame(frames[n].0, frames[n].1);
        ghost var before := handed;
        if timer(n) {
          Flush(false);
          assert Concat(handed) + [] == Concat(handed);
        }
        PunctualNext(before, handed, old(detected), frames, timer, n);
      }
      assert frames[..|frames|] == frames;
      ghost var before := handed;
      Flush(true);
      PunctualGrows(before, handed, old(detected), frames, timer, |frames|);
      assert Concat(handed) + [] == Concat(handed);
    }
  }

  lemma NothingYet<T>()
    ensures Concat<T>([]) == [] && Concat(Triggered<T>([])) == []
  {
  }

  lemma PunctualStart<T>(
      handed: seq<seq<T>>, before: seq<T>, frames: seq<(bool, seq<T>)>, timer: nat -> bool)
    ensures Punctual(handed, before, frames, timer, 0)
  {
  }

  /** Some first part of what has been handed over is exactly `ds`. */
  ghost predicate HandedUpTo<T>(handed: seq<seq<T>>, ds: seq<T>) {
    exists m :: 0 <= m <= |handed| && Concat(handed[..m]) == ds
  }

  /** Each timer's flush among the first `n` frames has handed over all that was detected then. */
  ghost predicate Punctual<T>(
      handed: seq<seq<T>>, before: seq<T>, frames: seq<(bool, seq<T>)>, timer: nat -> bool, n: nat)
    requires n <= |frames|
  {
    forall k :: 0 <= k < n && timer(k) ==> HandedUpTo(handed, before + Concat(Triggered(frames[..k + 1])))
  }

  lemma HandedGrows<T>(handed: seq<seq<T>>, more: seq<seq<T>>, ds: seq<T>)
    requires handed <= more && HandedUpTo(handed, ds)
    ensures HandedUpTo(more, ds)
  {
    var m :| 0 <= m <= |handed| && Concat(handed[..m]) == ds;
    assert more[..m] == handed[..m];
  }

  lemma PunctualGrows<T>(handed: seq<seq<T>>, more: seq<seq<T>>, before: seq<T>,
      frames: seq<(bool, seq<T>)>, timer: nat -> bool, n: nat)
    requires n <= |frames| && handed <= more && Punctual(handed, before, frames, timer, n)
    ensures Punctual(more, before, frames, timer, n)
  {
    forall k | 0 <= k < n && timer(k)
      ensures HandedUpTo(more, before + Concat(Triggered(frames[..k + 1])))
    {
      HandedGrows(handed, more, before + Concat(Triggered(frames[..k + 1])));
    }
  }

  lemma PunctualNext<T>(handed: seq<seq<T>>, more: seq<seq<T>>, before: seq<T>,
      frames: seq<(bool, seq<T>)>, timer: nat -> bool, n: nat)
    requires n < |frames| && handed <= more && Punctual(handed, before, frames, timer, n)
    requires timer(n) ==> Concat(more) == before + Concat(Triggered(frames[..n + 1]))
    ensures Punctual(more, before, frames, timer, n + 1)
  {
    PunctualGrows(handed, more, before, frames, timer, n);
    assert more[..|more|] == more;
  }

  /** The detections of a stream: those of its triggered frames, none else, in order. */
  lemma {:induction false} TriggeredIs<T>(frames: seq<(bool, seq<T>)>, frame: (bool, seq<T>))
    ensures Concat(Triggered<T>([])) == []
    ensures Concat(Triggered(frames + [frame])) ==
      if frame.0 then Concat(Triggered(frames)) + frame.1 else Concat(Triggered(frames))
  {
    TriggeredNext(frames + [frame], |frames|);
    assert (frames + [frame])[..|frames| + 1] == frames + [frame] && (frames + [frame])[..|frames|] == frames;
  }

  lemma TriggeredNext<T>(frames: seq<(bool, seq<T>)>, n: nat)
    requires n < |frames|
    ensures Concat(Triggered(frames[..n + 1])) ==
      Concat(Triggered(frames[..n])) + (if frames[n].0 then frames[n].1 else [])
  {
    var found := if frames[n].0 then frames[n].1 else [];
    ConcatAppend(Triggered(frames[..n]), found);
    assert Triggered(frames[..n + 1]) == Triggered(frames[..n]) + [found];
  }

  function Triggered<T>(frames: seq<(bool, seq<T>)>): seq<seq<T>> {
    seq(|frames|, i requires 0 <= i < |frames| => if frames[i].0 then frames[i].1 else [])
  }
}

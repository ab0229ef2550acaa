/** The in-process pub/sub broker: one unbounded queue per subscriber. */
module SseBroker {

  class Queue<M> {
    var items: seq<M>
    /** What `get` has returned so far. */
    ghost var received: seq<M>
    /** How long the publish log was when this subscriber connected. */
    ghost const since: nat

    constructor (ghost since: nat)
      ensures items == [] && received == [] && this.since == since
    {
      items, received := [], [];
      this.since := since;
    }
  }

  class SSEBroker<M> {
    var subscribers: seq<Queue<M>>
    /** Everything published, in order. */
    ghost var log: seq<M>

    ghost function Queues(): set<Queue<M>>
      reads this
    {
      set q | q in subscribers
    }

    /** Subscribers are distinct, and what each has received followed by what it still has
        queued is, in order, all that was published since it connected. */
    ghost predicate Valid()
      reads this, Queues()
    {
      && (forall i, j :: 0 <= i < j < |subscribers| ==> subscribers[i] != subscribers[j])
      && (forall q :: q in subscribers ==> q.since <= |log| && q.received + q.items == log[q.since..])
    }

    constructor ()
      ensures Valid() && subscribers == [] && log == []
    {
      subscribers, log := [], [];
    }

    method Connect() returns (queue: Queue<M>)
      requires Valid()
      modifies this`subscribers
      ensures Valid() && fresh(queue) && subscribers == old(subscribers) + [queue]
      ensures queue.since == |log| && queue.items == [] && queue.received == []
    {
      queue := new Queue(|log|);
      subscribers := subscribers + [queue];
    }

    /** Removes that subscriber and no other; a queue that is not connected is ignored. */
    method Disconnect(queue: Queue<M>)
      requires Valid()
      modifies this`subscribers
      ensures Valid() && Queues() == old(Queues()) - {queue}
      ensures queue !in old(subscribers) ==> subscribers == old(subscribers)
      ensures forall i :: 0 <= i < |old(subscribers)| && old(subscribers)[i] == queue ==>
        subscribers == old(subscribers)[..i] + old(subscribers)[i + 1..]
    {
      var i := 0;
      while i < |subscribers| && subscribers[i] != queue
        invariant 0 <= i <= |subscribers|
        invariant forall k :: 0 <= k < i ==> subscribers[k] != queue
      {
        i := i + 1;
      }
      if i < |subscribers| {
        subscribers := subscribers[..i] + subscribers[i + 1..];
      }
    }

    /** The consumer's side: the oldest message, exactly once. */
    method Get(queue: Queue<M>) returns (m: M)
      requires Valid() && queue.items != []
      modifies queue`items, queue`received
      ensures Valid()
      ensures m == old(queue.items)[0] && queue.items == old(queue.items)[1..]
      ensures queue.received == old(queue.received) + [m]
    {
      m := queue.items[0];
      assert queue.received + queue.items == (queue.received + [m]) + queue.items[1..];
      queue.items := queue.items[1..];
      queue.received := queue.received + [m];
    }

    /** Fan-out: every subscriber's queue gets the message, last. */
    method Publish(m: M)
      requires Valid()
      modifies this`log, Queues()
      ensures Valid() && log == old(log) + [m]
      ensures forall q :: q in subscribers ==>
        q.items == old(q.items) + [m] && q.received == old(q.received)
    {
      var snapshot := subscribers;
      for n := 0 to |snapshot|
        invariant log == old(log)
        invariant forall q :: q in subscribers ==> q.received == old(q.received)
        invariant forall k :: 0 <= k < |snapshot| ==>
          snapshot[k].items == old(snapshot[k].items) + (if k < n then [m] else [])
      {
        snapshot[n].items := snapshot[n].items + [m];
      }
      forall q | q in subscribers ensures q.received + q.items == (log + [m])[q.since..] {
        assert (log + [m])[q.since..] == log[q.since..] + [m];
        assert q.items == old(q.items) + [m];
        assert q.received + (old(q.items) + [m]) == (q.received + old(q.items)) + [m];
      }
      log := log + [m];
    }
  }
}

/**
 The in-memory broker objects: one queue, replay buffer and finished flag per
 run, updated in place, and the manager that owns them and the counters.
 */
module Broker {
  import opened Options
  import opened EventId
  import opened EventLog

  /** Outcome of one round of the live iterator. */
  datatype Took = Item(e: Event) | Empty | Over

  class RunBroker {
    var queue: seq<Event>
    var buffer: seq<Event>
    var finished: bool

    constructor ()
      ensures queue == [] && buffer == [] && !finished
    {
      queue, buffer, finished := [], [], false;
    }

    method Put(e: Event, resumable: bool)
      modifies this
      ensures old(finished) ==> queue == old(queue) && buffer == old(buffer) && finished
      ensures !old(finished) ==> queue == old(queue) + [e] && buffer == old(buffer) + (if resumable then [e] else [])
      ensures !old(finished) ==> (finished <==> IsEnd(e.payload))
    {
      if finished {
        return;
      }
      if resumable {
        buffer := buffer + [e];
      }
      queue := queue + [e];
      if IsEnd(e.payload) {
        MarkFinished();
      }
    }

    method MarkFinished()
      modifies this`finished
      ensures finished
    {
      finished := true;
    }

    /** Index of the id, then slice. */
    method Replay(last: Option<string>) returns (r: seq<Event>)
      ensures r == ReplayAfter(buffer, last)
    {
      if buffer == [] || last.None? {
        return buffer;
      }
      for i := 0 to |buffer|
        invariant forall k :: 0 <= k < i ==> buffer[k].id != last.value
      {
        if buffer[i].id == last.value {
          FirstIndexIs(buffer, last.value, Some(i));
          return buffer[i + 1..];
        }
      }
      FirstIndexIs(buffer, last.value, None);
      return buffer;
    }

    /** One queue.get with its timeout: an item, nothing yet, or the end. */
    method Next() returns (t: Took)
      modifies this`queue
      ensures old(queue) != [] ==> t == Item(old(queue)[0]) && queue == old(queue)[1..]
      ensures old(queue) == [] ==> queue == [] && t == if finished then Over else Empty
    {
      if queue != [] {
        t := Item(queue[0]);
        queue := queue[1..];
      } else {
        t := if finished then Over else Empty;
      }
    }

    /** The live iterator for at most this many rounds, nothing published in
        between: it hands out the queue's items in order and stops after an end
        event or, on a finished broker, when none is left.  On an unfinished
        broker without a waiting end event it never stops by itself. */
    method Iterate(rounds: nat) returns (items: seq<Event>, over: bool)
      modifies this`queue
      ensures items + queue == old(queue) && |items| <= rounds
      ensures forall k :: 0 <= k < |items| - 1 ==> !IsEnd(items[k].payload)
      ensures over ==> (items != [] && IsEnd(items[|items| - 1].payload)) || (finished && queue == [])
      ensures !over ==> (forall k :: 0 <= k < |items| ==> !IsEnd(items[k].payload))
                        && (|items| == rounds || (!finished && queue == []))
    {
      items, over := [], false;
      for k := 0 to rounds
        invariant !over && items + queue == old(queue) && |items| <= k
        invariant forall k :: 0 <= k < |items| ==> !IsEnd(items[k].payload)
        invariant |items| == k || (!finished && queue == [])
      {
        ghost var left := queue;
        var t := Next();
        match t {
          case Item(e) =>
            assert left == [e] + queue;
            items := items + [e];
            if IsEnd(e.payload) {
              return items, true;
            }
          case Over => return items, true;
          case Empty =>
        }
      }
    }
  }

  class BrokerManager {
    var brokers: map<string, RunBroker>
    var counters: map<string, nat>
    var cancelled: set<string>   // runs whose task was told to stop

    function Counter(runId: string): nat
      reads this
    {
      if runId in counters then counters[runId] else 0
    }

    /** The log of a run; a run without a broker has an empty one. */
    ghost function Log(runId: string): Channel
      reads this, set r | r in brokers :: brokers[r]
    {
      if runId in brokers then
        var b := brokers[runId];
        Channel(b.buffer, b.queue, b.finished, Counter(runId))
      else Channel([], [], false, Counter(runId))
    }

    /** Each run has a broker of its own, and only runs with one have a counter. */
    ghost predicate Valid()
      reads this
    {
      && (forall r, q :: r in brokers && q in brokers && r != q ==> brokers[r] != brokers[q])
      && counters.Keys <= brokers.Keys
    }

    /** Brokers are only ever replaced by new ones. */
    twostate predicate OldOrFresh()
      reads this
    {
      forall r :: r in brokers ==> (r in old(brokers) && brokers[r] == old(brokers[r])) || fresh(brokers[r])
    }

    constructor ()
      ensures Valid() && brokers == map[] && counters == map[] && cancelled == {}
    {
      brokers, counters, cancelled := map[], map[], {};
    }

    method GetOrCreateBroker(runId: string) returns (b: RunBroker)
      requires Valid()
      modifies this`brokers
      ensures Valid() && OldOrFresh()
      ensures runId in brokers && b == brokers[runId]
      ensures brokers.Keys == old(brokers).Keys + {runId}
      ensures forall r :: r in old(brokers) ==> brokers[r] == old(brokers)[r]
      ensures forall r :: Log(r) == old(Log(r))
    {
      if runId !in brokers {
        b := new RunBroker();
        brokers := brokers[runId := b];
        assert forall r :: Log(r) == old(Log(r));
      }
      b := brokers[runId];
    }

    /** Allocate the next id and put: the protocol's one publishing step. */
    method PublishEvent(runId: string, p: Payload)
      requires Valid()
      modifies this`brokers, this`counters, set r | r in brokers :: brokers[r]
      ensures Valid() && OldOrFresh() && runId in brokers
      ensures Log(runId) == Publish(RunCodec(runId), old(Log(runId)), p)
      ensures forall r :: r != runId ==> Log(r) == old(Log(r))
    {
      var b := GetOrCreateBroker(runId);
      var number := Counter(runId) + 1;
      counters := counters[runId := number];
      var e := Event(GenerateEventId(runId, number), p);
      b.Put(e, true);
      assert brokers[runId] == b && Counter(runId) == number;
      forall r | r != runId ensures Log(r) == old(Log(r)) {
        assert r in brokers ==> brokers[r] != b;
      }
    }

    method CleanupBroker(runId: string)
      requires Valid()
      modifies set r | r in brokers :: brokers[r]
      ensures Valid()
      ensures Log(runId) == if runId in brokers then Apply(RunCodec(runId), old(Log(runId)), Cleanup)
                            else old(Log(runId))
      ensures forall r :: r != runId ==> Log(r) == old(Log(r))
    {
      if runId in brokers {
        brokers[runId].MarkFinished();
        assert Log(runId) == old(Log(runId)).(finished := true);
      }
      assert forall r :: r != runId ==> Log(r) == old(Log(r));
    }

    /** Forget the run: the next broker of this run starts a new log at 1. */
    method RemoveBroker(runId: string)
      requires Valid()
      modifies this`brokers, this`counters, set r | r in brokers :: brokers[r]
      ensures Valid() && OldOrFresh()
      ensures runId !in brokers
      ensures Log(runId) == if runId in old(brokers) then NEW_CHANNEL else old(Log(runId))
      ensures forall r :: r != runId ==> Log(r) == old(Log(r))
    {
      if runId in brokers {
        brokers[runId].MarkFinished();
        brokers := brokers - {runId};
        counters := counters - {runId};
      }
      assert forall r :: r != runId ==> Log(r) == old(Log(r));
    }

    /** End event of a successful or interrupted run; a run without a broker gets none. */
    method SignalEndEvent(runId: string, status: string)
      requires Valid()
      modifies this`brokers, this`counters, set r | r in brokers :: brokers[r]
      ensures Valid() && OldOrFresh()
      ensures runId in brokers <==> runId in old(brokers)
      ensures Log(runId) == if runId in old(brokers) then Apply(RunCodec(runId), old(Log(runId)), SignalEnd(status))
                            else old(Log(runId))
      ensures forall r :: r != runId ==> Log(r) == old(Log(r))
    {
      if runId !in brokers || brokers[runId].finished {
        return;
      }
      PublishEvent(runId, EndPayload(status));
    }

    method SignalRunCancelled(runId: string)
      requires Valid()
      modifies this`brokers, this`counters, set r | r in brokers :: brokers[r]
      ensures Valid() && OldOrFresh() && runId in brokers
      ensures Log(runId) == Apply(RunCodec(runId), old(Log(runId)), SignalCancelled)
      ensures forall r :: r != runId ==> Log(r) == old(Log(r))
    {
      var b := GetOrCreateBroker(runId);
      if b.finished {
        return;
      }
      EndAsInterrupted(runId);
    }

    method EndAsInterrupted(runId: string)
      requires Valid()
      modifies this`brokers, this`counters, set r | r in brokers :: brokers[r]
      ensures Valid() && OldOrFresh() && runId in brokers
      ensures Log(runId) == Publish(RunCodec(runId), old(Log(runId)), EndPayload("interrupted")).(finished := true)
      ensures forall r :: r != runId ==> Log(r) == old(Log(r))
    {
      PublishEvent(runId, EndPayload("interrupted"));
      CleanupBroker(runId);
    }

    method SignalRunError(runId: string, kind: string)
      requires Valid()
      modifies this`brokers, this`counters, set r | r in brokers :: brokers[r]
      ensures Valid() && OldOrFresh() && runId in brokers
      ensures Log(runId) == Apply(RunCodec(runId), old(Log(runId)), SignalError(kind))
      ensures forall r :: r != runId ==> Log(r) == old(Log(r))
    {
      var b := GetOrCreateBroker(runId);
      if b.finished {
        return;
      }
      EndWithError(runId, kind);
    }

    method EndWithError(runId: string, kind: string)
      requires Valid()
      modifies this`brokers, this`counters, set r | r in brokers :: brokers[r]
      ensures Valid() && OldOrFresh() && runId in brokers
      ensures var c := RunCodec(runId);
              Log(runId) == Publish(c, Publish(c, old(Log(runId)), Payload("error", kind)), EndPayload("error"))
                            .(finished := true)
      ensures forall r :: r != runId ==> Log(r) == old(Log(r))
    {
      PublishErrorThenEnd(runId, kind);
      CleanupBroker(runId);
    }

    method PublishErrorThenEnd(runId: string, kind: string)
      requires Valid()
      modifies this`brokers, this`counters, set r | r in brokers :: brokers[r]
      ensures Valid() && OldOrFresh() && runId in brokers
      ensures var c := RunCodec(runId);
              Log(runId) == Publish(c, Publish(c, old(Log(runId)), Payload("error", kind)), EndPayload("error"))
      ensures forall r :: r != runId ==> Log(r) == old(Log(r))
    {
      PublishEvent(runId, Payload("error", kind));
      PublishEvent(runId, EndPayload("error"));
    }

    /** API cancel on this instance: nothing unless the run's task is active;
        otherwise the task is told to stop and the log ends as interrupted. */
    method RequestCancel(runId: string, active: bool)
      requires Valid()
      modifies this, set r | r in brokers :: brokers[r]
      ensures Valid() && OldOrFresh()
      ensures cancelled == if active then old(cancelled) + {runId} else old(cancelled)
      ensures Log(runId) == if active then Apply(RunCodec(runId), old(Log(runId)), SignalCancelled) else old(Log(runId))
      ensures forall r :: r != runId ==> Log(r) == old(Log(r))
    {
      if !active {
        return;
      }
      cancelled := cancelled + {runId};
      SignalRunCancelled(runId);
    }
  }
}

/**
 The Redis broker's replay list: pushed and trimmed in one pipeline, read back
 with a one-pass flag loop, and when that agrees with the unbounded in-memory
 replay buffer.
 */
module RedisReplay {
  import opened Options
  import opened EventId
  import opened EventLog

  const MAX_EVENTS: nat := 10_000

  /** The last `limit` stored events. */
  function Window(history: seq<Event>, limit: nat): seq<Event> {
    if |history| <= limit then history else history[|history| - limit..]
  }

  /** Which part of a put reached Redis. */
  datatype Delivery = Delivered | NotStored | StoredOnly

  class RedisRunBroker {
    var cache: seq<Event>           // the Redis list
    var counter: nat                // the Redis counter key
    var finished: bool
    ghost var history: seq<Event>   // every event ever stored

    ghost predicate Valid()
      reads this
    {
      cache == Window(history, MAX_EVENTS)
    }

    constructor ()
      ensures Valid() && history == [] && counter == 0 && !finished
    {
      cache, counter, finished, history := [], 0, false, [];
    }

    /** Push, trim and count in one pipeline, then publish; an end event
        finishes the broker even when Redis is down. */
    method Put(e: Event, resumable: bool, d: Delivery)
      requires Valid()
      modifies this
      ensures Valid()
      ensures var stored := !old(finished) && resumable && !d.NotStored?;
              && history == old(history) + (if stored then [e] else [])
              && counter == old(counter) + (if stored then 1 else 0)
      ensures finished <==> old(finished) || IsEnd(e.payload)
      ensures cache == if |history| <= 10_000 then history else history[|history| - 10_000..]
    {
      if finished {
        return;
      }
      if resumable && !d.NotStored? {
        cache := cache + [e];
        if |cache| > MAX_EVENTS {
          cache := cache[|cache| - MAX_EVENTS..];
        }
        counter := counter + 1;
        history := history + [e];
      }
      if IsEnd(e.payload) {
        finished := true;
      }
    }

    /** INCR on the counter key. */
    method AllocateEventNumber() returns (n: nat)
      requires Valid()
      modifies this`counter
      ensures Valid() && n == old(counter) + 1 && counter == n
    {
      counter := counter + 1;
      n := counter;
    }

    /** The flag loop over the fetched list; nothing when Redis cannot be read. */
    method Replay(last: Option<string>, up: bool) returns (r: seq<Event>)
      requires Valid()
      ensures r == if up then ReplayAfter(Window(history, MAX_EVENTS), last) else []
    {
      if !up {
        return [];
      }
      r := FlagLoop(cache, last);
    }

    /** Publishing while Redis is up: an id is allocated and its event stored, one
        payload after the other.  Both increment the counter, so the numbers of a
        run rise by two; every stored event keeps its own. */
    method PublishAll(runId: string, payloads: seq<Payload>)
      requires Valid() && !finished && forall k :: 0 <= k < |payloads| - 1 ==> !IsEnd(payloads[k])
      modifies this
      ensures Valid() && counter == old(counter) + 2 * |payloads|
      ensures |history| == |old(history)| + |payloads| && old(history) <= history
      ensures forall k :: 0 <= k < |payloads| ==>
                history[|old(history)| + k] == Event(GenerateEventId(runId, old(counter) + 2 * k + 1), payloads[k])
      ensures finished <==> payloads != [] && IsEnd(payloads[|payloads| - 1])
    {
      for k := 0 to |payloads|
        invariant Valid() && counter == old(counter) + 2 * k
        invariant |history| == |old(history)| + k && old(history) <= history
        invariant forall j :: 0 <= j < k ==>
                    history[|old(history)| + j] == Event(GenerateEventId(runId, old(counter) + 2 * j + 1), payloads[j])
        invariant finished <==> k > 0 && IsEnd(payloads[k - 1])
      {
        var number := AllocateEventNumber();
        Put(Event(GenerateEventId(runId, number), payloads[k]), true, Delivered);
      }
    }
  }

  /** One pass: everything is collected, and what follows the first match of the
      id once it was found. */
  method FlagLoop(events: seq<Event>, last: Option<string>) returns (r: seq<Event>)
    ensures r == ReplayAfter(events, last)
  {
    var all: seq<Event>, after: seq<Event>, found := [], [], last.None?;
    ghost var at := 0;
    for k := 0 to |events|
      invariant all == events[..k]
      invariant last.None? ==> found && after == events[..k]
      invariant last.Some? && !found ==> after == [] && forall j :: 0 <= j < k ==> events[j].id != last.value
      invariant last.Some? && found ==> at < k && events[at].id == last.value && after == events[at + 1..k]
      invariant last.Some? && found ==> forall j :: 0 <= j < at ==> events[j].id != last.value
    {
      all := all + [events[k]];
      if !found {
        if events[k].id == last.value {
          found, at := true, k;
        }
      } else {
        after := after + [events[k]];
      }
    }
    if !found {
      FirstIndexIs(events, last.value, None);
      return all;
    }
    if last.Some? {
      FirstIndexIs(events, last.value, Some(at));
    }
    return after;
  }

  /** The event after which the full list resumes was not trimmed: its id was
      found inside the window, or on the last trimmed event and never again. */
  predicate ResumesAlike(inFull: Option<nat>, inWindow: Option<nat>, start: nat) {
    inFull.Some? && (start <= inFull.value || (inFull.value + 1 == start && inWindow.None?))
  }

  /** The windowed list and the unbounded buffer replay the same events exactly
      when nothing was trimmed, or the id's first occurrence is still in the
      window, or it is the very last event trimmed and does not recur. */
  lemma WindowReplayAgreesIff(history: seq<Event>, limit: nat, last: Option<string>)
    ensures ReplayAfter(Window(history, limit), last) == ReplayAfter(history, last) <==>
              || |history| <= limit
              || (last.Some? && ResumesAlike(FirstIndex(history, last.value),
                                             FirstIndex(Window(history, limit), last.value),
                                             |history| - limit))
  {
    var w := Window(history, limit);
    if last.None? {
      FullReplayAgreesIff(history, w, limit);
    } else if limit < |history| {
      TrimmedReplayAgreesIff(history, w, |history| - limit, last.value);
    }
  }

  lemma FullReplayAgreesIff(history: seq<Event>, w: seq<Event>, limit: nat)
    requires w == Window(history, limit)
    ensures ReplayAfter(w, None) == ReplayAfter(history, None) <==> |history| <= limit
  {
    assert limit < |history| ==> |w| < |history|;
  }

  /** The same for a list that lost its first `start` events. */
  lemma TrimmedReplayAgreesIff(history: seq<Event>, w: seq<Event>, start: nat, id: string)
    requires 0 < start <= |history| && w == history[start..]
    ensures ReplayAfter(w, Some(id)) == ReplayAfter(history, Some(id)) <==>
              ResumesAlike(FirstIndex(history, id), FirstIndex(w, id), start)
  {
    IndexInWindow(history, w, start, id);
    var inFull, inWindow := FirstIndex(history, id), FirstIndex(w, id);
    AfterIndex(history, id, inFull);
    AfterIndex(w, id, inWindow);
    TailsAgreeIff(history, start, w, inFull, inWindow);
  }

  /** What is replayed after the place an id was found at. */
  function After(events: seq<Event>, at: Option<nat>): seq<Event>
    requires at.Some? ==> at.value < |events|
  {
    if at.None? then events else events[at.value + 1..]
  }

  lemma AfterIndex(events: seq<Event>, id: string, at: Option<nat>)
    requires at == FirstIndex(events, id)
    ensures at.Some? ==> at.value < |events|
    ensures ReplayAfter(events, Some(id)) == After(events, at)
  {
  }

  lemma TailsAgreeIff(history: seq<Event>, start: nat, w: seq<Event>, inFull: Option<nat>, inWindow: Option<nat>)
    requires 0 < start <= |history| && w == history[start..]
    requires inFull.Some? ==> inFull.value < |history|
    requires inWindow.Some? ==> inWindow.value < |w|
    requires inFull.None? ==> inWindow.None?
    requires inFull.Some? && start <= inFull.value ==> inWindow == Some(inFull.value - start)
    ensures After(w, inWindow) == After(history, inFull) <==> ResumesAlike(inFull, inWindow, start)
  {
    if inFull.None? {
      assert |After(w, inWindow)| < |After(history, inFull)|;
    } else if start <= inFull.value {
      assert history[inFull.value + 1..] == w[inWindow.value + 1..];
    } else {
      assert |After(history, inFull)| == |history| - inFull.value - 1;
      assert |After(w, inWindow)| == |w| - (if inWindow.Some? then inWindow.value + 1 else 0);
    }
  }

  lemma IndexInWindow(history: seq<Event>, w: seq<Event>, start: nat, id: string)
    requires start <= |history| && w == history[start..]
    ensures FirstIndex(history, id).None? ==> FirstIndex(w, id).None?
    ensures FirstIndex(history, id).Some? && start <= FirstIndex(history, id).value ==>
              FirstIndex(w, id) == Some(FirstIndex(history, id).value - start)
  {
    var inFull := FirstIndex(history, id);
    FirstIndexIs(history, id, inFull);
    if inFull.None? {
      FirstIndexIs(w, id, None);
    } else if start <= inFull.value {
      var at := inFull.value - start;
      assert forall k :: 0 <= k < at ==> w[k] == history[..inFull.value][start + k];
      FirstIndexIs(w, id, Some(at));
    }
  }
}

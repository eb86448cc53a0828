/**
 The event log of one run as a value: replay buffer, live queue, finished flag
 and sequence counter, with the operations that publish to it.
 */
module EventLog {
  import opened Options
  import opened EventId

  /** How the sequence numbers of one run's events are printed and parsed. */
  datatype Codec = Codec(render: nat -> string, parse: string -> int)

  ghost predicate Inverts(c: Codec) {
    forall n: nat :: c.parse(c.render(n)) == n
  }

  /** The event ids of a run. */
  function RunCodec(runId: string): Codec {
    Codec((n: nat) => GenerateEventId(runId, n), id => ExtractEventSequence(id))
  }

  lemma RunCodecInverts(runId: string)
    requires TrailingBlocks(runId) % 2 == 0
    ensures Inverts(RunCodec(runId))
  {
    forall n: nat ensures RunCodec(runId).parse(RunCodec(runId).render(n)) == n {
      RoundTrip(runId, n);
    }
  }

  datatype Payload = Payload(mode: string, body: string)

  datatype Event = Event(id: string, payload: Payload)

  datatype Channel = Channel(buffer: seq<Event>, queue: seq<Event>, finished: bool, counter: nat)

  const NEW_CHANNEL := Channel([], [], false, 0)

  predicate IsEnd(p: Payload) {
    p.mode == "end"
  }

  /** The broker refuses everything once finished, and an end event finishes it. */
  function Put(ch: Channel, e: Event): Channel {
    if ch.finished then ch
    else ch.(buffer := ch.buffer + [e], queue := ch.queue + [e], finished := IsEnd(e.payload))
  }

  /** Allocate the next id and put: no other coroutine runs in between. */
  function Publish(c: Codec, ch: Channel, p: Payload): Channel {
    Put(ch.(counter := ch.counter + 1), Event(c.render(ch.counter + 1), p))
  }

  datatype Op =
    | Emit(p: Payload)              // graph event: allocate and put, finished or not
    | SignalEnd(status: string)     // success or interrupt
    | SignalCancelled               // also the end event of request_cancel
    | SignalError(kind: string)
    | Cleanup

  function EndPayload(status: string): Payload {
    Payload("end", status)
  }

  function Apply(c: Codec, ch: Channel, op: Op): Channel {
    match op
    case Emit(p) => Publish(c, ch, p)
    case SignalEnd(status) => if ch.finished then ch else Publish(c, ch, EndPayload(status))
    case SignalCancelled =>
      if ch.finished then ch else Publish(c, ch, EndPayload("interrupted")).(finished := true)
    case SignalError(kind) =>
      if ch.finished then ch
      else Publish(c, Publish(c, ch, Payload("error", kind)), EndPayload("error")).(finished := true)
    case Cleanup => ch.(finished := true)
  }

  // ------------------------------------------------------------ replay

  /** The events after the first one with this id; all of them without an id or
      when the id is unknown. */
  function ReplayAfter(events: seq<Event>, last: Option<string>): seq<Event> {
    if last.None? then events
    else
      match FirstIndex(events, last.value)
      case None => events
      case Some(i) => events[i + 1..]
  }

  function FirstIndex(events: seq<Event>, id: string): (r: Option<nat>)
    ensures r.Some? ==> r.value < |events|
  {
    if events == [] then None
    else if events[0].id == id then Some(0)
    else
      match FirstIndex(events[1..], id)
      case None => None
      case Some(i) => Some(i + 1)
  }

  predicate Absent(events: seq<Event>, id: string) {
    forall k :: 0 <= k < |events| ==> events[k].id != id
  }

  /** The place of the first event with an id, and of none if it is absent. */
  lemma {:induction false} FirstIndexIs(events: seq<Event>, id: string, at: Option<nat>)
    ensures FirstIndex(events, id) == at <==>
              match at
              case None => Absent(events, id)
              case Some(i) => i < |events| && events[i].id == id && Absent(events[..i], id)
  {
    if events != [] {
      if events[0].id != id {
        assert at.Some? && 0 < at.value <= |events| ==> events[..at.value] == [events[0]] + events[1..][..at.value - 1];
        FirstIndexIs(events[1..], id, if at.Some? && at.value > 0 then Some(at.value - 1) else None);
      }
    }
  }

  // ------------------------------------------------- end-of-log discipline

  /** The buffer holds sequence numbers 1..k, an end event only as its last
      entry and only when finished, and the queue is what live consumers have
      not yet taken of it. */
  ghost predicate WellFormed(c: Codec, ch: Channel) {
    && (forall k :: 0 <= k < |ch.buffer| ==> ch.buffer[k].id == c.render(k + 1))
    && (forall k :: 0 <= k < |ch.buffer| && IsEnd(ch.buffer[k].payload) ==> k == |ch.buffer| - 1 && ch.finished)
    && |ch.buffer| <= ch.counter && (!ch.finished ==> |ch.buffer| == ch.counter)
    && |ch.queue| <= |ch.buffer| && ch.queue == ch.buffer[|ch.buffer| - |ch.queue|..]
  }

  lemma PublishKeepsWellFormed(c: Codec, ch: Channel, p: Payload)
    requires WellFormed(c, ch)
    ensures WellFormed(c, Publish(c, ch, p))
  {
    var ch' := Publish(c, ch, p);
    if !ch.finished {
      assert ch'.queue == ch'.buffer[|ch'.buffer| - |ch'.queue|..];
    }
  }

  /** Every publisher, whichever of success, error, cancel and cleanup races,
      keeps the log well formed, appends in order, and appends nothing once the
      log is finished. */
  lemma OpKeepsWellFormed(c: Codec, ch: Channel, op: Op)
    requires WellFormed(c, ch)
    ensures WellFormed(c, Apply(c, ch, op))
    ensures ch.buffer <= Apply(c, ch, op).buffer
    ensures ch.finished ==> Apply(c, ch, op).finished && Apply(c, ch, op).buffer == ch.buffer
    ensures !op.Emit? ==> Apply(c, ch, op).finished
  {
    match op {
      case Emit(p) => PublishKeepsWellFormed(c, ch, p);
      case SignalEnd(st) => PublishKeepsWellFormed(c, ch, EndPayload(st));
      case SignalCancelled => PublishKeepsWellFormed(c, ch, EndPayload("interrupted"));
      case SignalError(kind) =>
        PublishKeepsWellFormed(c, ch, Payload("error", kind));
        PublishKeepsWellFormed(c, Publish(c, ch, Payload("error", kind)), EndPayload("error"));
      case Cleanup =>
    }
  }

  function ApplyAll(c: Codec, ch: Channel, ops: seq<Op>): Channel
    decreases |ops|
  {
    if ops == [] then ch else ApplyAll(c, Apply(c, ch, ops[0]), ops[1..])
  }

  /** End-of-log discipline over any history of publishers from a new broker:
      numbers 1..k, at most one end and only last, and frozen once finished. */
  lemma {:induction false} EndOfLog(c: Codec, ch: Channel, ops: seq<Op>)
    requires WellFormed(c, ch)
    ensures WellFormed(c, ApplyAll(c, ch, ops))
    ensures ch.buffer <= ApplyAll(c, ch, ops).buffer
    ensures ch.finished ==> ApplyAll(c, ch, ops).buffer == ch.buffer
    decreases |ops|
  {
    if ops != [] {
      OpKeepsWellFormed(c, ch, ops[0]);
      EndOfLog(c, Apply(c, ch, ops[0]), ops[1..]);
    }
  }

  /** In a well-formed log of a run id that prints and parses back, position k
      and only position k carries number k + 1, so replay after event m is the
      rest of the log. */
  lemma ReplayAfterReceived(c: Codec, ch: Channel, m: nat)
    requires WellFormed(c, ch) && Inverts(c) && 0 < m <= |ch.buffer|
    ensures c.parse(ch.buffer[m - 1].id) == m
    ensures ReplayAfter(ch.buffer, Some(ch.buffer[m - 1].id)) == ch.buffer[m..]
  {
    assert c.parse(c.render(m)) == m;
    forall k | 0 <= k < m - 1 ensures ch.buffer[k].id != ch.buffer[m - 1].id {
      assert c.parse(c.render(k + 1)) == k + 1;
    }
    FirstIndexIs(ch.buffer, ch.buffer[m - 1].id, Some(m - 1));
  }
}

/**
 A client of the run's SSE stream on the in-memory broker: it connects, is sent
 the stored events and then the live ones, loses the connection anywhere, and
 reconnects with the id of the last event it received, any number of times, while
 the run keeps publishing.
 */
module Streaming {
  import opened Options
  import opened Numbers
  import opened EventId
  import opened EventLog

  datatype Conn =
    | Idle
    | Replaying(rest: seq<Event>, last: int, terminal: bool, snapshot: nat)
    | Live(last: int)
    | Closed(early: bool)     // by the server; early: without entering the live loop

  datatype System = System(ch: Channel, conn: Conn, received: seq<Event>)

  datatype Label =
    | Run(op: Op)
    | Open(terminal: bool)    // whether the run row read by the endpoint was terminal; then, without a
                              // Last-Event-ID, the endpoint answers at once and opens no stream
    | YieldStored
    | GoLive
    | Take                    // queue.get, then deliver or skip
    | TimeoutClose            // queue.get timed out on a finished, empty queue
    | Disconnect(kept: nat)   // the client keeps what it received, in flight events are lost

  function LastReceived(received: seq<Event>): Option<string> {
    if received == [] then None else Some(received[|received| - 1].id)
  }

  predicate Enabled(s: System, l: Label) {
    match l
    case Run(_) => true
    case Open(terminal) => s.conn.Idle? && (terminal ==> s.received != [])
    case YieldStored => s.conn.Replaying? && s.conn.rest != []
    case GoLive => s.conn.Replaying? && s.conn.rest == []
    case Take => s.conn.Live? && s.ch.queue != []
    case TimeoutClose => s.conn.Live? && s.ch.queue == [] && s.ch.finished
    case Disconnect(kept) => !s.conn.Idle? && kept <= |s.received|
  }

  function Do(c: Codec, s: System, l: Label): System
    requires Enabled(s, l)
  {
    match l
    case Run(op) => s.(ch := Apply(c, s.ch, op))
    case Open(terminal) =>
      var id := LastReceived(s.received);
      var last := match id case None => 0 case Some(i) => c.parse(i);
      s.(conn := Replaying(ReplayAfter(s.ch.buffer, id), last, terminal, |s.ch.buffer|))
    case YieldStored =>
      var e := s.conn.rest[0];
      s.(received := s.received + [e],
         conn := s.conn.(rest := s.conn.rest[1..], last := Max(s.conn.last, c.parse(e.id))))
    case GoLive =>
      if s.conn.terminal && s.ch.finished then s.(conn := Closed(true)) else s.(conn := Live(s.conn.last))
    case Take =>
      var e := s.ch.queue[0];
      var number := c.parse(e.id);
      var isNew := s.conn.last < number;
      s.(ch := s.ch.(queue := s.ch.queue[1..]),
         received := if isNew then s.received + [e] else s.received,
         conn := if IsEnd(e.payload) then Closed(false) else Live(if isNew then number else s.conn.last))
    case TimeoutClose => s.(conn := Closed(false))
    case Disconnect(kept) => s.(conn := Idle, received := s.received[..kept])
  }

  predicate Valid(c: Codec, s: System, ls: seq<Label>)
    decreases |ls|
  {
    ls == [] || (Enabled(s, ls[0]) && Valid(c, Do(c, s, ls[0]), ls[1..]))
  }

  function Exec(c: Codec, s: System, ls: seq<Label>): System
    requires Valid(c, s, ls)
    decreases |ls|
  {
    if ls == [] then s else Exec(c, Do(c, s, ls[0]), ls[1..])
  }

  /** How many events have left the queue. */
  function Taken(ch: Channel): int {
    |ch.buffer| - |ch.queue|
  }

  /** The client holds a prefix of the log, and whatever it still lacks is
      either about to be replayed or waiting in the queue. */
  ghost predicate NoGap(c: Codec, s: System) {
    && WellFormed(c, s.ch)
    && s.received <= s.ch.buffer
    && match s.conn
       case Idle => true
       case Replaying(rest, last, _, snapshot) =>
         && last == |s.received| <= snapshot <= |s.ch.buffer|
         && rest == s.ch.buffer[|s.received|..snapshot]
         && Taken(s.ch) <= snapshot
       case Live(last) => last == |s.received| && Taken(s.ch) <= |s.received|
       case Closed(early) => s.ch.finished && (!early ==> s.received == s.ch.buffer)
  }

  lemma TakeKeepsNoGap(c: Codec, s: System)
    requires Inverts(c) && NoGap(c, s) && Enabled(s, Take)
    ensures NoGap(c, Do(c, s, Take))
  {
    var k := Taken(s.ch);
    assert s.ch.queue[0] == s.ch.buffer[k];
    var s' := Do(c, s, Take);
    assert s'.ch.queue == s'.ch.buffer[|s'.ch.buffer| - |s'.ch.queue|..];
  }

  /** One round of the live loop: the oldest queued event leaves the queue, is sent
      if its number is new, and ends the stream right away if it is an end event,
      sent or not. */
  lemma TakeLaw(c: Codec, s: System)
    requires Enabled(s, Take)
    ensures var e, s' := s.ch.queue[0], Do(c, s, Take);
            && s'.ch == s.ch.(queue := s.ch.queue[1..])
            && s'.received == (if s.conn.last < c.parse(e.id) then s.received + [e] else s.received)
            && (e.payload.mode == "end" ==> s'.conn == Closed(false))
            && (e.payload.mode != "end" ==>
                  s'.conn == Live(if s.conn.last < c.parse(e.id) then c.parse(e.id) else s.conn.last))
  {
  }

  lemma OpenKeepsNoGap(c: Codec, s: System, terminal: bool)
    requires Inverts(c) && NoGap(c, s) && Enabled(s, Open(terminal))
    ensures NoGap(c, Do(c, s, Open(terminal)))
  {
    if s.received != [] {
      ReplayAfterReceived(c, s.ch, |s.received|);
    }
  }

  lemma YieldKeepsNoGap(c: Codec, s: System)
    requires Inverts(c) && NoGap(c, s) && Enabled(s, YieldStored)
    ensures NoGap(c, Do(c, s, YieldStored))
  {
    assert s.conn.rest[0] == s.ch.buffer[|s.received|];
  }

  lemma StepKeepsNoGap(c: Codec, s: System, l: Label)
    requires Inverts(c) && NoGap(c, s) && Enabled(s, l)
    ensures NoGap(c, Do(c, s, l))
  {
    match l {
      case Run(op) => PublishKeepsNoGap(c, s, op);
      case Open(terminal) => OpenKeepsNoGap(c, s, terminal);
      case YieldStored => YieldKeepsNoGap(c, s);
      case Take => TakeKeepsNoGap(c, s);
      case _ => ClosingKeepsNoGap(c, s, l);
    }
  }

  lemma ClosingKeepsNoGap(c: Codec, s: System, l: Label)
    requires NoGap(c, s) && Enabled(s, l) && (l.GoLive? || l.TimeoutClose? || l.Disconnect?)
    ensures NoGap(c, Do(c, s, l))
  {
  }

  lemma PublishKeepsNoGap(c: Codec, s: System, op: Op)
    requires Inverts(c) && NoGap(c, s)
    ensures NoGap(c, Do(c, s, Run(op)))
  {
    OpKeepsWellFormed(c, s.ch, op);
  }

  lemma {:induction false} RunKeepsNoGap(c: Codec, s: System, ls: seq<Label>)
    requires Inverts(c) && NoGap(c, s) && Valid(c, s, ls)
    ensures NoGap(c, Exec(c, s, ls))
    decreases |ls|
  {
    if ls != [] {
      StepKeepsNoGap(c, s, ls[0]);
      RunKeepsNoGap(c, Do(c, s, ls[0]), ls[1..]);
    }
  }

  const START := System(NEW_CHANNEL, Idle, [])

  /** Exactly once across reconnects.  Whatever publishes, disconnects and
      reconnects happened, the client holds a prefix of the run's log: no gap, no
      duplicate, in order, nothing after an end event.  When the live loop closes
      the stream the client holds the whole log, and the log is finished. */
  lemma ExactlyOnce(c: Codec, ls: seq<Label>)
    requires Inverts(c) && Valid(c, START, ls)
    ensures var e := Exec(c, START, ls);
            && e.received <= e.ch.buffer
            && (forall k :: 0 <= k < |e.received| && IsEnd(e.received[k].payload) ==>
                  k == |e.received| - 1 && e.received == e.ch.buffer)
            && (e.conn == Closed(false) ==> e.received == e.ch.buffer && e.ch.finished)
  {
    RunKeepsNoGap(c, START, ls);
  }

  /** In particular for every run whose id has no underscore, as every UUID. */
  lemma ExactlyOnceForUuids(runId: string, ls: seq<Label>)
    requires '_' !in runId && Valid(RunCodec(runId), START, ls)
    ensures var e := Exec(RunCodec(runId), START, ls);
            && e.received <= e.ch.buffer
            && (forall k :: 0 <= k < |e.received| && IsEnd(e.received[k].payload) ==>
                  k == |e.received| - 1 && e.received == e.ch.buffer)
            && (e.conn == Closed(false) ==> e.received == e.ch.buffer && e.ch.finished)
  {
    NoUnderscoreNoBlock(runId);
    RunCodecInverts(runId);
    ExactlyOnce(RunCodec(runId), ls);
  }

  predicate NoDisconnect(ls: seq<Label>) {
    forall k :: 0 <= k < |ls| ==> !ls[k].Disconnect?
  }

  lemma {:induction false} ReceivedGrows(c: Codec, s: System, ls: seq<Label>)
    requires Valid(c, s, ls) && NoDisconnect(ls)
    ensures s.received <= Exec(c, s, ls).received
    decreases |ls|
  {
    if ls != [] {
      assert !ls[0].Disconnect?;
      ReceivedGrows(c, Do(c, s, ls[0]), ls[1..]);
    }
  }

  /** Two streams make one log: after any history, a client that lost its
      connection holding m events and reconnects receives, over the second
      stream alone, exactly the log from position m on. */
  lemma SecondStreamIsTheRest(c: Codec, first: seq<Label>, terminal: bool, second: seq<Label>)
    requires Inverts(c) && Valid(c, START, first)
    requires Enabled(Exec(c, START, first), Open(terminal)) && NoDisconnect(second)
    requires Valid(c, Do(c, Exec(c, START, first), Open(terminal)), second)
    requires Exec(c, Do(c, Exec(c, START, first), Open(terminal)), second).conn == Closed(false)
    ensures var s := Exec(c, START, first);
            var e := Exec(c, Do(c, s, Open(terminal)), second);
            && s.received <= e.received
            && s.received + e.received[|s.received|..] == e.ch.buffer
  {
    RunKeepsNoGap(c, START, first);
    var s := Exec(c, START, first);
    var o := Do(c, s, Open(terminal));
    StepKeepsNoGap(c, s, Open(terminal));
    RunKeepsNoGap(c, o, second);
    ReceivedGrows(c, o, second);
  }

  /** The early return is exact about its one defect: a stream that skips the
      live loop because the run was terminal when the endpoint read it, and the
      broker is finished by the time replay ends, is complete if and only if
      nothing was published since the replay's snapshot. */
  lemma EarlyReturnIsCompleteIff(c: Codec, ls: seq<Label>)
    requires Inverts(c) && Valid(c, START, ls)
    requires var e := Exec(c, START, ls); Enabled(e, GoLive) && e.conn.terminal && e.ch.finished
    ensures var e := Exec(c, START, ls);
            && Do(c, e, GoLive).conn == Closed(true)
            && (Do(c, e, GoLive).received == e.ch.buffer <==> e.conn.snapshot == |e.ch.buffer|)
  {
    RunKeepsNoGap(c, START, ls);
  }

  lemma ExtendRun(c: Codec, ls: seq<Label>, e: System, l: Label) returns (ls': seq<Label>, e': System)
    requires Valid(c, START, ls) && Exec(c, START, ls) == e && Enabled(e, l)
    ensures Valid(c, START, ls') && Exec(c, START, ls') == e' && e' == Do(c, e, l)
  {
    ls', e' := ls + [l], Do(c, e, l);
    ExtendFrom(c, START, ls, l);
  }

  lemma {:induction false} ExtendFrom(c: Codec, s: System, ls: seq<Label>, l: Label)
    requires Valid(c, s, ls) && Enabled(Exec(c, s, ls), l)
    ensures Valid(c, s, ls + [l]) && Exec(c, s, ls + [l]) == Do(c, Exec(c, s, ls), l)
    decreases |ls|
  {
    if ls == [] {
      assert ls + [l] == [l] && [l][1..] == [];
      assert Valid(c, Do(c, s, l), []);
    } else {
      assert (ls + [l])[1..] == ls[1..] + [l];
      ExtendFrom(c, Do(c, s, ls[0]), ls[1..], l);
    }
  }

  /** The defect is reachable: `success` is committed before the end event is
      published, so a reconnect in that window can miss the end event. */
  lemma EndEventCanBeMissed(c: Codec) returns (ls: seq<Label>, e: System)
    requires Inverts(c)
    ensures Valid(c, START, ls) && Exec(c, START, ls) == e
    ensures e.conn == Closed(true) && 0 < |e.received| && |e.received| + 1 == |e.ch.buffer|
    ensures !IsEnd(e.received[|e.received| - 1].payload) && IsEnd(e.ch.buffer[|e.ch.buffer| - 1].payload)
  {
    var a, b := Payload("values", "a"), Payload("values", "b");
    ls, e := ExtendRun(c, [], START, Run(Emit(a)));
    ls, e := ExtendRun(c, ls, e, Open(false));
    ls, e := ExtendRun(c, ls, e, YieldStored);
    ls, e := ExtendRun(c, ls, e, Disconnect(1));
    ls, e := ExtendRun(c, ls, e, Run(Emit(b)));
    assert e.ch.buffer == [Event(c.render(1), a), Event(c.render(2), b)];
    assert e.received == [e.ch.buffer[0]];
    assert FirstIndex(e.ch.buffer, e.ch.buffer[0].id) == Some(0);
    ls, e := ExtendRun(c, ls, e, Open(true));
    assert e.conn.rest == [e.ch.buffer[1]];
    ls, e := ExtendRun(c, ls, e, YieldStored);
    ls, e := ExtendRun(c, ls, e, Run(SignalEnd("success")));
    ls, e := ExtendRun(c, ls, e, GoLive);
  }

  // ------------------------------------------- does the server ever close?

  predicate NoPublish(ls: seq<Label>) {
    forall k :: 0 <= k < |ls| ==> !ls[k].Run?
  }

  predicate IsOpen(s: System) {
    s.conn.Replaying? || s.conn.Live?
  }

  /** A continuation in which nobody publishes or signals anything, at whose end
      the server has closed the stream. */
  ghost predicate Closes(c: Codec, s: System, ls: seq<Label>) {
    Valid(c, s, ls) && NoPublish(ls) && Exec(c, s, ls).conn.Closed?
  }

  lemma {:induction false} LogIsFrozen(c: Codec, s: System, ls: seq<Label>)
    requires Valid(c, s, ls) && NoPublish(ls)
    ensures Exec(c, s, ls).ch.buffer == s.ch.buffer && Exec(c, s, ls).ch.finished == s.ch.finished
    decreases |ls|
  {
    if ls != [] {
      assert !ls[0].Run?;
      LogIsFrozen(c, Do(c, s, ls[0]), ls[1..]);
    }
  }

  /** What the server does next on an open stream of a finished log. */
  function ServerStep(s: System): Label {
    if s.conn.Replaying? then (if s.conn.rest != [] then YieldStored else GoLive)
    else if s.ch.queue != [] then Take
    else TimeoutClose
  }

  lemma {:induction false} ServerDrains(c: Codec, s: System) returns (ls: seq<Label>)
    requires Inverts(c) && NoGap(c, s) && s.ch.finished && IsOpen(s)
    ensures Closes(c, s, ls)
    decreases s.conn.Replaying?, if s.conn.Replaying? then |s.conn.rest| else |s.ch.queue|
  {
    var l := ServerStep(s);
    var s' := Do(c, s, l);
    StepKeepsNoGap(c, s, l);
    var rest := [];
    if IsOpen(s') {
      rest := ServerDrains(c, s');
    }
    ls := [l] + rest;
    assert ls[1..] == rest;
  }

  /** From every reachable open stream, however it goes on short of new
      publishing, the server can close it if and only if the log is finished. */
  lemma ServerClosesIff(c: Codec, first: seq<Label>)
    requires Inverts(c) && Valid(c, START, first) && IsOpen(Exec(c, START, first))
    ensures (exists ls :: Closes(c, Exec(c, START, first), ls)) <==> Exec(c, START, first).ch.finished
  {
    RunKeepsNoGap(c, START, first);
    var s := Exec(c, START, first);
    if s.ch.finished {
      var ls := ServerDrains(c, s);
    }
    forall ls | Closes(c, s, ls) ensures s.ch.finished {
      LogIsFrozen(c, s, ls);
      RunKeepsNoGap(c, s, ls);
    }
  }

  /** And until someone publishes, an unfinished stream delivers what was stored
      when it stood there, and nothing else. */
  lemma UnfinishedStreamWaits(c: Codec, first: seq<Label>, ls: seq<Label>)
    requires Inverts(c) && Valid(c, START, first) && !Exec(c, START, first).ch.finished
    requires Valid(c, Exec(c, START, first), ls) && NoPublish(ls)
    ensures var s, e := Exec(c, START, first), Exec(c, Exec(c, START, first), ls);
            !e.conn.Closed? && e.received <= s.ch.buffer == e.ch.buffer
  {
    RunKeepsNoGap(c, START, first);
    var s := Exec(c, START, first);
    LogIsFrozen(c, s, ls);
    RunKeepsNoGap(c, s, ls);
  }

  /** A client on a blank broker: what it holds came from a broker that is gone. */
  predicate OnBlankBroker(s: System) {
    s.ch == NEW_CHANNEL && !s.conn.Closed? && (s.conn.Replaying? ==> s.conn.rest == [])
  }

  /** A client that reconnects with the id of its last event to a terminal run
      whose broker is gone gets a blank broker from the replay itself.  As long as
      nobody publishes to it or cleans it up, whatever the client does it receives
      nothing more, and the server never closes the stream. */
  lemma {:induction false} BlankBrokerHangs(c: Codec, s: System, ls: seq<Label>)
    requires OnBlankBroker(s) && Valid(c, s, ls) && NoPublish(ls)
    ensures OnBlankBroker(Exec(c, s, ls)) && Exec(c, s, ls).received <= s.received
    decreases |ls|
  {
    if ls != [] {
      assert !ls[0].Run?;
      BlankBrokerHangs(c, Do(c, s, ls[0]), ls[1..]);
    }
  }
}

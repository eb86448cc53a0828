/**
 execute_run as one process performs it: the unguarded status writes, the graph's
 events, and which signals and clean-ups each way out of the try body makes.
 */
module RunExecution {
  import opened Options
  import opened RunRow
  import opened EventId
  import opened EventLog
  import opened Broker
  import opened RunTable

  datatype Fault = Cancelled | Raised(kind: string)

  /** Where in the try body the fault arrives. */
  datatype Stop = AtStart | InGraph | AfterFinal(interrupted: bool)

  /** How one execution goes; `stuck`: the handler's own final write fails. */
  datatype Course =
    | Completes(interrupted: bool)
    | Stops(at: Stop, fault: Fault, stuck: bool)

  function StatusName(st: Status): string {
    match st
    case Pending => "pending"
    case Running => "running"
    case Success => "success"
    case Error => "error"
    case Interrupted => "interrupted"
  }

  function ResultStatus(interrupted: bool): Status {
    if interrupted then Interrupted else Success
  }

  /** The cancellation came from the heartbeat: the run id is marked lost. */
  predicate Silent(course: Course, lost: bool) {
    course.Stops? && course.fault.Cancelled? && lost
  }

  function BodyWrites(at: Stop): seq<Status> {
    match at
    case AtStart => []
    case InGraph => [Running]
    case AfterFinal(interrupted) => [Running, ResultStatus(interrupted)]
  }

  function Emits(events: seq<Payload>): (ops: seq<Op>)
    ensures |ops| == |events| && forall k :: 0 <= k < |ops| ==> ops[k] == Emit(events[k])
  {
    seq(|events|, k requires 0 <= k < |events| => Emit(events[k]))
  }

  function Written(r: Row, statuses: seq<Status>): Row {
    if statuses == [] then r else r.(status := statuses[|statuses| - 1])
  }

  lemma {:induction false} ApplyConcat(c: Codec, ch: Channel, a: seq<Op>, b: seq<Op>)
    ensures ApplyAll(c, ch, a + b) == ApplyAll(c, ApplyAll(c, ch, a), b)
    decreases |a|
  {
    if a == [] {
      assert a + b == b;
    } else {
      assert (a + b)[1..] == a[1..] + b;
      ApplyConcat(c, Apply(c, ch, a[0]), a[1..], b);
    }
  }

  lemma ApplySnoc(c: Codec, ch: Channel, a: seq<Op>, op: Op)
    ensures ApplyAll(c, ch, a + [op]) == Apply(c, ApplyAll(c, ch, a), op)
  {
    ApplyConcat(c, ch, a, [op]);
    assert [op][1..] == [];
  }

  /** Two operations in a row. */
  lemma ApplyTwo(c: Codec, ch: Channel, a: seq<Op>, x: Op, y: Op)
    ensures ApplyAll(c, ch, a + [x, y]) == Apply(c, Apply(c, ApplyAll(c, ch, a), x), y)
  {
    ApplySnoc(c, ch, a, x);
    ApplySnoc(c, ch, a + [x], y);
    assert a + [x] + [y] == a + [x, y];
  }

  /** The point of the try body an execution leaves it from. */
  function End(course: Course): Stop {
    if course.Completes? then AfterFinal(course.interrupted) else course.at
  }

  /** The graph publishes nothing before it is reached. */
  predicate Reached(course: Course, events: seq<Payload>) {
    End(course).AtStart? ==> events == []
  }

  function HandlerWrites(course: Course, silent: bool): seq<Status> {
    if course.Completes? || silent || course.stuck then []
    else [if course.fault.Cancelled? then Interrupted else Error]
  }

  /** The signal an except branch sends; it creates the broker if there is none. */
  function HandlerOp(course: Course, silent: bool): Option<Op> {
    if course.Completes? || silent || course.stuck then None
    else
      match course.fault
      case Cancelled => Some(SignalCancelled)
      case Raised(kind) => Some(SignalError(kind))
  }

  /** The signal of the branch taken; the end event needs a broker to exist. */
  function SignalOp(course: Course, silent: bool, hasBroker: bool): Option<Op> {
    if course.Stops? then HandlerOp(course, silent)
    else if hasBroker then Some(SignalEnd(StatusName(ResultStatus(course.interrupted))))
    else None
  }

  /** Every status the execution commits, in order. */
  function Writes(course: Course, lost: bool): seq<Status> {
    BodyWrites(End(course)) + HandlerWrites(course, Silent(course, lost))
  }

  /** Signal and clean-up, as operations on the run's log. */
  function EndingOps(course: Course, silent: bool, hasBroker: bool): seq<Op> {
    var signal := SignalOp(course, silent, hasBroker);
    (if signal.Some? then [signal.value] else [])
    + if !silent && (hasBroker || signal.Some?) then [Cleanup] else []
  }

  /** Everything the execution does to the run's log. */
  function AllOps(events: seq<Payload>, course: Course, lost: bool, hadBroker: bool): seq<Op> {
    Emits(events) + EndingOps(course, Silent(course, lost), hadBroker || events != [])
  }

  function WrittenTo(rows: map<RunId, Row>, id: RunId, statuses: seq<Status>): map<RunId, Row> {
    if id in rows then rows[id := Written(rows[id], statuses)] else rows
  }

  lemma EndingIsApplied(c: Codec, start: Channel, emits: seq<Op>, course: Course, silent: bool, hasBroker: bool)
    requires silent ==> Silent(course, true)
    ensures ApplyAll(c, start, emits + EndingOps(course, silent, hasBroker)) ==
            var body := ApplyAll(c, start, emits);
            var signal := SignalOp(course, silent, hasBroker);
            var signalled := if signal.Some? then Apply(c, body, signal.value) else body;
            if !silent && (hasBroker || signal.Some?) then Apply(c, signalled, Cleanup) else signalled
  {
    var signal := SignalOp(course, silent, hasBroker);
    var cleans := !silent && (hasBroker || signal.Some?);
    var ops := EndingOps(course, silent, hasBroker);
    if signal.Some? && cleans {
      assert ops == [signal.value, Cleanup];
      ApplyTwo(c, start, emits, signal.value, Cleanup);
    } else if cleans {
      assert ops == [Cleanup];
      ApplySnoc(c, start, emits, Cleanup);
    } else {
      assert signal.None? && emits + ops == emits;
    }
  }

  lemma WrittenTwice(rows: map<RunId, Row>, id: RunId, a: seq<Status>, b: seq<Status>)
    ensures WrittenTo(WrittenTo(rows, id, a), id, b) == WrittenTo(rows, id, a + b)
  {
    if b == [] {
      assert a + b == a;
    }
  }

  class Executor {
    const table: Table
    const manager: BrokerManager
    var lost: set<RunId>        // run ids whose cancellation is a lease loss
    var active: set<RunId>      // run ids with a task on this process
    var doneKeys: set<RunId>

    ghost predicate Valid()
      reads this, manager, table
    {
      manager.Valid() && table.Valid()
    }

    constructor (table: Table)
      requires table.Valid()
      ensures Valid() && fresh(manager) && manager.brokers == map[] && this.table == table
      ensures lost == {} && active == {} && doneKeys == {}
    {
      this.table, lost, active, doneKeys := table, {}, {}, {};
      manager := new BrokerManager();
    }

    /** The graph's events, published one by one. */
    method StreamGraph(id: RunId, events: seq<Payload>)
      requires manager.Valid()
      modifies manager, set r | r in manager.brokers :: manager.brokers[r]
      ensures manager.Valid() && manager.OldOrFresh()
      ensures id in manager.brokers <==> id in old(manager.brokers) || events != []
      ensures manager.Log(id) == ApplyAll(RunCodec(id), old(manager.Log(id)), Emits(events))
      ensures forall r :: r != id ==> manager.Log(r) == old(manager.Log(r))
    {
      assert Emits(events[..0]) == [];
      for k := 0 to |events|
        invariant manager.Valid() && manager.OldOrFresh()
        invariant id in manager.brokers <==> id in old(manager.brokers) || k > 0
        invariant manager.Log(id) == ApplyAll(RunCodec(id), old(manager.Log(id)), Emits(events[..k]))
        invariant forall r :: r != id ==> manager.Log(r) == old(manager.Log(r))
      {
        manager.PublishEvent(id, events[k]);
        assert Emits(events[..k + 1]) == Emits(events[..k]) + [Emit(events[k])];
        ApplySnoc(RunCodec(id), old(manager.Log(id)), Emits(events[..k]), Emit(events[k]));
      }
      assert events[..|events|] == events;
    }

    /** The try body up to its end or its fault. */
    method TryBody(id: RunId, events: seq<Payload>, course: Course)
      requires Valid() && Reached(course, events)
      modifies table`rows, manager, set r | r in manager.brokers :: manager.brokers[r]
      ensures Valid() && manager.OldOrFresh()
      ensures id in manager.brokers <==> id in old(manager.brokers) || events != []
      ensures manager.Log(id) == ApplyAll(RunCodec(id), old(manager.Log(id)), Emits(events))
      ensures forall r :: r != id ==> manager.Log(r) == old(manager.Log(r))
      ensures table.rows == WrittenTo(old(table.rows), id, BodyWrites(End(course)))
    {
      if course.Stops? && course.at.AtStart? {
        assert Emits(events) == [];
        return;
      }
      table.WriteStatus(id, Running);
      StreamGraph(id, events);
      if End(course).AfterFinal? {
        table.WriteStatus(id, ResultStatus(End(course).interrupted));
      }
    }

    /** The handler or the else branch: the final status and the signal. */
    method Signal(id: RunId, course: Course) returns (silent: bool)
      requires Valid()
      modifies table`rows, manager, set r | r in manager.brokers :: manager.brokers[r]
      ensures Valid() && manager.OldOrFresh()
      ensures silent <==> Silent(course, id in lost)
      ensures id in manager.brokers <==> id in old(manager.brokers) || HandlerOp(course, silent).Some?
      ensures manager.Log(id) == match SignalOp(course, silent, id in old(manager.brokers))
                                 case None => old(manager.Log(id))
                                 case Some(op) => Apply(RunCodec(id), old(manager.Log(id)), op)
      ensures forall r :: r != id ==> manager.Log(r) == old(manager.Log(r))
      ensures table.rows == WrittenTo(old(table.rows), id, HandlerWrites(course, silent))
    {
      silent := false;
      match course {
        case Completes(interrupted) =>
          manager.SignalEndEvent(id, StatusName(ResultStatus(interrupted)));
        case Stops(_, Cancelled, stuck) =>
          if id in lost {
            silent := true;
          } else if !stuck {
            table.WriteStatus(id, Interrupted);
            manager.SignalRunCancelled(id);
          }
        case Stops(_, Raised(kind), stuck) =>
          if !stuck {
            table.WriteStatus(id, Error);
            manager.SignalRunError(id, kind);
          }
      }
    }

    method Finally(id: RunId, silent: bool)
      requires manager.Valid()
      modifies this`lost, this`active, this`doneKeys, set r | r in manager.brokers :: manager.brokers[r]
      ensures manager.Valid()
      ensures lost == old(lost) - {id} && active == old(active) - {id}
      ensures doneKeys == if silent then old(doneKeys) else old(doneKeys) + {id}
      ensures manager.Log(id) == if !silent && id in manager.brokers
                                 then Apply(RunCodec(id), old(manager.Log(id)), Cleanup) else old(manager.Log(id))
      ensures forall r :: r != id ==> manager.Log(r) == old(manager.Log(r))
    {
      lost, active := lost - {id}, active - {id};
      if !silent {
        manager.CleanupBroker(id);
        doneKeys := doneKeys + {id};
      }
    }

    /** The whole of execute_run, no other process in between. */
    method ExecuteRun(id: RunId, events: seq<Payload>, course: Course)
      requires Valid() && Reached(course, events)
      modifies this, table`rows, manager, set r | r in manager.brokers :: manager.brokers[r]
      ensures Valid()
      ensures lost == old(lost) - {id} && active == old(active) - {id}
      ensures doneKeys == if Silent(course, id in old(lost)) then old(doneKeys) else old(doneKeys) + {id}
      ensures table.rows == WrittenTo(old(table.rows), id, Writes(course, id in old(lost)))
      ensures id in old(table.rows) && !LostInTry(course, id in old(lost)) && !(course.Stops? && course.stuck) ==>
                table.rows[id].status == match course
                                         case Completes(false) => Success
                                         case Completes(true) => Interrupted
                                         case Stops(_, Cancelled, _) => Interrupted
                                         case Stops(_, Raised(_), _) => Error
      ensures manager.Log(id) ==
              ApplyAll(RunCodec(id), old(manager.Log(id)),
                       AllOps(events, course, id in old(lost), id in old(manager.brokers)))
      ensures forall r :: r != id ==> manager.Log(r) == old(manager.Log(r))
    {
      ghost var c, start := RunCodec(id), manager.Log(id);
      ghost var hasBroker := id in manager.brokers || events != [];
      TryBody(id, events, course);
      var silent := Signal(id, course);
      Finally(id, silent);
      EndingIsApplied(c, start, Emits(events), course, silent, hasBroker);
      WrittenTwice(old(table.rows), id, BodyWrites(End(course)), HandlerWrites(course, silent));
      if id in old(table.rows) && !LostInTry(course, id in old(lost)) && !(course.Stops? && course.stuck) {
        StatusIs(course, id in old(lost), old(table.rows)[id]);
      }
    }
  }

  // ------------------------------------------- what clients and the row agree on

  predicate NoEnd(events: seq<Payload>) {
    forall k :: 0 <= k < |events| ==> !IsEnd(events[k])
  }

  ghost predicate HasEnd(ch: Channel) {
    exists k :: 0 <= k < |ch.buffer| && IsEnd(ch.buffer[k].payload)
  }

  /** Graph events extend an open log one by one and leave it open. */
  lemma {:induction false} EmitsKeepOpen(c: Codec, ch: Channel, events: seq<Payload>)
    requires WellFormed(c, ch) && !ch.finished && NoEnd(events)
    ensures var out := ApplyAll(c, ch, Emits(events));
            && WellFormed(c, out) && !out.finished && |out.buffer| == |ch.buffer| + |events|
            && forall k :: 0 <= k < |events| ==> out.buffer[|ch.buffer| + k].payload == events[k]
    decreases |events|
  {
    if events != [] {
      var init, last := events[..|events| - 1], events[|events| - 1];
      EmitsKeepOpen(c, ch, init);
      assert Emits(events) == Emits(init) + [Emit(last)];
      ApplySnoc(c, ch, Emits(init), Emit(last));
      OpKeepsWellFormed(c, ApplyAll(c, ch, Emits(init)), Emit(last));
    }
  }

  lemma OpenHasNoEnd(c: Codec, ch: Channel)
    requires WellFormed(c, ch) && !ch.finished
    ensures !HasEnd(ch)
  {
  }

  /** One signal on an open log: an end event that names the status, last. */
  lemma SignalEnds(c: Codec, ch: Channel, course: Course, silent: bool, hasBroker: bool)
    requires WellFormed(c, ch) && !ch.finished && SignalOp(course, silent, hasBroker).Some?
    ensures var out := Apply(c, ch, SignalOp(course, silent, hasBroker).value);
            && WellFormed(c, out) && out.finished && ch.buffer < out.buffer
            && out.buffer[|out.buffer| - 1].payload == EndPayload(StatusName(FinalStatus(course)))
  {
    OpKeepsWellFormed(c, ch, SignalOp(course, silent, hasBroker).value);
  }

  /** The status an execution that is neither silent nor stuck leaves behind. */
  function FinalStatus(course: Course): Status {
    match course
    case Completes(interrupted) => ResultStatus(interrupted)
    case Stops(_, fault, _) => if fault.Cancelled? then Interrupted else Error
  }

  /** The last status committed is that status, and it is terminal. */
  lemma WritesEndWith(course: Course, lost: bool, row: Row)
    requires !Silent(course, lost) && !(course.Stops? && course.stuck)
    ensures Written(row, Writes(course, lost)).status == FinalStatus(course) && Terminal(FinalStatus(course))
  {
  }

  /** Signal and clean-up on an open log. */
  lemma SignalledAndClosed(c: Codec, ch: Channel, course: Course, hasBroker: bool, out: Channel)
    requires WellFormed(c, ch) && !ch.finished && SignalOp(course, false, hasBroker).Some?
    requires out == Apply(c, Apply(c, ch, SignalOp(course, false, hasBroker).value), Cleanup)
    ensures WellFormed(c, out) && out.finished && |ch.buffer| < |out.buffer|
    ensures out.buffer[|out.buffer| - 1].payload == EndPayload(StatusName(FinalStatus(course)))
  {
    SignalEnds(c, ch, course, false, hasBroker);
    OpKeepsWellFormed(c, Apply(c, ch, SignalOp(course, false, hasBroker).value), Cleanup);
  }

  /** Row and clients agree: unless it was silenced or its handler got stuck, an
      execution leaves a terminal status in the row, and the log it closes ends
      with the end event naming that very status, after all the graph's events. */
  lemma EndEventNamesTheStatus(
      c: Codec, ch: Channel, events: seq<Payload>, course: Course, lost: bool, hadBroker: bool, row: Row, out: Channel)
    requires WellFormed(c, ch) && !ch.finished && NoEnd(events)
    requires !Silent(course, lost) && !(course.Stops? && course.stuck)
    requires hadBroker || events != [] || course.Stops?
    requires out == ApplyAll(c, ch, AllOps(events, course, lost, hadBroker))
    ensures Terminal(Written(row, Writes(course, lost)).status)
    ensures WellFormed(c, out) && out.finished && |ch.buffer| + |events| < |out.buffer|
    ensures out.buffer[|out.buffer| - 1].payload == EndPayload(StatusName(Written(row, Writes(course, lost)).status))
  {
    var hasBroker := hadBroker || events != [];
    WritesEndWith(course, lost, row);
    EmitsKeepOpen(c, ch, events);
    EndingIsApplied(c, ch, Emits(events), course, false, hasBroker);
    SignalledAndClosed(c, ApplyAll(c, ch, Emits(events)), course, hasBroker, out);
  }

  /** Exactly when an execution closes the run's log, and exactly when the log it
      leaves tells clients the run is over. */
  lemma ClosesLogIff(
      c: Codec, ch: Channel, events: seq<Payload>, course: Course, lost: bool, hadBroker: bool, out: Channel)
    requires WellFormed(c, ch) && !ch.finished && NoEnd(events)
    requires out == ApplyAll(c, ch, AllOps(events, course, lost, hadBroker))
    ensures out.finished <==>
              !Silent(course, lost) && (hadBroker || events != [] || (course.Stops? && !course.stuck))
    ensures HasEnd(out) <==> out.finished && !(course.Stops? && course.stuck)
  {
    var hasBroker, silent := hadBroker || events != [], Silent(course, lost);
    var body := ApplyAll(c, ch, Emits(events));
    EmitsKeepOpen(c, ch, events);
    OpenHasNoEnd(c, body);
    EndingIsApplied(c, ch, Emits(events), course, silent, hasBroker);
    if SignalOp(course, silent, hasBroker).Some? {
      SignalEnds(c, body, course, silent, hasBroker);
    }
  }

  /** On a log that was closed already, by whatever signal, an execution changes
      nothing a client can see. */
  lemma ClosedLogIsFrozen(
      c: Codec, ch: Channel, events: seq<Payload>, course: Course, lost: bool, hadBroker: bool, out: Channel)
    requires WellFormed(c, ch) && ch.finished
    requires out == ApplyAll(c, ch, AllOps(events, course, lost, hadBroker))
    ensures out.buffer == ch.buffer && out.queue == ch.queue
  {
    ClosedStays(c, ch, AllOps(events, course, lost, hadBroker));
  }

  lemma {:induction false} ClosedStays(c: Codec, ch: Channel, ops: seq<Op>)
    requires WellFormed(c, ch) && ch.finished
    ensures var out := ApplyAll(c, ch, ops);
            out.finished && out.buffer == ch.buffer && out.queue == ch.queue
    decreases |ops|
  {
    if ops != [] {
      OpKeepsWellFormed(c, ch, ops[0]);
      ClosedStays(c, Apply(c, ch, ops[0]), ops[1..]);
    }
  }

  lemma OnlyInterruptedIsCalledSo(st: Status)
    ensures StatusName(st) == "interrupted" <==> st.Interrupted?
  {
    assert "error"[0] != "interrupted"[0];
  }

  lemma CancelEnds(c: Codec, ch: Channel)
    requires WellFormed(c, ch) && !ch.finished
    ensures var out := Apply(c, ch, SignalCancelled);
            && WellFormed(c, out) && out.finished && |out.buffer| == |ch.buffer| + 1
            && out.buffer[|ch.buffer|].payload == EndPayload("interrupted")
  {
    OpKeepsWellFormed(c, ch, SignalCancelled);
  }

  /** The race with an API cancel: when it ends the log after the graph's first
      events, clients are told `interrupted` last, whatever follows; the row gets
      the execution's own status, and the two agree if and only if the execution
      was itself cancelled or interrupted. */
  lemma CancelRace(
      c: Codec, ch: Channel, events: seq<Payload>, later: seq<Payload>, course: Course, lost: bool, row: Row,
      cancelled: Channel, out: Channel)
    requires WellFormed(c, ch) && !ch.finished && NoEnd(events)
    requires !Silent(course, lost) && !(course.Stops? && course.stuck)
    requires cancelled == Apply(c, ApplyAll(c, ch, Emits(events)), SignalCancelled)
    requires out == ApplyAll(c, cancelled, AllOps(later, course, lost, true))
    ensures out.finished && |out.buffer| == |ch.buffer| + |events| + 1
    ensures out.buffer[|out.buffer| - 1].payload == EndPayload("interrupted")
    ensures StatusName(Written(row, Writes(course, lost)).status) == "interrupted" <==>
              FinalStatus(course).Interrupted?
  {
    EmitsKeepOpen(c, ch, events);
    CancelEnds(c, ApplyAll(c, ch, Emits(events)));
    ClosedStays(c, cancelled, AllOps(later, course, lost, true));
    WritesEndWith(course, lost, row);
    OnlyInterruptedIsCalledSo(FinalStatus(course));
  }

  // --------------------------------------------------- outcomes, spelled out

  /** The heartbeat's cancellation, which execute_run swallows. */
  predicate LostInTry(course: Course, lost: bool) {
    course.Stops? && course.fault == Cancelled && lost
  }

  /** The statuses committed, course by course. */
  lemma WritesAre(course: Course, lost: bool)
    ensures course == Completes(false) ==> Writes(course, lost) == [Running, Success]
    ensures course == Completes(true) ==> Writes(course, lost) == [Running, Interrupted]
    ensures course.Stops? ==>
              var body := match course.at
                          case AtStart => []
                          case InGraph => [Running]
                          case AfterFinal(false) => [Running, Success]
                          case AfterFinal(true) => [Running, Interrupted];
              Writes(course, lost) ==
              if LostInTry(course, lost) || course.stuck then body
              else body + [if course.fault == Cancelled then Interrupted else Error]
  {
    if course.Stops? && (LostInTry(course, lost) || course.stuck) {
      assert Writes(course, lost) == BodyWrites(course.at) + [];
    }
  }

  /** What the row must say, and what the end event, for each way an execution
      that is neither swallowed nor stuck can go. */
  predicate Reported(course: Course, st: Status, told: Payload) {
    match course
    case Completes(false) => st == Success && told == Payload("end", "success")
    case Completes(true) => st == Interrupted && told == Payload("end", "interrupted")
    case Stops(_, Cancelled, _) => st == Interrupted && told == Payload("end", "interrupted")
    case Stops(_, Raised(_), _) => st == Error && told == Payload("end", "error")
  }

  /** On an open log with a broker, or one the handler creates, row and end event
      say exactly that; before the end event a client reads the graph's events and,
      for an exception, its kind. */
  lemma OutcomeIsReported(
      c: Codec, ch: Channel, events: seq<Payload>, course: Course, lost: bool, hadBroker: bool, row: Row, out: Channel)
    requires WellFormed(c, ch) && !ch.finished && NoEnd(events)
    requires !LostInTry(course, lost) && !(course.Stops? && course.stuck)
    requires hadBroker || events != [] || course.Stops?
    requires out == ApplyAll(c, ch, AllOps(events, course, lost, hadBroker))
    ensures |ch.buffer| + |events| < |out.buffer|
    ensures Reported(course, Written(row, Writes(course, lost)).status, out.buffer[|out.buffer| - 1].payload)
    ensures forall k :: 0 <= k < |events| ==> out.buffer[|ch.buffer| + k].payload == events[k]
    ensures if course.Stops? && course.fault.Raised?
            then |out.buffer| == |ch.buffer| + |events| + 2
                 && out.buffer[|out.buffer| - 2].payload == Payload("error", course.fault.kind)
            else |out.buffer| == |ch.buffer| + |events| + 1
  {
    var hasBroker, body := hadBroker || events != [], ApplyAll(c, ch, Emits(events));
    EmitsKeepOpen(c, ch, events);
    EndingIsApplied(c, ch, Emits(events), course, false, hasBroker);
    SignalSays(c, body, course, hasBroker);
    StatusIs(course, lost, row);
  }

  lemma StatusIs(course: Course, lost: bool, row: Row)
    requires !LostInTry(course, lost) && !(course.Stops? && course.stuck)
    ensures Written(row, Writes(course, lost)).status ==
            match course
            case Completes(false) => Success
            case Completes(true) => Interrupted
            case Stops(_, Cancelled, _) => Interrupted
            case Stops(_, Raised(_), _) => Error
  {
    WritesAre(course, lost);
  }

  /** The signal of the branch taken, on an open log. */
  lemma SignalSays(c: Codec, ch: Channel, course: Course, hasBroker: bool)
    requires !ch.finished && !(course.Stops? && course.stuck) && (hasBroker || course.Stops?)
    ensures SignalOp(course, false, hasBroker).Some?
    ensures var out := Apply(c, ch, SignalOp(course, false, hasBroker).value);
            && ch.buffer <= out.buffer
            && match course
               case Completes(false) => Added(ch, out, [Payload("end", "success")])
               case Completes(true) => Added(ch, out, [Payload("end", "interrupted")])
               case Stops(_, Cancelled, _) => Added(ch, out, [Payload("end", "interrupted")])
               case Stops(_, Raised(kind), _) => Added(ch, out, [Payload("error", kind), Payload("end", "error")])
  {
  }

  /** The log grew by events with these payloads. */
  predicate Added(ch: Channel, out: Channel, payloads: seq<Payload>) {
    && |out.buffer| == |ch.buffer| + |payloads|
    && forall k :: 0 <= k < |payloads| ==> out.buffer[|ch.buffer| + k].payload == payloads[k]
  }

  /** A swallowed cancellation leaves the statuses of the try body and the graph's
      events, and tells clients nothing. */
  lemma LostExecutionLeavesOnlyItsBody(
      c: Codec, ch: Channel, events: seq<Payload>, course: Course, hadBroker: bool, out: Channel)
    requires WellFormed(c, ch) && !ch.finished && NoEnd(events) && LostInTry(course, true)
    requires out == ApplyAll(c, ch, AllOps(events, course, true, hadBroker))
    ensures !out.finished && Added(ch, out, events)
    ensures course.at.InGraph? ==> Writes(course, true) == [Running]
  {
    EmitsKeepOpen(c, ch, events);
    EndingIsApplied(c, ch, Emits(events), course, true, hadBroker || events != []);
    WritesAre(course, true);
  }
}

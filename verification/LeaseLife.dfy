/**
 What the protocol lets happen: from every reachable state a pending run can be
 executed to success by any worker, and an attempt that lost its row can unwind.
 */
module LeaseLife {
  import opened Options
  import opened RunRow
  import opened LeaseProtocol
  import opened LeaseInvariants
  import opened LeaseNames

  lemma Onward(c: Settings, s: State, ls: seq<Label>, e: State, l: Label) returns (ls': seq<Label>, e': State)
    requires Valid(c, s, ls) && Exec(c, s, ls) == e && Enabled(e, l)
    ensures e' == Do(c, e, l) && Valid(c, s, ls') && Exec(c, s, ls') == e'
  {
    ExtendRun(c, s, ls, l);
    ls', e' := ls + [l], Do(c, e, l);
  }

  /** A worker pops the run from the queue. */
  lemma IsPopped(c: Settings, s: State, w: Worker) returns (ls: seq<Label>, e: State)
    ensures Valid(c, s, ls) && Exec(c, s, ls) == e
    ensures e == s.(hands := s.hands + multiset{w})
  {
    ls, e := Onward(c, s, [], s, Enqueue);
    ls, e := Onward(c, s, ls, e, Dequeue(w));
  }

  /** Worker w holds the row in this status, and attempt i of w is in this phase. */
  predicate Holds(e: State, i: nat, w: Worker, status: Status, phase: Phase, log: seq<Effect>) {
    && At(e, i) && |e.attempts| == i + 1
    && e.attempts[i].worker == w && e.attempts[i].phase == phase
    && e.attempts[i].hb.Beating? && e.attempts[i].log == log
    && e.row.status == status && e.row.claimedBy == Some(w)
  }

  /** It acquires the row and loads the job. */
  lemma Starts(c: Settings, s: State, ls: seq<Label>, e: State, w: Worker) returns (ls': seq<Label>, e': State)
    requires Valid(c, s, ls) && Exec(c, s, ls) == e && w in e.hands
    requires e.row.status == Pending && e.row.claimedBy == None && e.row.params.Some?
    ensures Valid(c, s, ls') && Exec(c, s, ls') == e' && e'.row.params == e.row.params
    ensures Holds(e', |e.attempts|, w, Running, Starting, [])
  {
    ls', e' := Onward(c, s, ls, e, TryAcquire(w, e.now));
    ls', e' := Onward(c, s, ls', e', LoadOk(|e.attempts|));
  }

  /** It writes `running` and beats. */
  lemma Executes(c: Settings, s: State, ls: seq<Label>, e: State, i: nat, w: Worker)
    returns (ls': seq<Label>, e': State)
    requires Valid(c, s, ls) && Exec(c, s, ls) == e && Holds(e, i, w, Running, Starting, [])
    ensures Valid(c, s, ls') && Exec(c, s, ls') == e' && e'.row.params == e.row.params
    ensures Holds(e', i, w, Running, Executing, [Wrote(Running)])
  {
    ls', e' := Onward(c, s, ls, e, WriteRunning(i));
    ls', e' := Onward(c, s, ls', e', Beat(i, e.now));
  }

  /** A final status, and whether a handler writes it: success only the try body,
      error only a handler, interrupted either. */
  predicate Ending(status: Status, handled: bool) {
    if handled then status.Error? || status.Interrupted? else status.Success? || status.Interrupted?
  }

  /** It commits its result, or fails or is cancelled and commits that. */
  lemma CommitsResult(
      c: Settings, s: State, ls: seq<Label>, e: State, i: nat, w: Worker, status: Status, handled: bool)
    returns (ls': seq<Label>, e': State)
    requires Valid(c, s, ls) && Exec(c, s, ls) == e && Holds(e, i, w, Running, Executing, [Wrote(Running)])
    requires Ending(status, handled)
    ensures Valid(c, s, ls') && Exec(c, s, ls') == e' && e'.row.params == e.row.params
    ensures Holds(e', i, w, status, Tail, [Wrote(Running), Wrote(status)])
  {
    if handled {
      ls', e' := Onward(c, s, ls, e, EnterHandler(i, status.Error?));
      ls', e' := Onward(c, s, ls', e', Finalize(i, status));
    } else {
      ls', e' := Onward(c, s, ls, e, Finalize(i, status));
      ls', e' := Onward(c, s, ls', e', LeaveTry(i));
    }
  }

  /** It ends the stream, cleans up, sets the done key and gives the row back. */
  lemma WindsUp(c: Settings, s: State, ls: seq<Label>, e: State, i: nat) returns (ls': seq<Label>, e': State)
    requires Valid(c, s, ls) && Exec(c, s, ls) == e
    requires At(e, i) && e.attempts[i].phase.Tail? && e.row.claimedBy == Some(e.attempts[i].worker)
    ensures Valid(c, s, ls') && Exec(c, s, ls') == e'
    ensures e'.row == Row(e.row.status, None, None, e.row.params)
    ensures |e'.attempts| == |e.attempts| && e'.attempts[i].phase.Done?
    ensures e'.attempts[i].worker == e.attempts[i].worker
    ensures e'.attempts[i].log == e.attempts[i].log + [EndEvent, BrokerCleanup, DoneKey]
  {
    ls', e' := Onward(c, s, ls, e, Publish(i, EndEvent));
    ls', e' := Onward(c, s, ls', e', Publish(i, BrokerCleanup));
    ls', e' := Onward(c, s, ls', e', Publish(i, DoneKey));
    ls', e' := Onward(c, s, ls', e', FinishJob(i));
    ls', e' := Onward(c, s, ls', e', Release(i));
  }

  lemma FreeRunCanFinish(c: Settings, s: State, w: Worker, status: Status, handled: bool)
    returns (ls: seq<Label>, e: State)
    requires s.row.status == Pending && s.row.claimedBy == None && s.row.params.Some?
    requires Ending(status, handled)
    ensures Valid(c, s, ls) && e == Exec(c, s, ls) && e.row == Row(status, None, None, s.row.params)
    ensures |e.attempts| == |s.attempts| + 1 && e.attempts[|s.attempts|].worker == w
    ensures e.attempts[|s.attempts|].log == [Wrote(Running), Wrote(status)] + [EndEvent, BrokerCleanup, DoneKey]
  {
    var i := |s.attempts|;
    ls, e := IsPopped(c, s, w);
    ls, e := Starts(c, s, ls, e, w);
    ls, e := Executes(c, s, ls, e, i, w);
    ls, e := CommitsResult(c, s, ls, e, i, w, status, handled);
    ls, e := WindsUp(c, s, ls, e, i);
  }

  /** From every reachable state with a pending run, any worker can take it from
      the queue and bring it to either result, row released, with exactly the
      statuses and publications of an undisturbed execution. */
  lemma PendingRunCanFinish(
      c: Settings, s: State, before: seq<Label>, from: State, w: Worker, status: Status, handled: bool)
    returns (ls: seq<Label>, e: State)
    requires Run(c, s, before) && from == Exec(c, s, before) && from.row.status == Pending && from.row.params.Some?
    requires Ending(status, handled)
    ensures Valid(c, from, ls) && e == Exec(c, from, ls) && e.row == Row(status, None, None, from.row.params)
    ensures |e.attempts| == |from.attempts| + 1 && e.attempts[|from.attempts|].worker == w
    ensures e.attempts[|from.attempts|].log == [Wrote(Running), Wrote(status), EndEvent, BrokerCleanup, DoneKey]
  {
    RunKeepsSound(c, s, before);
    ls, e := FreeRunCanFinish(c, from, w, status, handled);
  }

  /** And an attempt that lost its row is told by its next beat, falls silent and
      is over, having made nothing visible: for every setting. */
  lemma LostAttemptUnwinds(c: Settings) returns (ls: seq<Label>, e: State)
    ensures Ends(c, ls, e) && At(e, 0) && e.attempts[0].phase.Done? && e.attempts[0].log == []
    ensures e.row == Fresh().row
  {
    ls, e := LosesRow(c);
    ls, e := Continues(c, ls, e, Beat(0, e.now));
    ls, e := Continues(c, ls, e, LossCancel(0));
    ls, e := Continues(c, ls, e, FinishJob(0));
    ls, e := Continues(c, ls, e, Release(0));
  }

  /** A row without params ends as error, free, as soon as it is acquired. */
  lemma RowWithoutParamsFails(c: Settings, s: State, w: Worker) returns (ls: seq<Label>, e: State)
    requires s.row.status == Pending && s.row.claimedBy == None && s.row.params == None
    ensures Valid(c, s, ls) && e == Exec(c, s, ls) && e.row == Row(Error, None, None, None)
    ensures |e.attempts| == |s.attempts| + 1 && e.attempts[|s.attempts|].phase.Done?
  {
    ls, e := IsPopped(c, s, w);
    ls, e := Onward(c, s, ls, e, TryAcquire(w, s.now));
    ls, e := Onward(c, s, ls, e, MissingParams(|s.attempts|));
  }

  /** An attempt can beat, or learn of its loss, from its first step until its job
      ends, in handlers and after its final write as well. */
  lemma BeatsUntilJobEnds(s: State, i: nat, stamp: Time)
    requires At(s, i) && stamp <= s.now
    requires match s.attempts[i].phase
             case Loading(_) => false
             case Releasing => false
             case Done => false
             case Dead => false
             case _ => true
    ensures Enabled(s, Beat(i, stamp)) <==> s.attempts[i].hb == Beating
    ensures Enabled(s, LossCancel(i)) <==> s.attempts[i].hb == LossSeen
  {
  }

  /** What the environment can do in every state: interrupt the run, queue it
      again, lose what is queued, and let any worker lose its process. */
  lemma EnvironmentIsFree(c: Settings, s: State, i: nat)
    ensures Enabled(s, ApiInterrupt) && Do(c, s, ApiInterrupt).row == s.row.(status := Interrupted)
    ensures Enabled(s, Enqueue) && Enabled(Do(c, s, Enqueue), LoseMessage)
    ensures Do(c, Do(c, s, Enqueue), LoseMessage) == s
    ensures At(s, i) && !s.attempts[i].phase.Done? && !s.attempts[i].phase.Dead? ==> Enabled(s, Crash(i))
  {
  }
}

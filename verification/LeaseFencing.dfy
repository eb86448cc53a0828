/**
 What an attempt that lost its row can still do, and why a terminal run with no
 live attempt stays terminal.
 */
module LeaseFencing {
  import opened Options
  import opened RunRow
  import opened LeaseProtocol

  // -------------------------------------------------------------- fencing

  /** Attempt i no longer owns the row. */
  predicate Fenced(s: State, i: nat)
    requires At(s, i)
  {
    !OwnedBy(s.row, s.attempts[i].worker)
  }

  /** The step makes worker w the owner again. */
  predicate Reacquires(s: State, l: Label, w: Worker) {
    l.TryAcquire? && l.w == w && Acquirable(s.row)
  }

  predicate NoReacquire(c: Settings, s: State, ls: seq<Label>, w: Worker)
    requires Valid(c, s, ls)
    decreases |ls|
  {
    ls == [] || (!Reacquires(s, ls[0], w) && NoReacquire(c, Do(c, s, ls[0]), ls[1..], w))
  }

  /** The steps whose WHERE clause compares claimed_by: heartbeat, release, and
      the missing-params mark. */
  predicate GuardedWrite(l: Label, i: nat) {
    Subject(l) == Some(i) && (l.Beat? || l.Release? || l.MissingParams?)
  }

  lemma StepKeepsAttempt(c: Settings, s: State, l: Label, i: nat)
    requires At(s, i) && Enabled(s, l)
    ensures At(Do(c, s, l), i) && Do(c, s, l).attempts[i].worker == s.attempts[i].worker
    ensures Subject(l) != Some(i) ==> Do(c, s, l).attempts[i] == s.attempts[i]
  {
    if Subject(l).Some? {
      OwnStepKeepsOthers(c, s, l, i);
    }
  }

  lemma OwnStepKeepsOthers(c: Settings, s: State, l: Label, i: nat)
    requires At(s, i) && Enabled(s, l) && Subject(l).Some?
    ensures At(Do(c, s, l), i) && Do(c, s, l).attempts[i].worker == s.attempts[i].worker
    ensures Subject(l) != Some(i) ==> Do(c, s, l).attempts[i] == s.attempts[i]
  {
  }

  lemma StepKeepsFenced(c: Settings, s: State, l: Label, i: nat)
    requires At(s, i) && Fenced(s, i) && Enabled(s, l) && !Reacquires(s, l, s.attempts[i].worker)
    ensures At(Do(c, s, l), i) && Fenced(Do(c, s, l), i)
    ensures GuardedWrite(l, i) ==> Do(c, s, l).row == s.row
    ensures l.Beat? && l.i == i ==> Do(c, s, l).attempts[i] == s.attempts[i].(hb := LossSeen)
  {
    StepKeepsAttempt(c, s, l, i);
  }

  lemma {:induction false} RunKeepsFenced(c: Settings, s: State, ls: seq<Label>, i: nat)
    requires At(s, i) && Fenced(s, i) && Valid(c, s, ls) && NoReacquire(c, s, ls, s.attempts[i].worker)
    ensures At(Exec(c, s, ls), i) && Fenced(Exec(c, s, ls), i)
    ensures Exec(c, s, ls).attempts[i].worker == s.attempts[i].worker
    decreases |ls|
  {
    if ls != [] {
      StepKeepsAttempt(c, s, ls[0], i);
      StepKeepsFenced(c, s, ls[0], i);
      RunKeepsFenced(c, Do(c, s, ls[0]), ls[1..], i);
    }
  }

  /** Lease-loss frame: after any continuation in which its worker name has not
      re-acquired the run, no heartbeat, release or missing-params mark of the
      fenced attempt changes the row, and a heartbeat query reports the loss. */
  lemma LeaseLossFrame(c: Settings, s: State, ls: seq<Label>, i: nat, l: Label)
    requires At(s, i) && Fenced(s, i) && Valid(c, s, ls) && NoReacquire(c, s, ls, s.attempts[i].worker)
    requires Enabled(Exec(c, s, ls), l) && GuardedWrite(l, i)
    ensures Do(c, Exec(c, s, ls), l).row == Exec(c, s, ls).row
    ensures l.Beat? ==> Do(c, Exec(c, s, ls), l).attempts[i].hb.LossSeen?
  {
    RunKeepsFenced(c, s, ls, i);
    StepKeepsFenced(c, Exec(c, s, ls), l, i);
  }

  /** Unwinding silently, or past it. */
  predicate Muted(a: Attempt) {
    a.hb.Stopped? && (a.phase.Silent? || a.phase.Releasing? || a.phase.Done? || a.phase.Dead?)
  }

  lemma {:induction false} MutedForever(c: Settings, s: State, ls: seq<Label>, i: nat)
    requires At(s, i) && Muted(s.attempts[i]) && Valid(c, s, ls)
    ensures At(Exec(c, s, ls), i) && Muted(Exec(c, s, ls).attempts[i])
    ensures Exec(c, s, ls).attempts[i].log == s.attempts[i].log
    decreases |ls|
  {
    if ls != [] {
      StepKeepsAttempt(c, s, ls[0], i);
      MutedForever(c, Do(c, s, ls[0]), ls[1..], i);
    }
  }

  /** After its heartbeat saw the loss, an attempt's next heartbeat event is the
      cancellation: no beat of it can come in between. */
  lemma {:induction false} LossStaysSeen(c: Settings, s: State, ls: seq<Label>, i: nat)
    requires At(s, i) && s.attempts[i].hb.LossSeen? && Valid(c, s, ls)
    ensures At(Exec(c, s, ls), i) && !Exec(c, s, ls).attempts[i].hb.Beating?
    decreases |ls|
  {
    if ls != [] {
      StepKeepsAttempt(c, s, ls[0], i);
      if Do(c, s, ls[0]).attempts[i].hb.LossSeen? {
        LossStaysSeen(c, Do(c, s, ls[0]), ls[1..], i);
      } else {
        StoppedStays(c, Do(c, s, ls[0]), ls[1..], i);
      }
    }
  }

  lemma {:induction false} StoppedStays(c: Settings, s: State, ls: seq<Label>, i: nat)
    requires At(s, i) && s.attempts[i].hb.Stopped? && Valid(c, s, ls)
    ensures At(Exec(c, s, ls), i) && Exec(c, s, ls).attempts[i].hb.Stopped?
    decreases |ls|
  {
    if ls != [] {
      StepKeepsAttempt(c, s, ls[0], i);
      StoppedStays(c, Do(c, s, ls[0]), ls[1..], i);
    }
  }

  /** Fencing.  A fenced attempt's first heartbeat query after the loss (`beat`)
      sees it; if the attempt is still in the try body of execute_run when the
      cancellation lands, then whatever happens after, it writes no status,
      sends no end event, cleans up no broker and sets no done key. */
  lemma Fencing(c: Settings, s: State, before: seq<Label>, stamp: Time, between: seq<Label>, after: seq<Label>, i: nat)
    requires At(s, i) && Fenced(s, i)
    requires Valid(c, s, before) && NoReacquire(c, s, before, s.attempts[i].worker)
    requires Enabled(Exec(c, s, before), Beat(i, stamp))
    requires var b := Do(c, Exec(c, s, before), Beat(i, stamp));
             && Valid(c, b, between)
             && At(Exec(c, b, between), i) && InTry(Exec(c, b, between).attempts[i])
             && Enabled(Exec(c, b, between), LossCancel(i))
             && Valid(c, Do(c, Exec(c, b, between), LossCancel(i)), after)
    ensures var b := Do(c, Exec(c, s, before), Beat(i, stamp));
            var m := Exec(c, b, between);
            var e := Exec(c, Do(c, m, LossCancel(i)), after);
            && b.row == Exec(c, s, before).row
            && b.attempts[i].hb.LossSeen?
            && At(e, i) && e.attempts[i].log == m.attempts[i].log
  {
    LeaseLossFrame(c, s, before, i, Beat(i, stamp));
    var b := Do(c, Exec(c, s, before), Beat(i, stamp));
    MutedForever(c, Do(c, Exec(c, b, between), LossCancel(i)), after, i);
  }

  /** Nothing the attempt does from here on is visible. */
  ghost predicate SilentFrom(c: Settings, s: State, i: nat)
    requires At(s, i)
  {
    forall ls :: Valid(c, s, ls) ==> At(Exec(c, s, ls), i) && Exec(c, s, ls).attempts[i].log == s.attempts[i].log
  }

  lemma PublicationIsVisible(c: Settings, s: State, i: nat, e: Effect)
    requires Enabled(s, Publish(i, e))
    ensures !SilentFrom(c, s, i)
  {
    var l := Publish(i, e);
    assert [l][1..] == [] && Valid(c, Do(c, s, l), []);
    assert Valid(c, s, [l]) && Exec(c, s, [l]) == Do(c, s, l);
  }

  /** A lease-loss cancellation silences an attempt if and only if it finds it in
      the try body of execute_run, or silenced already.  One that lands in a
      handler or later only reaches the finally block, which still cleans up the
      broker and sets the done key of a run that another worker may own. */
  lemma CancellationSilencesIff(c: Settings, s: State, i: nat)
    requires Enabled(s, LossCancel(i))
    ensures At(Do(c, s, LossCancel(i)), i)
    ensures SilentFrom(c, Do(c, s, LossCancel(i)), i) <==> InTry(s.attempts[i]) || s.attempts[i].phase.Silent?
    ensures !InTry(s.attempts[i]) && !s.attempts[i].phase.Silent? ==>
              && Enabled(Do(c, s, LossCancel(i)), Publish(i, BrokerCleanup))
              && Enabled(Do(c, s, LossCancel(i)), Publish(i, DoneKey))
  {
    var s' := Do(c, s, LossCancel(i));
    if InTry(s.attempts[i]) || s.attempts[i].phase.Silent? {
      forall ls | Valid(c, s', ls)
        ensures At(Exec(c, s', ls), i) && Exec(c, s', ls).attempts[i].log == s'.attempts[i].log
      {
        MutedForever(c, s', ls, i);
      }
    } else {
      PublicationIsVisible(c, s', i, DoneKey);
    }
  }

  // ------------------------------------------------------------ absorption

  ghost predicate Quiescent(s: State) {
    forall i :: 0 <= i < |s.attempts| ==> !Live(s.attempts[i])
  }

  /** Terminal throughout: in s and in every state of the run. */
  predicate StaysTerminal(c: Settings, s: State, ls: seq<Label>)
    requires Valid(c, s, ls)
    decreases |ls|
  {
    Terminal(s.row.status) && (ls == [] || StaysTerminal(c, Do(c, s, ls[0]), ls[1..]))
  }

  /** The only step out of a terminal status is a `running` write. */
  lemma OnlyRunningWriteRevives(c: Settings, s: State, l: Label)
    requires Enabled(s, l) && Terminal(s.row.status) && !Terminal(Do(c, s, l).row.status)
    ensures l.WriteRunning? && At(s, l.i) && s.attempts[l.i].phase.Starting?
    ensures Do(c, s, l).row == s.row.(status := Running)
  {
  }

  predicate NotStarted(a: Attempt) {
    a.phase.Loading? || a.phase.Starting?
  }

  lemma {:induction false} NoAcquisitionWhileTerminal(c: Settings, s: State, ls: seq<Label>, i: nat)
    requires Valid(c, s, ls) && StaysTerminal(c, s, ls)
    ensures |Exec(c, s, ls).attempts| == |s.attempts|
    ensures At(s, i) && NotStarted(Exec(c, s, ls).attempts[i]) ==> NotStarted(s.attempts[i])
    decreases |ls|
  {
    if ls != [] {
      NoneStartsWhileTerminal(c, s, ls[0], i);
      NoAcquisitionWhileTerminal(c, Do(c, s, ls[0]), ls[1..], i);
    }
  }

  lemma NoneStartsWhileTerminal(c: Settings, s: State, l: Label, i: nat)
    requires Enabled(s, l) && Terminal(s.row.status)
    ensures |Do(c, s, l).attempts| == |s.attempts|
    ensures At(s, i) && NotStarted(Do(c, s, l).attempts[i]) ==> NotStarted(s.attempts[i])
  {
    if At(s, i) {
      StepKeepsAttempt(c, s, l, i);
    }
  }

  /** If a run that has been terminal since s leaves that status, the step is
      the `running` write of an attempt that had acquired it before s and had
      not yet written `running` then. */
  lemma RevivedOnlyByEarlierAttempt(c: Settings, s: State, ls: seq<Label>, e: State, l: Label)
    requires Valid(c, s, ls) && StaysTerminal(c, s, ls) && e == Exec(c, s, ls)
    requires Enabled(e, l) && !Terminal(Do(c, e, l).row.status)
    ensures l.WriteRunning? && At(s, l.i) && NotStarted(s.attempts[l.i])
  {
    EndsTerminal(c, s, ls);
    OnlyRunningWriteRevives(c, e, l);
    NoAcquisitionWhileTerminal(c, s, ls, l.i);
  }

  lemma {:induction false} EndsTerminal(c: Settings, s: State, ls: seq<Label>)
    requires Valid(c, s, ls) && StaysTerminal(c, s, ls)
    ensures Terminal(Exec(c, s, ls).row.status)
    decreases |ls|
  {
    if ls != [] {
      EndsTerminal(c, Do(c, s, ls[0]), ls[1..]);
    }
  }

  /** Terminal and quiescent is absorbing. */
  lemma {:induction false} TerminalAbsorbs(c: Settings, s: State, ls: seq<Label>)
    requires Terminal(s.row.status) && Quiescent(s) && Valid(c, s, ls)
    ensures Terminal(Exec(c, s, ls).row.status) && Quiescent(Exec(c, s, ls))
    ensures |Exec(c, s, ls).attempts| == |s.attempts|
    decreases |ls|
  {
    if ls != [] {
      TerminalAbsorbs(c, Do(c, s, ls[0]), ls[1..]);
    }
  }
}

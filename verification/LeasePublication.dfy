/**
 What an attempt has made visible, in every reachable state: a status history of
 a fixed shape, and nothing towards clients before it is past its final write.
 */
module LeasePublication {
  import opened Options
  import opened RunRow
  import opened LeaseProtocol
  import opened LeaseFencing

  predicate StatusOnly(log: seq<Effect>) {
    forall k :: 0 <= k < |log| ==> log[k].Wrote?
  }

  /** `running` at most once and only first, then terminal statuses. */
  predicate StatusShape(log: seq<Effect>) {
    forall k :: 0 <= k < |log| && log[k].Wrote? && !Terminal(log[k].status) ==> k == 0 && log[k].status.Running?
  }

  /** No status follows an end event, a broker cleanup or a done key. */
  predicate StatusesFirst(log: seq<Effect>) {
    forall j, k :: 0 <= j < k < |log| && log[k].Wrote? ==> log[j].Wrote?
  }

  /** The phases up to the final write, and the silent one. */
  predicate Unpublished(p: Phase) {
    p.Loading? || p.Starting? || p.Executing? || p.Finalized? || p.Handling? || p.Silent?
  }

  predicate Disciplined(a: Attempt) {
    && StatusShape(a.log) && StatusesFirst(a.log)
    && (a.phase.Loading? || a.phase.Starting? ==> a.log == [])
    && (Unpublished(a.phase) ==> StatusOnly(a.log))
  }

  ghost predicate AllDisciplined(s: State) {
    forall i :: 0 <= i < |s.attempts| ==> Disciplined(s.attempts[i])
  }

  lemma StatusAppended(log: seq<Effect>, st: Status)
    requires StatusOnly(log) && StatusShape(log)
    requires Terminal(st) || (st.Running? && log == [])
    ensures StatusOnly(log + [Wrote(st)]) && StatusShape(log + [Wrote(st)]) && StatusesFirst(log + [Wrote(st)])
  {
  }

  lemma EffectAppended(log: seq<Effect>, e: Effect)
    requires StatusShape(log) && StatusesFirst(log) && !e.Wrote?
    ensures StatusShape(log + [e]) && StatusesFirst(log + [e])
  {
  }

  /** The attempt's own steps. */
  lemma OwnStepKeepsDisciplined(c: Settings, s: State, l: Label, i: nat)
    requires At(s, i) && Disciplined(s.attempts[i]) && Enabled(s, l) && Subject(l) == Some(i)
    ensures Disciplined(Do(c, s, l).attempts[i])
  {
    var log := s.attempts[i].log;
    match l {
      case WriteRunning(_) => StatusAppended(log, Running);
      case Finalize(_, st) => StatusAppended(log, st);
      case Publish(_, e) => EffectAppended(log, e);
      case _ =>
    }
  }

  lemma StepKeepsDisciplined(c: Settings, s: State, l: Label, i: nat)
    requires AllDisciplined(s) && Enabled(s, l) && At(Do(c, s, l), i)
    ensures Disciplined(Do(c, s, l).attempts[i])
  {
    if i == |s.attempts| {
      assert l.TryAcquire?;
    } else if Subject(l) == Some(i) {
      OwnStepKeepsDisciplined(c, s, l, i);
    } else {
      StepKeepsAttempt(c, s, l, i);
    }
  }

  /** In every reachable state the log of every attempt, dead or alive, is a
      status history followed by publications. */
  lemma {:induction false} RunKeepsDisciplined(c: Settings, s: State, ls: seq<Label>)
    requires AllDisciplined(s) && Valid(c, s, ls)
    ensures AllDisciplined(Exec(c, s, ls))
    decreases |ls|
  {
    if ls != [] {
      var s' := Do(c, s, ls[0]);
      forall i | 0 <= i < |s'.attempts| ensures Disciplined(s'.attempts[i]) {
        StepKeepsDisciplined(c, s, ls[0], i);
      }
      RunKeepsDisciplined(c, s', ls[1..]);
    }
  }

  /** An attempt whose lease-loss cancellation lands inside the try body of
      execute_run publishes nothing in its whole life: no end event, no broker
      cleanup, no done key, before or after, and no status from then on. */
  lemma LostAttemptPublishesNothing(c: Settings, s: State, first: seq<Label>, i: nat, after: seq<Label>)
    requires Run(c, s, first)
    requires var m := Exec(c, s, first);
             && At(m, i) && InTry(m.attempts[i]) && Enabled(m, LossCancel(i))
             && Valid(c, Do(c, m, LossCancel(i)), after)
    ensures var m := Exec(c, s, first);
            var e := Exec(c, Do(c, m, LossCancel(i)), after);
            At(e, i) && StatusOnly(e.attempts[i].log) && e.attempts[i].log == m.attempts[i].log
  {
    RunKeepsDisciplined(c, s, first);
    var m := Exec(c, s, first);
    assert Disciplined(m.attempts[i]);
    MutedForever(c, Do(c, m, LossCancel(i)), after, i);
  }
}

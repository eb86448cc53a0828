/**
 Recovery of crashed runs: how long a row can stay running under a crashed
 owner, exactly which steps leave a running row that nobody holds, and that such
 a row is never recovered.
 */
module LeaseRecovery {
  import opened Options
  import opened RunRow
  import opened LeaseProtocol
  import opened LeaseInvariants
  import opened LeaseExclusion
  import opened LeaseFencing
  import opened RetryBudget

  // --------------------------------------- running rows and their claims

  /** Its next write is `running`. */
  predicate AboutToRun(a: Attempt) {
    a.phase.Starting? || a.phase == Loading(false)
  }

  /** The step takes the claim from a run that is running or about to be: a
      failure mark that hits a new attempt, or a release that leaves `running`. */
  predicate Strips(s: State, l: Label)
    requires Enabled(s, l)
  {
    || (l.MarkFailed? && exists i :: 0 <= i < |s.attempts| && AboutToRun(s.attempts[i]))
    || (l.Release? && OwnedBy(s.row, s.attempts[l.i].worker) && s.row.status.Running?)
  }

  predicate NoStrips(c: Settings, s: State, ls: seq<Label>)
    requires Valid(c, s, ls)
    decreases |ls|
  {
    ls == [] || (!Strips(s, ls[0]) && NoStrips(c, Do(c, s, ls[0]), ls[1..]))
  }

  /** Whoever is running, or about to, holds the row. */
  ghost predicate ClaimHeld(s: State) {
    && (s.row.status.Running? ==> s.row.claimedBy.Some?)
    && forall i :: 0 <= i < |s.attempts| && AboutToRun(s.attempts[i]) ==> OwnedBy(s.row, s.attempts[i].worker)
  }

  ghost predicate ClaimHeldThroughout(c: Settings, s: State, ls: seq<Label>)
    requires Valid(c, s, ls)
    decreases |ls|
  {
    ClaimHeld(s) && (ls == [] || ClaimHeldThroughout(c, Do(c, s, ls[0]), ls[1..]))
  }

  lemma StripBreaksClaim(c: Settings, s: State, l: Label)
    requires Enabled(s, l) && Strips(s, l)
    ensures !ClaimHeld(Do(c, s, l))
  {
    if l.MarkFailed? {
      var i :| 0 <= i < |s.attempts| && AboutToRun(s.attempts[i]);
      assert AboutToRun(Do(c, s, l).attempts[i]);
    }
  }

  /** Only one attempt is live, so what takes the row takes it from its owner. */
  lemma AttemptKeepsClaim(c: Settings, s: State, l: Label)
    requires RowShape(s) && Guarded(c, s) && ClaimHeld(s) && Enabled(s, l) && Subject(l).Some? && !Strips(s, l)
    ensures ClaimHeld(Do(c, s, l))
  {
    var s', i := Do(c, s, l), Subject(l).value;
    assert GuardedAt(c, s, i);
    forall j | 0 <= j < |s'.attempts| && AboutToRun(s'.attempts[j]) ensures OwnedBy(s'.row, s'.attempts[j].worker) {
      StepKeepsAttempt(c, s, l, j);
      assert GuardedAt(c, s, j);
    }
  }

  lemma ReaperKeepsClaim(c: Settings, s: State, l: Label)
    requires ClaimHeld(s) && Enabled(s, l) && ReaperLabel(l) && !Strips(s, l) && !ResetsLive(s, l)
    ensures ClaimHeld(Do(c, s, l))
  {
    assert Do(c, s, l).attempts == s.attempts;
    if l.ReapReset? && l.scan.found && Expired(s.row, l.stamp) {
      forall j | 0 <= j < |s.attempts| ensures !AboutToRun(s.attempts[j]) {
        assert !Live(s.attempts[j]);
      }
    }
  }

  lemma AcquireKeepsClaim(c: Settings, s: State, l: Label)
    requires Guarded(c, s) && ClaimHeld(s) && Enabled(s, l) && l.TryAcquire?
    ensures ClaimHeld(Do(c, s, l))
  {
    forall j | 0 <= j < |s.attempts| && Acquirable(s.row) ensures !Live(s.attempts[j]) {
      assert GuardedAt(c, s, j);
    }
  }

  lemma OthersKeepClaim(c: Settings, s: State, l: Label)
    requires RowShape(s) && Guarded(c, s) && ClaimHeld(s) && Enabled(s, l) && Subject(l).None?
    requires !Strips(s, l) && !ResetsLive(s, l)
    ensures ClaimHeld(Do(c, s, l))
  {
    if ReaperLabel(l) {
      ReaperKeepsClaim(c, s, l);
    } else if l.TryAcquire? {
      AcquireKeepsClaim(c, s, l);
    } else {
      assert Do(c, s, l).attempts == s.attempts;
    }
  }

  lemma {:induction false} ClaimHeldFrom(c: Settings, k: nat, s: State, ls: seq<Label>)
    requires k * c.heartbeat <= c.lease
    requires Sound(s) && Guarded(c, s) && ClaimHeld(s) && Valid(c, s, ls) && TimelyRun(c, k, s, ls)
    ensures ClaimHeldThroughout(c, s, ls) <==> NoStrips(c, s, ls)
    ensures NoStrips(c, s, ls) ==> ClaimHeld(Exec(c, s, ls))
    decreases |ls|
  {
    if ls != [] {
      NoResetOfLive(c, k, s, ls[0]);
      StepKeepsGuarded(c, s, ls[0]);
      StepKeepsSound(c, s, ls[0]);
      if Strips(s, ls[0]) {
        StripBreaksClaim(c, s, ls[0]);
      } else {
        if Subject(ls[0]).Some? {
          AttemptKeepsClaim(c, s, ls[0]);
        } else {
          OthersKeepClaim(c, s, ls[0]);
        }
        ClaimHeldFrom(c, k, Do(c, s, ls[0]), ls[1..]);
      }
    }
  }

  /** A timely run keeps every running or starting run claimed if and only if no
      step of it strips the row. */
  lemma ClaimHeldIff(c: Settings, k: nat, s: State, ls: seq<Label>)
    requires k * c.heartbeat <= c.lease
    requires Run(c, s, ls) && TimelyRun(c, k, s, ls)
    ensures ClaimHeldThroughout(c, s, ls) <==> NoStrips(c, s, ls)
    ensures NoStrips(c, s, ls) && Exec(c, s, ls).row.status.Running? ==> Exec(c, s, ls).row.claimedBy.Some?
  {
    ClaimHeldFrom(c, k, s, ls);
  }

  /** And each stripping step leads, at once or with the attempt's next steps, to
      a running row that nobody holds. */
  lemma StrippedRunsUnclaimed(c: Settings, s: State, l: Label) returns (ls: seq<Label>)
    requires Enabled(s, l) && Strips(s, l)
    ensures |ls| > 0 && ls[0] == l && Valid(c, s, ls)
    ensures Exec(c, s, ls).row.status.Running? && Exec(c, s, ls).row.claimedBy.None?
  {
    if l.Release? {
      ls := [l];
      assert [l][1..] == [];
      assert Exec(c, Do(c, s, l), []).row.status.Running?;
      ExecCons(c, s, l, []);
      assert [l] + [] == [l];
    } else {
      var i :| 0 <= i < |s.attempts| && AboutToRun(s.attempts[i]);
      var rest := GoesOnToRun(c, Do(c, s, l), i);
      ls := [l] + rest;
      ExecCons(c, s, l, rest);
    }
  }

  lemma GoesOnToRun(c: Settings, s: State, i: nat) returns (ls: seq<Label>)
    requires At(s, i) && AboutToRun(s.attempts[i]) && s.row.claimedBy.None?
    ensures Valid(c, s, ls) && Exec(c, s, ls).row.status.Running? && Exec(c, s, ls).row.claimedBy.None?
  {
    var m := if s.attempts[i].phase.Starting? then s else Do(c, s, LoadOk(i));
    var e := Do(c, m, WriteRunning(i));
    assert Valid(c, e, []) && Exec(c, e, []) == e;
    ExecCons(c, m, WriteRunning(i), []);
    ls := [WriteRunning(i)] + [];
    if !s.attempts[i].phase.Starting? {
      ExecCons(c, s, LoadOk(i), ls);
      ls := [LoadOk(i)] + ls;
    }
  }

  // ----------------------------------------------------- bounded recovery

  /** Some reaper pass that began within the last reaper interval has completed its reset. */
  predicate ReapersTimely(c: Settings, s: State) {
    s.now - s.lastReap <= c.reaper
  }

  /** Every lease was written as some past stamp plus the lease length. */
  predicate LeaseBounded(c: Settings, s: State) {
    s.row.leaseExpiresAt.Some? ==> s.row.leaseExpiresAt.value <= s.now + c.lease
  }

  lemma {:induction false} RunKeepsLeaseBounded(c: Settings, s: State, ls: seq<Label>)
    requires LeaseBounded(c, s) && Valid(c, s, ls)
    ensures LeaseBounded(c, Exec(c, s, ls))
    decreases |ls|
  {
    if ls != [] {
      RunKeepsLeaseBounded(c, Do(c, s, ls[0]), ls[1..]);
    }
  }

  /** Since the crash nobody acquired the run.  If it is still running, it is so
      under the claim of the crash, no completed pass began after that claim's
      last possible moment, and every open pass that did has seen the row. */
  ghost predicate Recovering(c: Settings, crashed: State, s: State) {
    && |s.attempts| == |crashed.attempts| && Quiescent(s)
    && (s.row.status.Running? ==>
          && crashed.row.status.Running? && s.row.claimedBy == crashed.row.claimedBy
          && (s.row.leaseExpiresAt.Some? ==>
                && s.row.leaseExpiresAt.value <= crashed.now + c.lease
                && s.lastReap <= crashed.now + c.lease
                && forall sc :: sc in s.scans && crashed.now + c.lease < sc.stamp ==> sc.found))
  }

  lemma QuiescentAttempts(c: Settings, s: State, l: Label)
    requires Quiescent(s) && Enabled(s, l)
    ensures Subject(l).None?
    ensures |s.attempts| <= |Do(c, s, l).attempts|
    ensures |Do(c, s, l).attempts| == |s.attempts| ==> Do(c, s, l).attempts == s.attempts
  {
  }

  lemma ReaperKeepsRecovering(c: Settings, crashed: State, s: State, l: Label)
    requires Recovering(c, crashed, s) && Enabled(s, l) && ReaperLabel(l)
    ensures Recovering(c, crashed, Do(c, s, l))
  {
  }

  lemma StepKeepsRecovering(c: Settings, crashed: State, s: State, l: Label)
    requires Recovering(c, crashed, s) && Enabled(s, l) && |Do(c, s, l).attempts| == |s.attempts|
    ensures Recovering(c, crashed, Do(c, s, l))
  {
    QuiescentAttempts(c, s, l);
    if ReaperLabel(l) {
      ReaperKeepsRecovering(c, crashed, s, l);
    }
  }

  lemma {:induction false} RunKeepsRecovering(c: Settings, crashed: State, s: State, ls: seq<Label>)
    requires Recovering(c, crashed, s) && Valid(c, s, ls)
    ensures |crashed.attempts| < |Exec(c, s, ls).attempts| || Recovering(c, crashed, Exec(c, s, ls))
    decreases |ls|
  {
    if ls != [] {
      var s' := Do(c, s, ls[0]);
      QuiescentAttempts(c, s, ls[0]);
      if |s'.attempts| == |s.attempts| {
        StepKeepsRecovering(c, crashed, s, ls[0]);
        RunKeepsRecovering(c, crashed, s', ls[1..]);
      } else {
        AttemptsGrow(c, s', ls[1..]);
      }
    }
  }

  lemma CrashStartsRecovering(c: Settings, s: State, i: nat)
    requires 0 <= c.lease && Sound(s) && LeaseBounded(c, s) && Enabled(s, Crash(i))
    requires Quiescent(Do(c, s, Crash(i)))
    ensures Recovering(c, Do(c, s, Crash(i)), Do(c, s, Crash(i)))
  {
  }

  /** Bounded recovery, with no hypothesis on heartbeats: if after a crash no
      attempt is live, then once LEASE + REAPER_INTERVAL has passed the row is
      acquirable, was acquired again, is terminal, or was running under no claim
      at the crash already. */
  lemma BoundedRecovery(c: Settings, s: State, before: seq<Label>, i: nat, after: seq<Label>)
    requires 0 <= c.lease && Run(c, s, before) && Enabled(Exec(c, s, before), Crash(i))
    requires var crashed := Do(c, Exec(c, s, before), Crash(i));
             && Quiescent(crashed) && Valid(c, crashed, after)
             && ReapersTimely(c, Exec(c, crashed, after))
             && crashed.now + c.lease + c.reaper < Exec(c, crashed, after).now
    ensures var crashed := Do(c, Exec(c, s, before), Crash(i));
            var e := Exec(c, crashed, after);
            || Acquirable(e.row)
            || |crashed.attempts| < |e.attempts|
            || Terminal(e.row.status)
            || (e.row.status.Running? && e.row.claimedBy.None?
                && crashed.row.status.Running? && crashed.row.claimedBy.None?)
  {
    var crashed := Do(c, Exec(c, s, before), Crash(i));
    RunKeepsSound(c, s, before);
    RunKeepsLeaseBounded(c, s, before);
    CrashStartsRecovering(c, Exec(c, s, before), i);
    StepKeepsSound(c, Exec(c, s, before), Crash(i));
    RunKeepsSound(c, crashed, after);
    RunKeepsRecovering(c, crashed, crashed, after);
  }

  /** With punctual heartbeats up to the crash and no stripping step there, the
      three outcomes are all: a crashed run is recovered. */
  lemma RecoveredUnlessStripped(c: Settings, k: nat, s: State, before: seq<Label>, i: nat, after: seq<Label>)
    requires 0 <= c.lease && k * c.heartbeat <= c.lease
    requires Run(c, s, before) && TimelyRun(c, k, s, before) && NoStrips(c, s, before)
    requires Enabled(Exec(c, s, before), Crash(i))
    requires var crashed := Do(c, Exec(c, s, before), Crash(i));
             && Valid(c, crashed, after)
             && ReapersTimely(c, Exec(c, crashed, after))
             && crashed.now + c.lease + c.reaper < Exec(c, crashed, after).now
    ensures var crashed := Do(c, Exec(c, s, before), Crash(i));
            var e := Exec(c, crashed, after);
            Acquirable(e.row) || |crashed.attempts| < |e.attempts| || Terminal(e.row.status)
  {
    var m := Exec(c, s, before);
    TimelyRunKeepsGuarded(c, k, s, before);
    forall j | 0 <= j < |m.attempts| && j != i ensures !Live(m.attempts[j]) {
      assert GuardedAt(c, m, i) && GuardedAt(c, m, j);
    }
    ClaimHeldIff(c, k, s, before);
    BoundedRecovery(c, s, before, i, after);
  }

  // -------------------------------------------------------- the orphaned run

  /** Running, held by nobody, with nothing in flight that could change it. */
  ghost predicate Orphaned(s: State) {
    && s.row.status.Running? && s.row.claimedBy.None? && s.row.leaseExpiresAt.None?
    && s.unmarked == 0 && s.uncharged == 0 && s.counts == multiset{}
    && Quiescent(s)
  }

  predicate NoApiInterrupt(ls: seq<Label>) {
    forall k :: 0 <= k < |ls| ==> !ls[k].ApiInterrupt?
  }

  lemma StepKeepsOrphan(c: Settings, s: State, l: Label)
    requires Orphaned(s) && Enabled(s, l) && !l.ApiInterrupt?
    ensures Orphaned(Do(c, s, l)) && Do(c, s, l).row == s.row
  {
    QuiescentAttempts(c, s, l);
  }

  /** No worker and no reaper ever recovers an orphaned run. */
  lemma {:induction false} OrphanIsForever(c: Settings, s: State, ls: seq<Label>)
    requires Orphaned(s) && Valid(c, s, ls) && NoApiInterrupt(ls)
    ensures Orphaned(Exec(c, s, ls)) && Exec(c, s, ls).row == s.row
    decreases |ls|
  {
    if ls != [] {
      assert !ls[0].ApiInterrupt?;
      StepKeepsOrphan(c, s, ls[0]);
      OrphanIsForever(c, Do(c, s, ls[0]), ls[1..]);
    }
  }

  /** The run is acquired again before the failure mark lands, and the mark takes
      the claim from under the new attempt. */
  lemma MarkHitsNewAttempt(c: Settings, k: nat) returns (ls: seq<Label>, e: State, i: nat)
    requires 0 <= k * c.heartbeat && 0 <= c.lease
    ensures Reaches(c, k, ls, e)
    ensures e.row.status.Error? && e.row.claimedBy.None? && e.row.leaseExpiresAt.None?
    ensures e.unmarked == 0 && e.uncharged == 0 && e.counts == multiset{}
    ensures At(e, i) && e.attempts[i].phase.Starting?
    ensures forall j :: 0 <= j < |e.attempts| && j != i ==> !Live(e.attempts[j])
  {
    ls, e := SpendsBudget(c, k);
    i := |e.attempts|;
    ls, e := Acquires(c, k, ls, e, "b");
    ls, e := Then(c, k, ls, e, LoadOk(i));
    ls, e := Then(c, k, ls, e, MarkFailed);
  }

  /** Whatever the retry budget, the unguarded failure mark makes an orphan: the
      new attempt's `running` write revives the status without a claim, and its
      worker crashes. */
  lemma OrphanByMark(c: Settings, k: nat) returns (ls: seq<Label>, e: State)
    requires 0 <= k * c.heartbeat && 0 <= c.lease
    ensures Reaches(c, k, ls, e) && Orphaned(e)
  {
    var i;
    ls, e, i := MarkHitsNewAttempt(c, k);
    ls, e := Then(c, k, ls, e, WriteRunning(i));
    ls, e := Then(c, k, ls, e, Crash(i));
  }

  lemma FailsToFinalize(c: Settings, k: nat) returns (ls: seq<Label>, e: State)
    requires 0 <= k * c.heartbeat && 0 <= c.lease
    ensures Reaches(c, k, ls, e)
    ensures e == Fresh().(row := Claimed(Fresh().row, "a", c.lease), attempts := e.attempts)
    ensures |e.attempts| == 1 && e.attempts[0].phase.Tail? && e.attempts[0].worker == "a"
    ensures e.attempts[0].lastBeat == 0
  {
    ls, e := Acquires(c, k, [], Fresh(), "a");
    ls, e := Then(c, k, ls, e, LoadOk(0));
    ls, e := Then(c, k, ls, e, WriteRunning(0));
    ls, e := Then(c, k, ls, e, EnterHandler(0, true));
    ls, e := Then(c, k, ls, e, HandlerFails(0));
  }

  /** And so does a release, with no crash, reset or failure mark: the final write
      fails in the handler, and the release clears the claim of a running row. */
  lemma OrphanByRelease(c: Settings, k: nat) returns (ls: seq<Label>, e: State)
    requires 0 <= k * c.heartbeat && 0 <= c.lease
    ensures Reaches(c, k, ls, e) && Orphaned(e)
    ensures e.resets == 0 && |e.attempts| == 1 && e.attempts[0].phase.Done?
  {
    ls, e := FailsToFinalize(c, k);
    ls, e := Then(c, k, ls, e, FinishJob(0));
    ls, e := Then(c, k, ls, e, Release(0));
  }
}

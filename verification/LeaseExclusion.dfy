/**
 Exclusion under timely heartbeats and the exact lease length it needs.
 */
module LeaseExclusion {
  import opened Options
  import opened RunRow
  import opened LeaseProtocol
  import opened LeaseInvariants

  /** A live attempt that still holds the row wrote its lease at most k heartbeat
      intervals ago: k - 1 beats in a row may be missed, not k. */
  ghost predicate Timely(c: Settings, k: nat, s: State) {
    forall i :: 0 <= i < |s.attempts| && Live(s.attempts[i]) && OwnedBy(s.row, s.attempts[i].worker)
      ==> s.now - s.attempts[i].lastBeat <= k * c.heartbeat
  }

  ghost predicate TimelyRun(c: Settings, k: nat, s: State, ls: seq<Label>)
    requires Valid(c, s, ls)
    decreases |ls|
  {
    Timely(c, k, s) && (ls == [] || TimelyRun(c, k, Do(c, s, ls[0]), ls[1..]))
  }

  /** At most one attempt is live. */
  ghost predicate Exclusive(s: State) {
    forall i, j ::
      0 <= i < |s.attempts| && 0 <= j < |s.attempts| && Live(s.attempts[i]) && Live(s.attempts[j]) ==> i == j
  }

  /** If attempt i is live it is the latest one, keeps the row from being
      pending, and the lease it holds is the one it last wrote. */
  predicate GuardedAt(c: Settings, s: State, i: nat)
    requires i < |s.attempts|
  {
    Live(s.attempts[i]) ==>
      && i == |s.attempts| - 1
      && !s.row.status.Pending?
      && (s.row.claimedBy.Some? ==> s.row.leaseExpiresAt == Some(s.attempts[i].lastBeat + c.lease))
  }

  ghost predicate Guarded(c: Settings, s: State) {
    forall i :: 0 <= i < |s.attempts| ==> GuardedAt(c, s, i)
  }

  /** The step resets the row although an attempt is live. */
  predicate ResetsLive(s: State, l: Label)
    requires Enabled(s, l)
  {
    l.ReapReset? && l.scan.found && Expired(s.row, l.stamp) && exists i :: 0 <= i < |s.attempts| && Live(s.attempts[i])
  }

  lemma NoResetOfLive(c: Settings, k: nat, s: State, l: Label)
    requires k * c.heartbeat <= c.lease
    requires Sound(s) && Guarded(c, s) && Timely(c, k, s) && Enabled(s, l)
    ensures !ResetsLive(s, l)
  {
    if l.ReapReset? && l.scan.found && Expired(s.row, l.stamp) {
      forall i | 0 <= i < |s.attempts| ensures !Live(s.attempts[i]) {
        assert GuardedAt(c, s, i);
      }
    }
  }

  lemma BeatKeepsGuardedAt(c: Settings, s: State, l: Label, i: nat)
    requires RowShape(s) && Guarded(c, s) && l.Beat? && Enabled(s, l) && i < |s.attempts|
    ensures GuardedAt(c, Do(c, s, l), i)
  {
    assert GuardedAt(c, s, i) && GuardedAt(c, s, l.i);
  }

  lemma AttemptKeepsGuardedAt(c: Settings, s: State, l: Label, i: nat)
    requires RowShape(s) && Subject(l).Some? && !l.Beat? && Enabled(s, l) && i < |s.attempts|
    requires GuardedAt(c, s, i)
    ensures GuardedAt(c, Do(c, s, l), i)
  {
  }

  lemma AcquireKeepsGuardedAt(c: Settings, s: State, l: Label, i: nat)
    requires RowShape(s) && Guarded(c, s) && l.TryAcquire? && Enabled(s, l) && i < |Do(c, s, l).attempts|
    ensures GuardedAt(c, Do(c, s, l), i)
  {
    assert i < |s.attempts| ==> GuardedAt(c, s, i);
  }

  lemma StepKeepsGuardedAt(c: Settings, s: State, l: Label, i: nat)
    requires RowShape(s) && Guarded(c, s) && Enabled(s, l) && i < |Do(c, s, l).attempts|
    requires !ResetsLive(s, l)
    ensures GuardedAt(c, Do(c, s, l), i)
  {
    if l.TryAcquire? {
      AcquireKeepsGuardedAt(c, s, l, i);
    } else {
      assert GuardedAt(c, s, i);
      if l.Beat? {
        BeatKeepsGuardedAt(c, s, l, i);
      } else if Subject(l).Some? {
        AttemptKeepsGuardedAt(c, s, l, i);
      }
    }
  }

  lemma StepKeepsGuarded(c: Settings, s: State, l: Label)
    requires RowShape(s) && Guarded(c, s) && Enabled(s, l) && !ResetsLive(s, l)
    ensures Guarded(c, Do(c, s, l))
  {
    forall i | 0 <= i < |Do(c, s, l).attempts| ensures GuardedAt(c, Do(c, s, l), i) {
      StepKeepsGuardedAt(c, s, l, i);
    }
  }

  lemma {:induction false} TimelyRunKeepsGuarded(c: Settings, k: nat, s: State, ls: seq<Label>)
    requires k * c.heartbeat <= c.lease
    requires Sound(s) && Guarded(c, s) && Valid(c, s, ls) && TimelyRun(c, k, s, ls)
    ensures Sound(Exec(c, s, ls)) && Guarded(c, Exec(c, s, ls)) && Timely(c, k, Exec(c, s, ls))
    decreases |ls|
  {
    if ls != [] {
      NoResetOfLive(c, k, s, ls[0]);
      StepKeepsGuarded(c, s, ls[0]);
      StepKeepsSound(c, s, ls[0]);
      TimelyRunKeepsGuarded(c, k, Do(c, s, ls[0]), ls[1..]);
    }
  }

  /** Exclusion: in every state of every timely run at most one attempt is live,
      it is the latest acquisition, and no step from there resets its row. */
  lemma Exclusion(c: Settings, k: nat, s: State, ls: seq<Label>)
    requires k * c.heartbeat <= c.lease
    requires Run(c, s, ls) && TimelyRun(c, k, s, ls)
    ensures Exclusive(Exec(c, s, ls))
    ensures forall l: Label | Enabled(Exec(c, s, ls), l) :: !ResetsLive(Exec(c, s, ls), l)
  {
    TimelyRunKeepsGuarded(c, k, s, ls);
    var e := Exec(c, s, ls);
    forall i, j | 0 <= i < |e.attempts| && 0 <= j < |e.attempts| && Live(e.attempts[i]) && Live(e.attempts[j])
      ensures i == j
    {
      assert GuardedAt(c, e, i) && GuardedAt(c, e, j);
    }
    forall l: Label | Enabled(Exec(c, s, ls), l) ensures !ResetsLive(Exec(c, s, ls), l) {
      NoResetOfLive(c, k, Exec(c, s, ls), l);
    }
  }

  // ------------------------------------------- the lease length is exact

  lemma {:induction false} ExtendTimely(c: Settings, k: nat, s: State, ls: seq<Label>, l: Label)
    requires Valid(c, s, ls) && TimelyRun(c, k, s, ls)
    requires Enabled(Exec(c, s, ls), l) && Timely(c, k, Do(c, Exec(c, s, ls), l))
    ensures Valid(c, s, ls + [l]) && TimelyRun(c, k, s, ls + [l])
    ensures Exec(c, s, ls + [l]) == Do(c, Exec(c, s, ls), l)
    decreases |ls|
  {
    ExtendRun(c, s, ls, l);
    if ls == [] {
      assert [l][1..] == [];
      assert ls + [l] == [l];
    } else {
      assert (ls + [l])[1..] == ls[1..] + [l];
      ExtendTimely(c, k, Do(c, s, ls[0]), ls[1..], l);
    }
  }

  /** State e is where the timely run ls from Fresh() ends. */
  ghost predicate Reaches(c: Settings, k: nat, ls: seq<Label>, e: State) {
    Run(c, Fresh(), ls) && TimelyRun(c, k, Fresh(), ls) && Exec(c, Fresh(), ls) == e
  }

  lemma Then(c: Settings, k: nat, ls: seq<Label>, e: State, l: Label) returns (ls': seq<Label>, e': State)
    requires Reaches(c, k, ls, e) && Enabled(e, l) && Timely(c, k, Do(c, e, l))
    ensures e' == Do(c, e, l) && Reaches(c, k, ls', e')
  {
    ExtendTimely(c, k, Fresh(), ls, l);
    ls', e' := ls + [l], Do(c, e, l);
  }

  /** A worker polls the pending run and acquires it. */
  lemma Acquires(c: Settings, k: nat, ls: seq<Label>, e: State, w: Worker) returns (ls': seq<Label>, e': State)
    requires 0 <= k * c.heartbeat
    requires Reaches(c, k, ls, e) && Acquirable(e.row)
    requires forall i :: 0 <= i < |e.attempts| && Live(e.attempts[i]) ==> e.attempts[i].worker != w
    ensures Reaches(c, k, ls', e')
    ensures e' == e.(row := Claimed(e.row, w, e.now + c.lease),
                     attempts := e.attempts + [Attempt(w, Loading(e.row.params.None?), e.now, Beating, [])])
  {
    ls', e' := Then(c, k, ls, e, PollOnRedisError(w));
    ls', e' := Then(c, k, ls', e', TryAcquire(w, e.now));
    assert e.hands + multiset{w} - multiset{w} == e.hands;
  }

  lemma ExpiresAndIsSeen(c: Settings, k: nat, ls: seq<Label>, e: State, late: Time)
    returns (ls': seq<Label>, e': State)
    requires Reaches(c, k, ls, e) && e.row.status.Running? && e.row.leaseExpiresAt.Some?
    requires e.now <= e.row.leaseExpiresAt.value < late && Timely(c, k, e.(now := late))
    ensures Reaches(c, k, ls', e')
    ensures e' == e.(now := late, scans := e.scans + multiset{Scan(late, true)})
  {
    ls', e' := Then(c, k, ls, e, Tick(late));
    ls', e' := Then(c, k, ls', e', ReapFind(late));
  }

  /** Time passes until just after the row's lease, and one reaper pass resets it. */
  lemma ExpiresAndResets(c: Settings, k: nat, ls: seq<Label>, e: State) returns (ls': seq<Label>, e': State)
    requires Reaches(c, k, ls, e) && e.row.status.Running? && e.row.leaseExpiresAt.Some?
    requires e.lastReap <= e.now <= e.row.leaseExpiresAt.value
    requires Timely(c, k, e.(now := e.row.leaseExpiresAt.value + 1))
    ensures Reaches(c, k, ls', e')
    ensures var late := e.row.leaseExpiresAt.value + 1;
            e' == e.(now := late, row := Reset(e.row), lastReap := late,
                     uncharged := e.uncharged + 1, resets := e.resets + 1)
  {
    var late := e.row.leaseExpiresAt.value + 1;
    ls', e' := ExpiresAndIsSeen(c, k, ls, e, late);
    assert e'.scans - multiset{Scan(late, true)} == e.scans;
    ls', e' := Then(c, k, ls', e', ReapReset(Scan(late, true), late));
  }

  /** Pending and free, nobody working on it. */
  ghost predicate Idle(e: State) {
    && Acquirable(e.row) && e.row.leaseExpiresAt.None? && e.lastReap <= e.now
    && forall i :: 0 <= i < |e.attempts| ==> !Live(e.attempts[i])
  }

  /** One crash of the owner, recovered by a pass that never charges it. */
  lemma CrashAndReset(c: Settings, k: nat, ls: seq<Label>, e: State, w: Worker) returns (ls': seq<Label>, e': State)
    requires 0 <= k * c.heartbeat && 0 <= c.lease
    requires Reaches(c, k, ls, e) && Idle(e)
    ensures Reaches(c, k, ls', e') && Idle(e')
    ensures |e'.attempts| == |e.attempts| + 1 && e'.resets == e.resets + 1 && e'.uncharged == e.uncharged + 1
    ensures e'.row == e.row && e'.counts == e.counts && e'.unmarked == e.unmarked
    ensures e'.exhausted == e.exhausted && e'.charged == e.charged
  {
    ls', e' := Acquires(c, k, ls, e, w);
    ls', e' := Then(c, k, ls', e', Crash(|e.attempts|));
    ls', e' := ExpiresAndResets(c, k, ls', e');
  }

  /** With a lease shorter than k heartbeat intervals a timely run has two live
      attempts: the reaper acts between two punctual beats. */
  lemma ShortLeaseBreaksExclusion(c: Settings, k: nat) returns (ls: seq<Label>, e: State)
    requires 0 <= c.lease < k * c.heartbeat
    ensures Reaches(c, k, ls, e) && !Exclusive(e)
  {
    ls, e := Acquires(c, k, [], Fresh(), "a");
    ls, e := ExpiresAndResets(c, k, ls, e);
    ls, e := Acquires(c, k, ls, e, "b");
    assert Live(e.attempts[0]) && Live(e.attempts[1]);
  }

  ghost predicate AlwaysExclusive(c: Settings, k: nat) {
    forall s, ls :: Run(c, s, ls) && TimelyRun(c, k, s, ls) ==> Exclusive(Exec(c, s, ls))
  }

  /** Beats at most k heartbeat intervals apart exclude double execution exactly
      when the lease is at least k intervals. */
  lemma LeaseLengthIsExact(c: Settings, k: nat)
    requires 0 <= c.lease
    ensures AlwaysExclusive(c, k) <==> k * c.heartbeat <= c.lease
  {
    if k * c.heartbeat <= c.lease {
      forall s, ls | Run(c, s, ls) && TimelyRun(c, k, s, ls) ensures Exclusive(Exec(c, s, ls)) {
        Exclusion(c, k, s, ls);
      }
    } else {
      var ls, e := ShortLeaseBreaksExclusion(c, k);
    }
  }

  /** So that many beats in a row can be missed, and no more. */
  lemma MissedBeatsSurvivedIff(c: Settings, missed: nat)
    requires 0 <= c.lease
    ensures AlwaysExclusive(c, missed + 1) <==> (missed + 1) * c.heartbeat <= c.lease
  {
    LeaseLengthIsExact(c, missed + 1);
  }

  /** A setting is accepted when the lease exceeds two heartbeat intervals. */
  predicate Accepted(c: Settings) {
    2 * c.heartbeat < c.lease
  }

  /** Acceptance promises one missed beat.  The two missed beats of its error text
      it promises only when the lease happens to reach three intervals. */
  lemma AcceptedSurvivesTwoMissedIff(c: Settings)
    requires 0 <= c.lease && Accepted(c)
    ensures AlwaysExclusive(c, 2)
    ensures AlwaysExclusive(c, 3) <==> 3 * c.heartbeat <= c.lease
  {
    LeaseLengthIsExact(c, 2);
    LeaseLengthIsExact(c, 3);
  }

  /** The accepted settings for which it is false: with the shortest lease the
      validator takes, a run that misses at most two beats in a row has two live
      attempts, for every heartbeat interval of at least two. */
  lemma AcceptedLeaseTooShort(c: Settings) returns (ls: seq<Label>, e: State)
    requires 2 <= c.heartbeat && c.lease == 2 * c.heartbeat + 1
    ensures Accepted(c) && Reaches(c, 3, ls, e) && !Exclusive(e)
  {
    ls, e := ShortLeaseBreaksExclusion(c, 3);
  }
}

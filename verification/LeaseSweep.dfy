/**
 Lost queue messages: the stuck scan of the reaper pushes a run that stays
 pending again, once it is old enough and passes complete in time.
 */
module LeaseSweep {
  import opened RunRow
  import opened LeaseProtocol
  import opened LeaseInvariants

  predicate RedisUp(ls: seq<Label>) {
    forall k :: 0 <= k < |ls| && ls[k].StuckPush? ==> ls[k].up
  }

  /** Some pass that began within the last reaper interval has pushed its stuck runs. */
  predicate SweepsTimely(c: Settings, s: State) {
    s.now - s.lastSweep <= c.reaper
  }

  ghost predicate SweepsPast(s: State) {
    s.lastSweep <= s.now && forall sw :: sw in s.sweeps ==> sw.stamp <= s.now
  }

  lemma OnlySweepsTouchSweeps(c: Settings, s: State, l: Label)
    requires Enabled(s, l) && !l.StuckFind? && !l.StuckPush?
    ensures var s' := Do(c, s, l);
            && s'.sweeps == s.sweeps && s'.lastSweep == s.lastSweep && s'.pushed == s.pushed
            && s'.createdAt == s.createdAt && s.now <= s'.now
  {
  }

  lemma StepKeepsSweepsPast(c: Settings, s: State, l: Label)
    requires SweepsPast(s) && Enabled(s, l)
    ensures SweepsPast(Do(c, s, l))
  {
    if !l.StuckFind? && !l.StuckPush? {
      OnlySweepsTouchSweeps(c, s, l);
    }
  }

  lemma {:induction false} RunKeepsSweepsPast(c: Settings, s: State, ls: seq<Label>)
    requires SweepsPast(s) && Valid(c, s, ls)
    ensures SweepsPast(Exec(c, s, ls))
    decreases |ls|
  {
    if ls != [] {
      StepKeepsSweepsPast(c, s, ls[0]);
      RunKeepsSweepsPast(c, Do(c, s, ls[0]), ls[1..]);
    }
  }

  /** The last time at which a run that was free at `from` need not look stuck. */
  function Threshold(c: Settings, from: State): Time {
    if from.now < from.createdAt + c.stuckAfter then from.createdAt + c.stuckAfter else from.now
  }

  /** Nobody acquired the run since `from`.  If it is still pending, every open
      sweep past the threshold has seen it, and every closed one has pushed it. */
  ghost predicate Awaiting(c: Settings, from: State, s: State) {
    && |s.attempts| == |from.attempts| && s.createdAt == from.createdAt
    && s.row.claimedBy.None? && s.row.leaseExpiresAt.None?
    && from.pushed <= s.pushed
    && (s.row.status.Pending? ==>
          && (forall sw :: sw in s.sweeps && Threshold(c, from) < sw.stamp ==> sw.stuck)
          && (Threshold(c, from) < s.lastSweep ==> from.pushed < s.pushed))
  }

  lemma FreeRowStaysFree(c: Settings, s: State, l: Label)
    requires s.row.claimedBy.None? && s.row.leaseExpiresAt.None? && Enabled(s, l)
    ensures |s.attempts| <= |Do(c, s, l).attempts|
    ensures |Do(c, s, l).attempts| == |s.attempts| ==>
              var r := Do(c, s, l).row;
              r.claimedBy.None? && r.leaseExpiresAt.None? && (r.status.Pending? ==> s.row.status.Pending?)
  {
  }

  lemma SweepKeepsAwaiting(c: Settings, from: State, s: State, l: Label)
    requires Awaiting(c, from, s) && Enabled(s, l) && (l.StuckFind? || l.StuckPush?) && (l.StuckPush? ==> l.up)
    ensures Awaiting(c, from, Do(c, s, l))
  {
    if l.StuckPush? && s.row.status.Pending? {
      assert Threshold(c, from) < l.sweep.stamp ==> l.sweep.stuck;
    }
  }

  lemma {:induction false} RunKeepsAwaiting(c: Settings, from: State, s: State, ls: seq<Label>)
    requires Awaiting(c, from, s) && Valid(c, s, ls) && RedisUp(ls)
    ensures |from.attempts| <= |Exec(c, s, ls).attempts|
    ensures |from.attempts| == |Exec(c, s, ls).attempts| ==> Awaiting(c, from, Exec(c, s, ls))
    decreases |ls|
  {
    if ls != [] {
      var s' := Do(c, s, ls[0]);
      FreeRowStaysFree(c, s, ls[0]);
      if |s'.attempts| == |from.attempts| {
        if ls[0].StuckFind? || ls[0].StuckPush? {
          SweepKeepsAwaiting(c, from, s, ls[0]);
        } else {
          OnlySweepsTouchSweeps(c, s, ls[0]);
        }
        RunKeepsAwaiting(c, from, s', ls[1..]);
      } else {
        AttemptsGrow(c, s', ls[1..]);
      }
    }
  }

  /** A run whose queue message was lost: if it was free at some point, is still
      pending and not acquired since, Redis took the pushes, passes complete
      within the reaper interval, and the threshold plus that interval has gone
      by, then the run was pushed again in between. */
  lemma LostRunIsPushedAgain(c: Settings, s: State, before: seq<Label>, after: seq<Label>)
    requires Run(c, s, before) && Acquirable(Exec(c, s, before).row)
    requires Valid(c, Exec(c, s, before), after) && RedisUp(after)
    requires var from, e := Exec(c, s, before), Exec(c, Exec(c, s, before), after);
             && e.row.status.Pending? && |e.attempts| == |from.attempts|
             && SweepsTimely(c, e) && Threshold(c, from) + c.reaper < e.now
    ensures Exec(c, s, before).pushed < Exec(c, Exec(c, s, before), after).pushed
  {
    var from := Exec(c, s, before);
    RunKeepsSound(c, s, before);
    RunKeepsSweepsPast(c, s, before);
    RunKeepsAwaiting(c, from, from, after);
  }

  /** And such a push can happen: from every state with a run that has been free
      for longer than the threshold, one pass pushes it. */
  lemma StuckRunCanBePushed(c: Settings, s: State) returns (ls: seq<Label>, e: State)
    requires s.row.status == Pending && s.row.claimedBy.None? && s.createdAt + c.stuckAfter < s.now
    ensures Valid(c, s, ls) && Exec(c, s, ls) == e && RedisUp(ls)
    ensures e.queued == s.queued + 1 && e.pushed == s.pushed + 1 && s.now <= e.lastSweep && e.row == s.row
  {
    var find, push := StuckFind(s.now), StuckPush(Sweep(s.now, true), true);
    StuckPassPushes(c, s, find, push);
    var m := Do(c, s, find);
    ls, e := [find] + ([push] + []), Do(c, m, push);
    assert Valid(c, e, []) && Exec(c, e, []) == e;
    ExecCons(c, m, push, []);
    ExecCons(c, s, find, [push] + []);
  }

  lemma StuckPassPushes(c: Settings, s: State, find: Label, push: Label)
    requires s.row.status == Pending && s.row.claimedBy.None? && s.createdAt + c.stuckAfter < s.now
    requires find == StuckFind(s.now) && push == StuckPush(Sweep(s.now, true), true)
    ensures Enabled(s, find) && Enabled(Do(c, s, find), push)
    ensures var e := Do(c, Do(c, s, find), push);
            e.queued == s.queued + 1 && e.pushed == s.pushed + 1 && s.now <= e.lastSweep && e.row == s.row
  {
  }
}

/**
 Why fencing is stated per worker name, and that the hypothesis is exact: the
 guards compare names, and only the name's own return ends the fence.
 */
module LeaseNames {
  import opened RunRow
  import opened LeaseProtocol
  import opened LeaseFencing

  /** Attempt i is without its claim in s and in every state of the run. */
  predicate FencedThroughout(c: Settings, s: State, ls: seq<Label>, i: nat)
    requires Valid(c, s, ls)
    decreases |ls|
  {
    && At(s, i) && Fenced(s, i)
    && (ls == [] || FencedThroughout(c, Do(c, s, ls[0]), ls[1..], i))
  }

  lemma FenceEndsIff(c: Settings, s: State, l: Label, i: nat)
    requires At(s, i) && Fenced(s, i) && Enabled(s, l)
    ensures At(Do(c, s, l), i) && (Fenced(Do(c, s, l), i) <==> !Reacquires(s, l, s.attempts[i].worker))
  {
    StepKeepsAttempt(c, s, l, i);
  }

  /** A fenced attempt stays fenced exactly as long as its worker name does not
      acquire the run again. */
  lemma {:induction false} FencedThroughoutIff(c: Settings, s: State, ls: seq<Label>, i: nat)
    requires At(s, i) && Fenced(s, i) && Valid(c, s, ls)
    ensures FencedThroughout(c, s, ls, i) <==> NoReacquire(c, s, ls, s.attempts[i].worker)
    decreases |ls|
  {
    if ls != [] {
      StepKeepsAttempt(c, s, ls[0], i);
      FenceEndsIff(c, s, ls[0], i);
      if Fenced(Do(c, s, ls[0]), i) {
        FencedThroughoutIff(c, Do(c, s, ls[0]), ls[1..], i);
      }
    }
  }

  /** Whenever the name acquires the run again while its old attempt still beats,
      the old attempt's next heartbeat succeeds: it moves the new attempt's lease
      and reports no loss. */
  lemma ReturningNameRevives(c: Settings, s: State, i: nat, stamp: Time, beat: Time)
    requires At(s, i) && JobRunning(s.attempts[i]) && s.attempts[i].hb.Beating? && Acquirable(s.row)
    requires Enabled(s, TryAcquire(s.attempts[i].worker, stamp)) && beat <= s.now
    ensures var again := Do(c, s, TryAcquire(s.attempts[i].worker, stamp));
            && Enabled(again, Beat(i, beat))
            && var e := Do(c, again, Beat(i, beat));
               && e.row == Extended(again.row, beat + c.lease)
               && e.attempts[i].hb.Beating? && !Fenced(e, i)
  {
  }

  lemma TakesRow(c: Settings) returns (ls: seq<Label>, e: State)
    ensures Ends(c, ls, e) && e.now == 0 && e.row == Claimed(Fresh().row, "a", c.lease) && e.scans == multiset{}
    ensures |e.attempts| == 1 && e.attempts[0] == Attempt("a", Starting, 0, Beating, [])
  {
    ls, e := Continues(c, [], Fresh(), PollOnRedisError("a"));
    ls, e := ThenAcquires(c, ls, e);
    ls, e := Continues(c, ls, e, LoadOk(0));
  }

  lemma ThenAcquires(c: Settings, ls: seq<Label>, e: State) returns (ls': seq<Label>, e': State)
    requires Ends(c, ls, e) && Acquirable(e.row) && "a" in e.hands && e.row.params.Some? && 0 <= e.now
    ensures Ends(c, ls', e') && e'.now == e.now && e'.scans == e.scans && e'.row == Claimed(e.row, "a", c.lease)
    ensures e'.attempts == e.attempts + [Attempt("a", Loading(false), 0, Beating, [])]
  {
    ls', e' := Continues(c, ls, e, TryAcquire("a", 0));
  }

  /** Whatever the settings, an attempt can lose its row while it executes and
      still beats, and leave its name free to acquire the run again. */
  lemma LosesRow(c: Settings) returns (ls: seq<Label>, lost: State)
    ensures Ends(c, ls, lost) && At(lost, 0) && Fenced(lost, 0)
    ensures JobRunning(lost.attempts[0]) && lost.attempts[0].hb.Beating?
    ensures Acquirable(lost.row) && lost.attempts[0].worker == "a" && |lost.attempts| == 1
    ensures lost.row == Fresh().row && lost.attempts[0].phase.Starting? && lost.attempts[0].log == []
  {
    var late := if c.lease < 0 then 0 else c.lease + 1;
    ls, lost := TakesRow(c);
    ls, lost := Continues(c, ls, lost, Tick(late));
    ls, lost := Continues(c, ls, lost, ReapFind(late));
    ls, lost := Continues(c, ls, lost, ReapReset(Scan(late, true), late));
  }

  /** So fencing by name fails for every setting: from a reachable state in which
      it is fenced, the old attempt's heartbeat extends the row once its name is
      back, with no loss reported. */
  lemma SameNameDefeatsFencing(c: Settings) returns (ls: seq<Label>, lost: State, ls': seq<Label>, again: State)
    ensures Ends(c, ls, lost) && At(lost, 0) && Fenced(lost, 0)
    ensures Ends(c, ls', again) && Enabled(again, Beat(0, again.now)) && |again.attempts| == 2
    ensures var e := Do(c, again, Beat(0, again.now));
            e.row != again.row && OwnedBy(e.row, again.attempts[1].worker) && e.attempts[0].hb.Beating?
  {
    ls, lost := LosesRow(c);
    ls', again := Continues(c, ls, lost, PollOnRedisError("a"));
    ReturningNameRevives(c, again, 0, lost.now - 1, lost.now);
    ls', again := Continues(c, ls', again, TryAcquire("a", lost.now - 1));
  }
}

/**
 What it means that a statement on the table is a step of the protocol, and that
 a table whose statements are the steps of a run goes through that run's rows.
 */
module TableProtocol {
  import opened Options
  import opened RunRow
  import opened LeaseProtocol
  import opened LeaseInvariants
  import opened LeaseExclusion
  import opened LeaseFencing

  /** If an attempt takes the step, it is one of worker w. */
  predicate ByWorker(s: State, l: Label, w: Worker) {
    match Subject(l)
    case None => true
    case Some(i) => At(s, i) && s.attempts[i].worker == w
  }

  /** In every protocol state with row `before` where w can take step l, the step
      leaves row `after`. */
  ghost predicate Realises(c: Settings, l: Label, w: Worker, before: Row, after: Row) {
    forall s: State :: s.row == before && Enabled(s, l) && ByWorker(s, l, w) ==> Do(c, s, l).row == after
  }

  /** The row after a charge. */
  function AfterCharge(c: Settings, r: Row): Row {
    if RetryCount(r) + 1 > c.maxRetries then r else Charged(r, RetryCount(r) + 1)
  }

  /** Reading the count and committing the charge, as two steps of the protocol. */
  ghost predicate RealisesCharge(c: Settings, before: Row, after: Row) {
    && (forall w :: Realises(c, ChargeRead, w, before, before))
    && forall w :: Realises(c, ChargeCommit(RetryCount(before)), w, before, after)
  }

  lemma ChargeIsRealised(c: Settings, r: Row)
    ensures RealisesCharge(c, r, AfterCharge(c, r))
  {
    CommitIsRealised(c, r, RetryCount(r));
  }

  lemma CommitIsRealised(c: Settings, r: Row, n: nat)
    requires n == RetryCount(r)
    ensures forall w :: Realises(c, ChargeCommit(n), w, r, AfterCharge(c, r))
  {
  }

  /** `held` says of a heartbeat query what the protocol's beat reports. */
  ghost predicate ReportsLikeBeat(c: Settings, w: Worker, now: Time, before: Row, held: bool) {
    forall s: State, i: nat :: s.row == before && Enabled(s, Beat(i, now)) && ByWorker(s, Beat(i, now), w) ==>
      (held <==> Do(c, s, Beat(i, now)).attempts[i].hb.Beating?)
  }

  /** The steps that commit this status without any guard. */
  predicate WritesStatus(l: Label, st: Status) {
    (l.WriteRunning? && st.Running?) || (l.Finalize? && l.status == st) || (l.ApiInterrupt? && st.Interrupted?)
  }

  /** rows[k] is the row after k statements, each of which is the next step of the run. */
  ghost predicate Traces(c: Settings, s: State, ls: seq<Label>, rows: seq<Row>)
    requires Valid(c, s, ls)
    decreases |ls|
  {
    && |rows| == |ls| + 1
    && (ls != [] ==>
          && (forall w: Worker :: ByWorker(s, ls[0], w) ==> Realises(c, ls[0], w, rows[0], rows[1]))
          && Traces(c, Do(c, s, ls[0]), ls[1..], rows[1..]))
  }

  /** Such a table holds, after every statement, the row of the run. */
  lemma {:induction false} TableFollowsRun(c: Settings, s: State, ls: seq<Label>, rows: seq<Row>, k: nat)
    requires Valid(c, s, ls) && Traces(c, s, ls, rows) && rows[0] == s.row && k <= |ls|
    ensures Valid(c, s, ls[..k]) && rows[k] == Exec(c, s, ls[..k]).row
    decreases |ls|
  {
    if k > 0 {
      assert ls[..k][1..] == ls[1..][..k - 1];
      FirstStatement(c, s, ls[0], rows[0], rows[1]);
      TableFollowsRun(c, Do(c, s, ls[0]), ls[1..], rows[1..], k - 1);
    }
  }

  lemma FirstStatement(c: Settings, s: State, l: Label, before: Row, after: Row)
    requires Enabled(s, l) && s.row == before
    requires forall w: Worker :: ByWorker(s, l, w) ==> Realises(c, l, w, before, after)
    ensures Do(c, s, l).row == after
  {
    var w := if Subject(l).Some? then s.attempts[Subject(l).value].worker else "";
    assert ByWorker(s, l, w);
  }

  /** So the protocol's theorems are about the table: here, that the row of a
      terminal run without a live attempt never leaves its terminal statuses. */
  lemma TerminalRowStaysTerminal(c: Settings, s: State, ls: seq<Label>, rows: seq<Row>, k: nat)
    requires Valid(c, s, ls) && Traces(c, s, ls, rows) && rows[0] == s.row && k <= |ls|
    requires Terminal(s.row.status) && Quiescent(s)
    ensures Terminal(rows[k].status)
  {
    TableFollowsRun(c, s, ls, rows, k);
    TerminalAbsorbs(c, s, ls[..k]);
  }

  lemma {:induction false} TimelyPrefix(c: Settings, k: nat, s: State, ls: seq<Label>, n: nat)
    requires Valid(c, s, ls) && TimelyRun(c, k, s, ls) && n <= |ls| && Valid(c, s, ls[..n])
    ensures TimelyRun(c, k, s, ls[..n])
    decreases |ls|
  {
    if n > 0 {
      assert ls[..n][1..] == ls[1..][..n - 1];
      TimelyPrefix(c, k, Do(c, s, ls[0]), ls[1..], n - 1);
    }
  }

  /** And that the reset, whose WHERE clause asks for an expired row, never
      matches the row of a live attempt whose heartbeats are punctual. */
  lemma LiveRowIsNotExpired(
      c: Settings, k: nat, s: State, ls: seq<Label>, rows: seq<Row>, n: nat, i: nat, stamp: Time)
    requires k * c.heartbeat <= c.lease
    requires Run(c, s, ls) && TimelyRun(c, k, s, ls) && Traces(c, s, ls, rows) && rows[0] == s.row
    requires n <= |ls| && Valid(c, s, ls[..n])
    requires var e := Exec(c, s, ls[..n]); At(e, i) && Live(e.attempts[i]) && stamp <= e.now
    ensures !Expired(rows[n], stamp)
  {
    TableFollowsRun(c, s, ls, rows, n);
    TimelyPrefix(c, k, s, ls, n);
    TimelyRunKeepsGuarded(c, k, s, ls[..n]);
    assert GuardedAt(c, Exec(c, s, ls[..n]), i);
  }
}

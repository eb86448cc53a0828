/**
 How often a run can be acquired: exactly when at most BG_JOB_MAX_RETRIES + 1
 times, over all interleavings of any number of reapers, and two ways of working
 that ensure it: patient workers, and reaper passes that are not interrupted.
 */
module RetryBudget {
  import opened Options
  import opened RunRow
  import opened LeaseProtocol
  import opened LeaseInvariants
  import opened LeaseExclusion

  function Budget(c: Settings): nat {
    if c.maxRetries < 0 then 0 else c.maxRetries
  }

  // ------------------------------------------------------ patient workers

  /** A reset whose charge or failure mark is still to come. */
  predicate Outstanding(s: State) {
    s.uncharged > 0 || s.counts != multiset{} || s.unmarked > 0
  }

  /** The step acquires the run although a reset of it is not settled. */
  predicate Hasty(s: State, l: Label) {
    l.TryAcquire? && Acquirable(s.row) && Outstanding(s)
  }

  predicate Patient(c: Settings, s: State, ls: seq<Label>)
    requires Valid(c, s, ls)
    decreases |ls|
  {
    ls == [] || (!Hasty(s, ls[0]) && Patient(c, Do(c, s, ls[0]), ls[1..]))
  }

  /** The only open charge has read the current count. */
  ghost predicate OneCharge(s: State) {
    && s.uncharged + |s.counts| + s.unmarked <= 1
    && (s.counts == multiset{} || s.counts == multiset{RetryCount(s.row)})
    && s.charged == RetryCount(s.row)
  }

  /** While a charge is outstanding, and once the budget is spent, the row is
      free and the acquisitions so far are paid for. */
  ghost predicate PaidFor(s: State) {
    && (Outstanding(s) ==> s.row.claimedBy.None? && |s.attempts| <= s.resets)
    && (s.exhausted > 0 ==>
          && s.exhausted == 1 && s.uncharged == 0 && s.counts == multiset{}
          && s.row.claimedBy.None? && |s.attempts| <= s.resets
          && (s.row.status.Pending? ==> s.unmarked == 1))
  }

  ghost predicate WithinBudget(c: Settings, s: State) {
    OneCharge(s) && PaidFor(s) && RetryCount(s.row) <= Budget(c)
  }

  lemma ChargeKeepsBudget(c: Settings, s: State, l: Label)
    requires Sound(s) && WithinBudget(c, s) && Enabled(s, l) && (l.ChargeRead? || l.ChargeCommit?)
    ensures WithinBudget(c, Do(c, s, l))
  {
    if l.ChargeCommit? {
      assert s.counts - multiset{l.n} == multiset{};
    }
  }

  lemma ReaperKeepsBudget(c: Settings, s: State, l: Label)
    requires Sound(s) && WithinBudget(c, s) && Enabled(s, l) && ReaperLabel(l) && !l.ChargeRead? && !l.ChargeCommit?
    ensures WithinBudget(c, Do(c, s, l))
  {
  }

  lemma AcquireKeepsBudget(c: Settings, s: State, l: Label)
    requires Sound(s) && WithinBudget(c, s) && Enabled(s, l) && l.TryAcquire? && !Hasty(s, l)
    ensures WithinBudget(c, Do(c, s, l))
  {
  }

  /** All other steps leave the accounts alone and give no row away. */
  predicate SameAccounts(s: State, s': State) {
    && s'.uncharged == s.uncharged && s'.counts == s.counts && s'.unmarked == s.unmarked
    && s'.exhausted == s.exhausted && s'.resets == s.resets && s'.charged == s.charged
    && |s'.attempts| == |s.attempts| && RetryCount(s'.row) == RetryCount(s.row)
  }

  lemma OthersKeepAccounts(c: Settings, s: State, l: Label)
    requires Enabled(s, l) && !ReaperLabel(l) && !l.TryAcquire?
    ensures SameAccounts(s, Do(c, s, l))
  {
  }

  lemma OthersKeepRowFree(c: Settings, s: State, l: Label)
    requires Enabled(s, l) && !ReaperLabel(l) && !l.TryAcquire? && s.row.claimedBy.None?
    ensures Do(c, s, l).row.claimedBy.None?
    ensures Do(c, s, l).row.status.Pending? ==> s.row.status.Pending?
  {
  }

  lemma WorkerKeepsBudget(c: Settings, s: State, l: Label)
    requires Sound(s) && WithinBudget(c, s) && Enabled(s, l) && !ReaperLabel(l) && !Hasty(s, l)
    ensures WithinBudget(c, Do(c, s, l))
  {
    if l.TryAcquire? {
      AcquireKeepsBudget(c, s, l);
    } else {
      OthersKeepAccounts(c, s, l);
      var s' := Do(c, s, l);
      if s.row.claimedBy.None? {
        OthersKeepRowFree(c, s, l);
      }
      SameAccountsKeepBudget(c, s, s');
    }
  }

  lemma SameAccountsKeepBudget(c: Settings, s: State, s': State)
    requires WithinBudget(c, s) && SameAccounts(s, s')
    requires s.row.claimedBy.None? ==> s'.row.claimedBy.None? && (s'.row.status.Pending? ==> s.row.status.Pending?)
    ensures WithinBudget(c, s')
  {
  }

  lemma {:induction false} PatientRunKeepsBudget(c: Settings, s: State, ls: seq<Label>)
    requires Sound(s) && WithinBudget(c, s) && Valid(c, s, ls) && Patient(c, s, ls)
    ensures Sound(Exec(c, s, ls)) && WithinBudget(c, Exec(c, s, ls))
    decreases |ls|
  {
    if ls != [] {
      StepKeepsSound(c, s, ls[0]);
      if ls[0].ChargeRead? || ls[0].ChargeCommit? {
        ChargeKeepsBudget(c, s, ls[0]);
      } else if ReaperLabel(ls[0]) {
        ReaperKeepsBudget(c, s, ls[0]);
      } else {
        WorkerKeepsBudget(c, s, ls[0]);
      }
      PatientRunKeepsBudget(c, Do(c, s, ls[0]), ls[1..]);
    }
  }

  // ----------------------------------------------- the exact condition

  /** Resets that the stored count does not show: their charges were overwritten,
      found the budget spent, or are still in flight. */
  function Hidden(s: State): int {
    (s.charged - RetryCount(s.row)) + s.exhausted + |s.counts| + s.uncharged
  }

  /** The step acquires the run although stored and hidden resets together exceed
      the budget. */
  predicate Overdraws(c: Settings, s: State, l: Label) {
    l.TryAcquire? && Acquirable(s.row) && RetryCount(s.row) + Hidden(s) > Budget(c)
  }

  predicate NoOverdraft(c: Settings, s: State, ls: seq<Label>)
    requires Valid(c, s, ls)
    decreases |ls|
  {
    ls == [] || (!Overdraws(c, s, ls[0]) && NoOverdraft(c, Do(c, s, ls[0]), ls[1..]))
  }

  lemma OnlyAcquireAddsAttempt(c: Settings, s: State, l: Label)
    requires Enabled(s, l)
    ensures |Do(c, s, l).attempts| == |s.attempts| + if l.TryAcquire? && Acquirable(s.row) then 1 else 0
  {
  }

  /** A step goes beyond the bound exactly when it overdraws. */
  lemma OverdrawsIff(c: Settings, s: State, l: Label)
    requires Sound(s) && Enabled(s, l) && |s.attempts| <= Budget(c) + 1
    ensures |Do(c, s, l).attempts| <= Budget(c) + 1 <==> !Overdraws(c, s, l)
  {
    OnlyAcquireAddsAttempt(c, s, l);
  }

  lemma {:induction false} WithinBudgetFrom(c: Settings, s: State, ls: seq<Label>)
    requires Sound(s) && |s.attempts| <= Budget(c) + 1 && Valid(c, s, ls)
    ensures |Exec(c, s, ls).attempts| <= Budget(c) + 1 <==> NoOverdraft(c, s, ls)
    decreases |ls|
  {
    if ls != [] {
      var s' := Do(c, s, ls[0]);
      OverdrawsIff(c, s, ls[0]);
      if Overdraws(c, s, ls[0]) {
        AttemptsGrow(c, s', ls[1..]);
      } else {
        StepKeepsSound(c, s, ls[0]);
        WithinBudgetFrom(c, s', ls[1..]);
      }
    }
  }

  /** The retry budget, transaction by transaction, for any number of concurrent
      reapers and whatever overlaps: a run is acquired at most
      BG_JOB_MAX_RETRIES + 1 times if and only if no acquisition of it overdraws. */
  lemma AcquiredWithinBudgetIff(c: Settings, s: State, ls: seq<Label>)
    requires Run(c, s, ls)
    ensures |Exec(c, s, ls).attempts| <= Budget(c) + 1 <==> NoOverdraft(c, s, ls)
  {
    WithinBudgetFrom(c, s, ls);
  }

  lemma {:induction false} PatientNeverOverdraws(c: Settings, s: State, ls: seq<Label>)
    requires Sound(s) && WithinBudget(c, s) && Valid(c, s, ls) && Patient(c, s, ls)
    ensures NoOverdraft(c, s, ls)
    decreases |ls|
  {
    if ls != [] {
      assert Valid(c, s, [ls[0]]) && Exec(c, s, [ls[0]]) == Do(c, s, ls[0]) by {
        ExecCons(c, s, ls[0], []);
        assert [ls[0]] + [] == [ls[0]];
      }
      PatientRunKeepsBudget(c, s, [ls[0]]);
      PatientNeverOverdraws(c, Do(c, s, ls[0]), ls[1..]);
    }
  }

  /** Patience, which a worker could practise without a ledger, is enough: if no
      acquisition falls between a reset and the end of its charge, none overdraws. */
  lemma AcquiredWithinBudget(c: Settings, s: State, ls: seq<Label>)
    requires Run(c, s, ls) && Patient(c, s, ls)
    ensures NoOverdraft(c, s, ls) && |Exec(c, s, ls).attempts| <= Budget(c) + 1
  {
    PatientNeverOverdraws(c, s, ls);
    AcquiredWithinBudgetIff(c, s, ls);
  }

  // --------------------------------------------------------- whole passes

  /** A step of the protocol with `_reap` uninterrupted, or any other step. */
  datatype Macro = Step(l: Label) | Reap(stamp: Time)

  /** The transactions one whole pass commits for this run. */
  function ReapSteps(c: Settings, s: State, stamp: Time): seq<Label> {
    if !Expired(s.row, stamp) then [ReapFind(stamp), ReapReset(Scan(stamp, false), stamp)]
    else
      [ReapFind(stamp), ReapReset(Scan(stamp, true), stamp), ChargeRead, ChargeCommit(RetryCount(s.row)),
       if RetryCount(s.row) + 1 > c.maxRetries then MarkFailed else Reenqueue]
  }

  /** What one whole pass does to the row. */
  function ReapRow(c: Settings, r: Row, stamp: Time): Row {
    if !Expired(r, stamp) then r
    else if RetryCount(r) + 1 > c.maxRetries then Failed(r)
    else Charged(Reset(r), RetryCount(r) + 1)
  }

  /** No reaper work is in flight. */
  ghost predicate Settled(s: State) {
    s.scans == multiset{} && s.counts == multiset{} && s.uncharged == 0 && s.unmarked == 0 && s.requeue == 0
  }

  /** The state after one whole pass, in closed form. */
  function Reaped(c: Settings, s: State, stamp: Time): State {
    var t := s.(lastReap := if s.lastReap < stamp then stamp else s.lastReap, row := ReapRow(c, s.row, stamp));
    if !Expired(s.row, stamp) then t
    else if RetryCount(s.row) + 1 > c.maxRetries then t.(resets := s.resets + 1, exhausted := s.exhausted + 1)
    else t.(resets := s.resets + 1, queued := s.queued + 1, charged := s.charged + 1)
  }

  /** The state after one charge that no other overlaps. */
  function ChargedOnce(c: Settings, s: State, n: nat): State {
    var t := s.(uncharged := 0);
    if n + 1 > c.maxRetries then t.(exhausted := s.exhausted + 1, unmarked := s.unmarked + 1)
    else t.(row := Charged(s.row, n + 1), requeue := s.requeue + 1, charged := s.charged + 1)
  }

  lemma ReadAndCommit(c: Settings, s: State, n: nat)
    requires s.uncharged == 1 && s.counts == multiset{} && n == RetryCount(s.row)
    ensures n in Do(c, s, ChargeRead).counts
    ensures Do(c, Do(c, s, ChargeRead), ChargeCommit(n)) == ChargedOnce(c, s, n)
  {
    assert Do(c, s, ChargeRead).counts - multiset{n} == multiset{};
  }

  /** The charging half of a pass, from the committed reset on. */
  lemma ChargePart(c: Settings, s: State, n: nat, last: Label)
    requires s.uncharged == 1 && s.counts == multiset{} && s.unmarked == 0 && s.requeue == 0 && n == RetryCount(s.row)
    requires last == if n + 1 > c.maxRetries then MarkFailed else Reenqueue
    ensures var ls := [ChargeRead] + ([ChargeCommit(n)] + ([last] + []));
            && Valid(c, s, ls)
            && Exec(c, s, ls) ==
               if n + 1 > c.maxRetries then s.(uncharged := 0, exhausted := s.exhausted + 1, row := Failed(s.row))
               else s.(uncharged := 0, row := Charged(s.row, n + 1), queued := s.queued + 1, charged := s.charged + 1)
  {
    ReadAndCommit(c, s, n);
    var s1 := Do(c, s, ChargeRead);
    var s2 := Do(c, s1, ChargeCommit(n));
    ExecCons(c, s2, last, []);
    ExecCons(c, s1, ChargeCommit(n), [last] + []);
    ExecCons(c, s, ChargeRead, [ChargeCommit(n)] + ([last] + []));
  }

  /** The state after the pass's SELECT and UPDATE, its charge still to come. */
  function Scanned(s: State, stamp: Time): State {
    var t := s.(lastReap := if s.lastReap < stamp then stamp else s.lastReap);
    if Expired(s.row, stamp) then t.(row := Reset(s.row), uncharged := s.uncharged + 1, resets := s.resets + 1) else t
  }

  lemma ScanPart(c: Settings, s: State, stamp: Time, rest: seq<Label>)
    requires s.scans == multiset{} && stamp <= s.now && Valid(c, Scanned(s, stamp), rest)
    ensures var ls := [ReapFind(stamp)] + ([ReapReset(Scan(stamp, Expired(s.row, stamp)), stamp)] + rest);
            Valid(c, s, ls) && Exec(c, s, ls) == Exec(c, Scanned(s, stamp), rest)
  {
    var scan := Scan(stamp, Expired(s.row, stamp));
    var s1 := Do(c, s, ReapFind(stamp));
    assert s1.scans - multiset{scan} == s.scans;
    assert Do(c, s1, ReapReset(scan, stamp)) == Scanned(s, stamp);
    ExecCons(c, s1, ReapReset(scan, stamp), rest);
    ExecCons(c, s, ReapFind(stamp), [ReapReset(scan, stamp)] + rest);
  }

  /** Running the pass transaction by transaction gives exactly that state. */
  lemma ReapIsItsTransactions(c: Settings, s: State, stamp: Time)
    requires Settled(s) && stamp <= s.now
    ensures Valid(c, s, ReapSteps(c, s, stamp))
    ensures Exec(c, s, ReapSteps(c, s, stamp)) == Reaped(c, s, stamp)
  {
    var n := RetryCount(s.row);
    if Expired(s.row, stamp) {
      var last := if n + 1 > c.maxRetries then MarkFailed else Reenqueue;
      var rest := [ChargeRead] + ([ChargeCommit(n)] + ([last] + []));
      ChargePart(c, Scanned(s, stamp), n, last);
      ScanPart(c, s, stamp, rest);
      assert ReapSteps(c, s, stamp) == [ReapFind(stamp)] + ([ReapReset(Scan(stamp, true), stamp)] + rest);
    } else {
      ScanPart(c, s, stamp, []);
      assert ReapSteps(c, s, stamp) == [ReapFind(stamp)] + ([ReapReset(Scan(stamp, false), stamp)] + []);
    }
  }

  predicate MacroEnabled(s: State, m: Macro) {
    match m
    case Step(l) => Enabled(s, l) && !ReaperLabel(l)
    case Reap(stamp) => stamp <= s.now
  }

  function MacroDo(c: Settings, s: State, m: Macro): State
    requires MacroEnabled(s, m)
  {
    match m
    case Step(l) => Do(c, s, l)
    case Reap(stamp) => Reaped(c, s, stamp)
  }

  predicate MacroValid(c: Settings, s: State, ms: seq<Macro>)
    decreases |ms|
  {
    ms == [] || (MacroEnabled(s, ms[0]) && MacroValid(c, MacroDo(c, s, ms[0]), ms[1..]))
  }

  function MacroExec(c: Settings, s: State, ms: seq<Macro>): State
    requires MacroValid(c, s, ms)
    decreases |ms|
  {
    if ms == [] then s else MacroExec(c, MacroDo(c, s, ms[0]), ms[1..])
  }

  function Transactions(c: Settings, s: State, m: Macro): seq<Label> {
    match m
    case Step(l) => [l]
    case Reap(stamp) => ReapSteps(c, s, stamp)
  }

  /** The transactions of a whole run. */
  function Flatten(c: Settings, s: State, ms: seq<Macro>): seq<Label>
    requires MacroValid(c, s, ms)
    decreases |ms|
  {
    if ms == [] then [] else Transactions(c, s, ms[0]) + Flatten(c, MacroDo(c, s, ms[0]), ms[1..])
  }

  lemma {:induction false} NoAcquireIsPatient(c: Settings, s: State, ls: seq<Label>)
    requires Valid(c, s, ls) && forall k :: 0 <= k < |ls| ==> !ls[k].TryAcquire?
    ensures Patient(c, s, ls)
    decreases |ls|
  {
    if ls != [] {
      assert !ls[0].TryAcquire?;
      NoAcquireIsPatient(c, Do(c, s, ls[0]), ls[1..]);
    }
  }

  lemma {:induction false} PatientConcat(c: Settings, s: State, a: seq<Label>, b: seq<Label>)
    requires Valid(c, s, a) && Valid(c, s, a + b) && Patient(c, s, a)
    requires Valid(c, Exec(c, s, a), b) && Patient(c, Exec(c, s, a), b)
    ensures Patient(c, s, a + b)
    decreases |a|
  {
    if a == [] {
      assert a + b == b;
    } else {
      assert (a + b)[1..] == a[1..] + b;
      PatientConcat(c, Do(c, s, a[0]), a[1..], b);
    }
  }

  /** One step or one whole pass, from a state without reaper work in flight. */
  lemma MacroStep(c: Settings, s: State, m: Macro)
    requires Settled(s) && MacroEnabled(s, m)
    ensures Settled(MacroDo(c, s, m))
    ensures Valid(c, s, Transactions(c, s, m)) && Exec(c, s, Transactions(c, s, m)) == MacroDo(c, s, m)
    ensures Patient(c, s, Transactions(c, s, m))
  {
    match m {
      case Step(l) =>
        ExecCons(c, s, l, []);
        assert [l] + [] == [l] && [l][1..] == [];
        OtherStepsKeepSettled(c, s, l);
      case Reap(stamp) =>
        ReapIsItsTransactions(c, s, stamp);
        NoAcquireIsPatient(c, s, ReapSteps(c, s, stamp));
    }
  }

  lemma OtherStepsKeepSettled(c: Settings, s: State, l: Label)
    requires Settled(s) && Enabled(s, l) && !ReaperLabel(l)
    ensures Settled(Do(c, s, l))
  {
  }

  /** A run of steps and whole passes is a patient run of transactions. */
  lemma {:induction false} WholePassesArePatient(c: Settings, s: State, ms: seq<Macro>)
    requires Settled(s) && MacroValid(c, s, ms)
    ensures var ls := Flatten(c, s, ms);
            Valid(c, s, ls) && Patient(c, s, ls) && Exec(c, s, ls) == MacroExec(c, s, ms)
    decreases |ms|
  {
    if ms != [] {
      var s', first := MacroDo(c, s, ms[0]), Transactions(c, s, ms[0]);
      MacroStep(c, s, ms[0]);
      WholePassesArePatient(c, s', ms[1..]);
      ExecConcat(c, s, first, Flatten(c, s', ms[1..]));
      PatientConcat(c, s, first, Flatten(c, s', ms[1..]));
    }
  }

  /** In particular with `_reap` as one step. */
  lemma WholePassesStayWithinBudget(c: Settings, s: State, ms: seq<Macro>)
    requires Initial(s) && MacroValid(c, s, ms)
    ensures |MacroExec(c, s, ms).attempts| <= Budget(c) + 1
  {
    WholePassesArePatient(c, s, ms);
    AcquiredWithinBudget(c, s, Flatten(c, s, ms));
  }

  // ---------------------------------------------- what hasty workers can do

  /** A crash of the owner, recovered and charged n - 1 by one pass. */
  lemma CrashAndCharge(c: Settings, k: nat, ls: seq<Label>, e: State, n: nat) returns (ls': seq<Label>, e': State)
    requires 0 <= k * c.heartbeat && 0 <= c.lease
    requires Reaches(c, k, ls, e) && Idle(e) && e.uncharged == 0 && e.counts == multiset{}
    requires e.row.params == Some(n)
    ensures Reaches(c, k, ls', e') && Idle(e') && e'.uncharged == 0 && e'.counts == multiset{}
    ensures |e'.attempts| == |e.attempts| + 1
    ensures e'.row.params == Some(if n < c.maxRetries then n + 1 else n)
    ensures e'.unmarked == e.unmarked + if n < c.maxRetries then 0 else 1
  {
    ls', e' := CrashAndReset(c, k, ls, e, "a");
    ls', e' := ChargeOnce(c, k, ls', e', n);
  }

  lemma ChargeOnce(c: Settings, k: nat, ls: seq<Label>, e: State, n: nat) returns (ls': seq<Label>, e': State)
    requires Reaches(c, k, ls, e) && Idle(e) && e.uncharged == 1 && e.counts == multiset{}
    requires e.row.params == Some(n)
    ensures Reaches(c, k, ls', e') && Idle(e') && e'.uncharged == 0 && e'.counts == multiset{}
    ensures e'.attempts == e.attempts
    ensures e'.row.params == Some(if n < c.maxRetries then n + 1 else n)
    ensures e'.unmarked == e.unmarked + if n < c.maxRetries then 0 else 1
  {
    ls', e' := Then(c, k, ls, e, ChargeRead);
    assert e'.counts == multiset{n};
    ls', e' := Then(c, k, ls', e', ChargeCommit(n));
    assert e'.counts == multiset{};
  }

  /** n crashes, each charged. */
  lemma {:induction false} CrashesWithin(c: Settings, k: nat, n: nat) returns (ls: seq<Label>, e: State)
    requires 0 <= k * c.heartbeat && 0 <= c.lease && n <= Budget(c)
    ensures Reaches(c, k, ls, e) && Idle(e) && e.uncharged == 0 && e.counts == multiset{} && e.unmarked == 0
    ensures |e.attempts| == n && e.row.params == Some(n)
  {
    if n == 0 {
      ls, e := [], Fresh();
    } else {
      ls, e := CrashesWithin(c, k, n - 1);
      ls, e := CrashAndCharge(c, k, ls, e, n - 1);
    }
  }

  /** For every budget there is a timely run that has spent it: the run is
      pending and acquirable, and only the failure mark is outstanding. */
  lemma SpendsBudget(c: Settings, k: nat) returns (ls: seq<Label>, e: State)
    requires 0 <= k * c.heartbeat && 0 <= c.lease
    ensures Reaches(c, k, ls, e) && Idle(e)
    ensures e.unmarked == 1 && e.uncharged == 0 && e.counts == multiset{}
    ensures |e.attempts| == Budget(c) + 1 && e.row.params.Some?
  {
    ls, e := CrashesWithin(c, k, Budget(c));
    ls, e := CrashAndCharge(c, k, ls, e, Budget(c));
  }

  /** Patience is needed at the last acquisition already: whatever the budget,
      acquiring before the outstanding failure mark lands exceeds it. */
  lemma HastyAcquisitionExceedsBudget(c: Settings, k: nat) returns (ls: seq<Label>, e: State)
    requires 0 <= k * c.heartbeat && 0 <= c.lease
    ensures Reaches(c, k, ls, e) && e.unmarked == 1 && |e.attempts| == Budget(c) + 2
  {
    ls, e := SpendsBudget(c, k);
    ls, e := Acquires(c, k, ls, e, "b");
  }

  /** It is not necessary: with any retry to spend, a run can be acquired hastily
      without overdrawing. */
  lemma HastyCanBeHarmless(c: Settings, k: nat, w: Worker) returns (ls: seq<Label>, e: State)
    requires 0 <= k * c.heartbeat && 0 <= c.lease && 1 <= c.maxRetries
    ensures Reaches(c, k, ls, e) && Enabled(e, TryAcquire(w, e.now)) && Hasty(e, TryAcquire(w, e.now))
    ensures !Overdraws(c, e, TryAcquire(w, e.now)) && |e.attempts| == 1
  {
    ls, e := CrashAndReset(c, k, [], Fresh(), "a");
    ls, e := Then(c, k, ls, e, PollOnRedisError(w));
  }

  /** And if reapers die between a pass's reset and its charge, a run can be
      acquired any number of times, at no charge. */
  lemma {:induction false} UnchargedResetsAreUnbounded(c: Settings, k: nat, n: nat) returns (ls: seq<Label>, e: State)
    requires 0 <= k * c.heartbeat && 0 <= c.lease
    ensures Reaches(c, k, ls, e) && Idle(e) && |e.attempts| == n && RetryCount(e.row) == 0
  {
    if n == 0 {
      ls, e := [], Fresh();
    } else {
      ls, e := UnchargedResetsAreUnbounded(c, k, n - 1);
      ls, e := CrashAndReset(c, k, ls, e, "w");
    }
  }

  /** Two overlapping charges store one: the count is read and written in two
      statements, and the later write repeats the earlier. */
  lemma OverlappingChargesLoseOne(c: Settings, k: nat) returns (ls: seq<Label>, e: State)
    requires 0 <= k * c.heartbeat && 0 <= c.lease && 1 <= c.maxRetries
    ensures Reaches(c, k, ls, e) && e.resets == 2 && e.charged == 2 && RetryCount(e.row) == 1
    ensures e.exhausted == 0 && e.uncharged == 0 && e.counts == multiset{}
  {
    ls, e := CrashAndReset(c, k, [], Fresh(), "a");
    ls, e := CrashAndReset(c, k, ls, e, "b");
    ls, e := TwoChargesRead(c, k, ls, e);
    ls, e := Then(c, k, ls, e, ChargeCommit(0));
    assert e.counts == multiset{0};
    ls, e := Then(c, k, ls, e, ChargeCommit(0));
  }

  lemma TwoChargesRead(c: Settings, k: nat, ls: seq<Label>, e: State) returns (ls': seq<Label>, e': State)
    requires forall i :: 0 <= i < |e.attempts| ==> !Live(e.attempts[i])
    requires Reaches(c, k, ls, e) && e.uncharged == 2 && e.counts == multiset{} && RetryCount(e.row) == 0
    ensures Reaches(c, k, ls', e') && e' == e.(uncharged := 0, counts := multiset{0, 0})
  {
    ls', e' := Then(c, k, ls, e, ChargeRead);
    ls', e' := Then(c, k, ls', e', ChargeRead);
    assert e'.counts == multiset{0, 0};
  }
}

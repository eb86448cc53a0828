/**
 What every interleaving keeps: the shape of the row, the retry accounting, and
 the refinement of the row to a machine that has never heard of the queue.
 */
module LeaseInvariants {
  import opened Options
  import opened RunRow
  import opened LeaseProtocol

  function Flag(b: bool): nat {
    if b then 1 else 0
  }

  /** The claim columns move together, a pending row is free, and a claim always
      belongs to the latest acquisition. */
  ghost predicate RowShape(s: State) {
    && (s.row.status.Pending? ==> s.row.claimedBy.None?)
    && (s.row.claimedBy.None? <==> s.row.leaseExpiresAt.None?)
    && (s.row.claimedBy.Some? ==> |s.attempts| > 0 && s.row.claimedBy.value == s.attempts[|s.attempts| - 1].worker)
  }

  /** Each reset consumed one claim of its own, and each acquisition after the
      first consumed one reset of its own. */
  ghost predicate AcquisitionsMatchResets(s: State) {
    s.resets + Flag(s.row.claimedBy.Some?) <= |s.attempts| <= s.resets + 1 - Flag(s.row.status.Pending?)
  }

  /** Where every reset's charge is: stored, judged exhausted, being committed
      or not yet read. */
  ghost predicate ChargesAccountForResets(s: State) {
    s.resets == s.charged + s.exhausted + |s.counts| + s.uncharged
  }

  ghost predicate StampsPast(s: State) {
    && s.lastReap <= s.now
    && (forall sc :: sc in s.scans ==> sc.stamp <= s.now)
    && (forall i :: 0 <= i < |s.attempts| ==> s.attempts[i].lastBeat <= s.now)
  }

  ghost predicate Sound(s: State) {
    RowShape(s) && AcquisitionsMatchResets(s) && ChargesAccountForResets(s) && StampsPast(s)
  }

  lemma AttemptKeepsRowShape(c: Settings, s: State, l: Label)
    requires RowShape(s) && Enabled(s, l) && Subject(l).Some?
    ensures RowShape(Do(c, s, l))
  {
  }

  lemma StepKeepsRowShape(c: Settings, s: State, l: Label)
    requires RowShape(s) && Enabled(s, l)
    ensures RowShape(Do(c, s, l))
  {
    if Subject(l).Some? {
      AttemptKeepsRowShape(c, s, l);
    }
  }

  lemma AttemptKeepsAcquisitions(c: Settings, s: State, l: Label)
    requires RowShape(s) && AcquisitionsMatchResets(s) && Enabled(s, l) && Subject(l).Some?
    ensures AcquisitionsMatchResets(Do(c, s, l))
  {
  }

  lemma StepKeepsAcquisitions(c: Settings, s: State, l: Label)
    requires RowShape(s) && AcquisitionsMatchResets(s) && Enabled(s, l)
    ensures AcquisitionsMatchResets(Do(c, s, l))
  {
    if Subject(l).Some? {
      AttemptKeepsAcquisitions(c, s, l);
    }
  }

  lemma StepKeepsCharges(c: Settings, s: State, l: Label)
    requires ChargesAccountForResets(s) && Enabled(s, l)
    ensures ChargesAccountForResets(Do(c, s, l))
  {
  }

  lemma StepKeepsStamps(c: Settings, s: State, l: Label)
    requires StampsPast(s) && Enabled(s, l)
    ensures StampsPast(Do(c, s, l))
  {
    var s' := Do(c, s, l);
    forall i | 0 <= i < |s'.attempts| ensures s'.attempts[i].lastBeat <= s'.now {
      BeatIsPast(c, s, l, i);
    }
    forall sc | sc in s'.scans ensures sc.stamp <= s'.now {
      ScanIsPast(c, s, l, sc);
    }
    ClockAndLastReap(c, s, l);
  }

  lemma ClockAndLastReap(c: Settings, s: State, l: Label)
    requires StampsPast(s) && Enabled(s, l)
    ensures Do(c, s, l).lastReap <= Do(c, s, l).now
  {
  }

  lemma BeatIsPast(c: Settings, s: State, l: Label, i: nat)
    requires StampsPast(s) && Enabled(s, l) && At(Do(c, s, l), i)
    ensures Do(c, s, l).attempts[i].lastBeat <= Do(c, s, l).now
  {
    if i < |s.attempts| {
      assert s.attempts[i].lastBeat <= s.now;
      OnlyBeatMovesLastBeat(c, s, l, i);
    } else {
      NewBeatIsPast(c, s, l, i);
    }
  }

  lemma NewBeatIsPast(c: Settings, s: State, l: Label, i: nat)
    requires Enabled(s, l) && At(Do(c, s, l), i) && !At(s, i)
    ensures Do(c, s, l).attempts[i].lastBeat <= Do(c, s, l).now
  {
  }

  lemma OnlyBeatMovesLastBeat(c: Settings, s: State, l: Label, i: nat)
    requires Enabled(s, l) && At(s, i)
    ensures At(Do(c, s, l), i) && s.now <= Do(c, s, l).now
    ensures Do(c, s, l).attempts[i].lastBeat == s.attempts[i].lastBeat || Do(c, s, l).attempts[i].lastBeat <= s.now
  {
    if Subject(l).Some? {
      OwnStepsMoveLastBeat(c, s, l, i);
    }
  }

  lemma OwnStepsMoveLastBeat(c: Settings, s: State, l: Label, i: nat)
    requires Enabled(s, l) && At(s, i) && Subject(l).Some?
    ensures At(Do(c, s, l), i) && s.now <= Do(c, s, l).now
    ensures Do(c, s, l).attempts[i].lastBeat == s.attempts[i].lastBeat || Do(c, s, l).attempts[i].lastBeat <= s.now
  {
  }

  lemma ScanIsPast(c: Settings, s: State, l: Label, sc: Scan)
    requires StampsPast(s) && Enabled(s, l) && sc in Do(c, s, l).scans
    ensures sc.stamp <= Do(c, s, l).now
  {
    assert sc in s.scans || (l.ReapFind? && sc.stamp == l.stamp);
  }

  lemma StepKeepsSound(c: Settings, s: State, l: Label)
    requires Sound(s) && Enabled(s, l)
    ensures Sound(Do(c, s, l))
  {
    StepKeepsRowShape(c, s, l);
    StepKeepsAcquisitions(c, s, l);
    StepKeepsCharges(c, s, l);
    StepKeepsStamps(c, s, l);
  }

  lemma {:induction false} RunKeepsSound(c: Settings, s: State, ls: seq<Label>)
    requires Sound(s) && Valid(c, s, ls)
    ensures Sound(Exec(c, s, ls))
    decreases |ls|
  {
    if ls != [] {
      StepKeepsSound(c, s, ls[0]);
      RunKeepsSound(c, Do(c, s, ls[0]), ls[1..]);
    }
  }

  /** Retry accounting over all interleavings: every acquisition after the first
      is paid for by a charge that was stored, found the budget spent, or is
      still in flight. */
  lemma RetryAccounting(c: Settings, s: State, ls: seq<Label>)
    requires Run(c, s, ls)
    ensures Sound(Exec(c, s, ls))
    ensures var e := Exec(c, s, ls);
            |e.attempts| + Flag(e.row.status.Pending?) <= 1 + e.charged + e.exhausted + |e.counts| + e.uncharged
  {
    RunKeepsSound(c, s, ls);
  }

  // -------------------------------------------- is every charge in the row?

  /** A charge that is stored meets the count it was computed from. */
  predicate ExactCharge(c: Settings, s: State, l: Label) {
    l.ChargeCommit? && l.n + 1 <= c.maxRetries ==> RetryCount(s.row) == l.n
  }

  predicate ExactCharges(c: Settings, s: State, ls: seq<Label>)
    requires Valid(c, s, ls)
    decreases |ls|
  {
    ls == [] || (ExactCharge(c, s, ls[0]) && ExactCharges(c, Do(c, s, ls[0]), ls[1..]))
  }

  /** The stored count never runs ahead of the stored charges, and once it has
      fallen behind no open charge can bring it back. */
  ghost predicate StoredBehind(s: State) {
    && RetryCount(s.row) <= s.charged
    && forall n :: n in s.counts ==> n <= s.charged && (RetryCount(s.row) < s.charged ==> n < s.charged)
  }

  lemma CommitKeepsStoredBehind(c: Settings, s: State, n: nat)
    requires StoredBehind(s) && n in s.counts
    ensures var s' := Do(c, s, ChargeCommit(n));
            && StoredBehind(s')
            && (RetryCount(s'.row) == s'.charged <==>
                  RetryCount(s.row) == s.charged && ExactCharge(c, s, ChargeCommit(n)))
  {
  }

  lemma OnlyChargesTouchCounts(c: Settings, s: State, l: Label)
    requires Enabled(s, l) && !l.ChargeRead? && !l.ChargeCommit?
    ensures var s' := Do(c, s, l);
            s'.counts == s.counts && s'.charged == s.charged && RetryCount(s'.row) == RetryCount(s.row)
  {
    if Subject(l).Some? {
      AttemptsTouchNoCounts(c, s, l);
    }
  }

  lemma AttemptsTouchNoCounts(c: Settings, s: State, l: Label)
    requires Enabled(s, l) && Subject(l).Some?
    ensures var s' := Do(c, s, l);
            s'.counts == s.counts && s'.charged == s.charged && RetryCount(s'.row) == RetryCount(s.row)
  {
  }

  lemma StepKeepsStoredBehind(c: Settings, s: State, l: Label)
    requires StoredBehind(s) && Enabled(s, l)
    ensures StoredBehind(Do(c, s, l))
    ensures RetryCount(Do(c, s, l).row) == Do(c, s, l).charged <==>
              RetryCount(s.row) == s.charged && ExactCharge(c, s, l)
  {
    if l.ChargeCommit? {
      CommitKeepsStoredBehind(c, s, l.n);
    } else if !l.ChargeRead? {
      OnlyChargesTouchCounts(c, s, l);
    }
  }

  lemma {:induction false} RunKeepsStoredBehind(c: Settings, s: State, ls: seq<Label>)
    requires StoredBehind(s) && Valid(c, s, ls)
    ensures StoredBehind(Exec(c, s, ls))
    ensures RetryCount(Exec(c, s, ls).row) == Exec(c, s, ls).charged <==>
              RetryCount(s.row) == s.charged && ExactCharges(c, s, ls)
    decreases |ls|
  {
    if ls != [] {
      StepKeepsStoredBehind(c, s, ls[0]);
      RunKeepsStoredBehind(c, Do(c, s, ls[0]), ls[1..]);
    }
  }

  /** The row's count accounts for all resets, up to what was judged exhausted or
      is in flight, if and only if no charge ever overwrote another; otherwise
      the count is too low for good. */
  lemma CountIsCompleteIff(c: Settings, s: State, ls: seq<Label>)
    requires Run(c, s, ls)
    ensures var e := Exec(c, s, ls);
            && RetryCount(e.row) + e.exhausted + |e.counts| + e.uncharged <= e.resets
            && (RetryCount(e.row) + e.exhausted + |e.counts| + e.uncharged == e.resets <==> ExactCharges(c, s, ls))
  {
    RunKeepsSound(c, s, ls);
    RunKeepsStoredBehind(c, s, ls);
  }

  /** No two charges of this run overlap: a charge is read only when none is open. */
  predicate SerialCharges(c: Settings, s: State, ls: seq<Label>)
    requires Valid(c, s, ls)
    decreases |ls|
  {
    ls == [] || ((ls[0].ChargeRead? ==> s.counts == multiset{}) && SerialCharges(c, Do(c, s, ls[0]), ls[1..]))
  }

  ghost predicate FreshCharge(s: State) {
    s.counts == multiset{} || s.counts == multiset{RetryCount(s.row)}
  }

  lemma StepKeepsFreshCharge(c: Settings, s: State, l: Label)
    requires FreshCharge(s) && Enabled(s, l) && (l.ChargeRead? ==> s.counts == multiset{})
    ensures FreshCharge(Do(c, s, l)) && ExactCharge(c, s, l)
  {
    if l.ChargeCommit? {
      assert s.counts - multiset{l.n} == multiset{};
    } else if l.ChargeRead? {
      assert Do(c, s, l).counts == multiset{RetryCount(s.row)};
    } else {
      OnlyChargesTouchCounts(c, s, l);
    }
  }

  /** Charges one at a time are exact. */
  lemma {:induction false} SerialChargesAreExact(c: Settings, s: State, ls: seq<Label>)
    requires FreshCharge(s) && Valid(c, s, ls) && SerialCharges(c, s, ls)
    ensures ExactCharges(c, s, ls)
    decreases |ls|
  {
    if ls != [] {
      StepKeepsFreshCharge(c, s, ls[0]);
      SerialChargesAreExact(c, Do(c, s, ls[0]), ls[1..]);
    }
  }

  /** With serial charges nothing is lost: every reset is stored, judged
      exhausted, or still in flight. */
  lemma SerialRetryAccounting(c: Settings, s: State, ls: seq<Label>)
    requires Run(c, s, ls) && SerialCharges(c, s, ls)
    ensures var e := Exec(c, s, ls);
            e.resets == RetryCount(e.row) + e.exhausted + |e.counts| + e.uncharged
  {
    SerialChargesAreExact(c, s, ls);
    CountIsCompleteIff(c, s, ls);
  }

  // ---------------------------------------------------------- refinement

  /** The queue-less row machine. */
  datatype RowAct =
    | Claim(w: Worker, until: Time)
    | Extend(w: Worker, until: Time)
    | Drop(w: Worker)
    | Spoil(w: Worker)
    | Expire(at: Time)
    | Charge(count: nat)
    | GiveUp
    | Write(status: Status)

  predicate RowEnabled(r: Row, a: RowAct) {
    match a
    case Claim(_, _) => Acquirable(r)
    case Extend(w, _) => OwnedBy(r, w)
    case Drop(w) => OwnedBy(r, w)
    case Spoil(w) => OwnedBy(r, w)
    case Expire(at) => Expired(r, at)
    case Charge(_) => true
    case GiveUp => true
    case Write(st) => !st.Pending?
  }

  function RowDo(r: Row, a: RowAct): Row
    requires RowEnabled(r, a)
  {
    match a
    case Claim(w, until) => Claimed(r, w, until)
    case Extend(_, until) => Extended(r, until)
    case Drop(_) => Unclaimed(r)
    case Spoil(_) => Failed(r)
    case Expire(_) => Reset(r)
    case Charge(n) => Charged(r, n)
    case GiveUp => Failed(r)
    case Write(st) => r.(status := st)
  }

  /** The row action a protocol step performs, if any. */
  function Act(c: Settings, s: State, l: Label): Option<RowAct>
    requires Enabled(s, l)
  {
    match l
    case TryAcquire(w, stamp) => if Acquirable(s.row) then Some(Claim(w, stamp + c.lease)) else None
    case MissingParams(i) => if OwnedBy(s.row, s.attempts[i].worker) then Some(Spoil(s.attempts[i].worker)) else None
    case WriteRunning(_) => Some(Write(Running))
    case Finalize(_, st) => Some(Write(st))
    case Beat(i, stamp) =>
      if OwnedBy(s.row, s.attempts[i].worker) then Some(Extend(s.attempts[i].worker, stamp + c.lease)) else None
    case Release(i) => if OwnedBy(s.row, s.attempts[i].worker) then Some(Drop(s.attempts[i].worker)) else None
    case ApiInterrupt => Some(Write(Interrupted))
    case ReapReset(scan, stamp) => if scan.found && Expired(s.row, stamp) then Some(Expire(stamp)) else None
    case ChargeCommit(n) => if n + 1 > c.maxRetries then None else Some(Charge(n + 1))
    case MarkFailed => Some(GiveUp)
    case _ => None
  }

  function Acts(c: Settings, s: State, ls: seq<Label>): seq<RowAct>
    requires Valid(c, s, ls)
    decreases |ls|
  {
    if ls == [] then []
    else
      var rest := Acts(c, Do(c, s, ls[0]), ls[1..]);
      match Act(c, s, ls[0])
      case None => rest
      case Some(a) => [a] + rest
  }

  predicate RowRun(r: Row, acts: seq<RowAct>)
    decreases |acts|
  {
    acts == [] || (RowEnabled(r, acts[0]) && RowRun(RowDo(r, acts[0]), acts[1..]))
  }

  function RowEnd(r: Row, acts: seq<RowAct>): Row
    requires RowRun(r, acts)
    decreases |acts|
  {
    if acts == [] then r else RowEnd(RowDo(r, acts[0]), acts[1..])
  }

  lemma StepRefines(c: Settings, s: State, l: Label)
    requires Enabled(s, l)
    ensures match Act(c, s, l)
            case None => Do(c, s, l).row == s.row
            case Some(a) => RowEnabled(s.row, a) && Do(c, s, l).row == RowDo(s.row, a)
  {
  }

  /** The queue is a hint: whatever it holds, loses or repeats, the row goes
      through a run of the queue-less machine. */
  lemma {:induction false} QueueIsAHint(c: Settings, s: State, ls: seq<Label>)
    requires Valid(c, s, ls)
    ensures RowRun(s.row, Acts(c, s, ls))
    ensures RowEnd(s.row, Acts(c, s, ls)) == Exec(c, s, ls).row
    decreases |ls|
  {
    if ls != [] {
      StepRefines(c, s, ls[0]);
      QueueIsAHint(c, Do(c, s, ls[0]), ls[1..]);
    }
  }

  /** Every reachable pending row can still be acquired by any worker, with an
      empty queue, if its BLPOP fails and the poll picks the run. */
  lemma PendingStaysAcquirable(c: Settings, s: State, ls: seq<Label>, w: Worker)
    requires Run(c, s, ls)
    ensures var e := Exec(c, s, ls);
            e.row.status.Pending? ==>
              && Valid(c, e, [PollOnRedisError(w), TryAcquire(w, e.now)])
              && var e' := Exec(c, e, [PollOnRedisError(w), TryAcquire(w, e.now)]);
                 OwnedBy(e'.row, w) && e'.row.status.Running? && |e'.attempts| == |e.attempts| + 1
  {
    RunKeepsSound(c, s, ls);
    var e := Exec(c, s, ls);
    if e.row.status.Pending? {
      var m := Do(c, e, PollOnRedisError(w));
      var e' := Do(c, m, TryAcquire(w, e.now));
      assert [PollOnRedisError(w), TryAcquire(w, e.now)][1..] == [TryAcquire(w, e.now)];
      assert [TryAcquire(w, e.now)][1..] == [];
      assert Valid(c, e', []) && Exec(c, e', []) == e';
      assert Valid(c, m, [TryAcquire(w, e.now)]) && Exec(c, m, [TryAcquire(w, e.now)]) == e';
    }
  }
}

/**
 Column by column, what each step of the protocol does to the row, with guards
 and values written out: a step that is not named keeps the column.
 */
module RowColumns {
  import opened Options
  import opened RunRow
  import opened LeaseProtocol

  /** The acquisition matches a pending, unclaimed row. */
  predicate TakesRow(s: State, l: Label) {
    l.TryAcquire? && s.row.status == Pending && s.row.claimedBy == None
  }

  /** An attempt's step by the worker named in the row. */
  predicate OwnersStep(s: State, l: Label) {
    match Subject(l)
    case None => false
    case Some(i) => At(s, i) && s.row.claimedBy == Some(s.attempts[i].worker)
  }

  /** The reset matches a running row whose lease lies in the past of its stamp. */
  predicate ExpiresRow(s: State, l: Label) {
    && l.ReapReset? && l.scan.found && s.row.status == Running
    && s.row.leaseExpiresAt.Some? && s.row.leaseExpiresAt.value < l.stamp
  }

  lemma StatusLaw(c: Settings, s: State, l: Label)
    requires Enabled(s, l)
    ensures Do(c, s, l).row.status ==
            if TakesRow(s, l) || l.WriteRunning? then Running
            else if l.Finalize? then l.status
            else if l.ApiInterrupt? then Interrupted
            else if ExpiresRow(s, l) then Pending
            else if l.MarkFailed? || (l.MissingParams? && OwnersStep(s, l)) then Error
            else s.row.status
  {
    if Subject(l).Some? {
      AttemptStatusLaw(c, s, l);
    }
  }

  lemma AttemptStatusLaw(c: Settings, s: State, l: Label)
    requires Enabled(s, l) && Subject(l).Some?
    ensures Do(c, s, l).row.status ==
            if l.WriteRunning? then Running
            else if l.Finalize? then l.status
            else if l.MissingParams? && OwnersStep(s, l) then Error
            else s.row.status
  {
  }

  /** The step gives the claim up: both columns become NULL. */
  predicate FreesRow(s: State, l: Label) {
    || ExpiresRow(s, l) || l.MarkFailed?
    || ((l.Release? || l.MissingParams?) && OwnersStep(s, l))
  }

  lemma ClaimLaw(c: Settings, s: State, l: Label)
    requires Enabled(s, l)
    ensures Do(c, s, l).row.claimedBy ==
            if TakesRow(s, l) then Some(l.w) else if FreesRow(s, l) then None else s.row.claimedBy
    ensures Do(c, s, l).row.leaseExpiresAt ==
            if TakesRow(s, l) || (l.Beat? && OwnersStep(s, l)) then Some(l.stamp + c.lease)
            else if FreesRow(s, l) then None
            else s.row.leaseExpiresAt
  {
    if Subject(l).Some? {
      AttemptClaimLaw(c, s, l);
    } else if ReaperLabel(l) {
      ReaperClaimLaw(c, s, l);
    }
  }

  lemma ReaperClaimLaw(c: Settings, s: State, l: Label)
    requires Enabled(s, l) && ReaperLabel(l)
    ensures Do(c, s, l).row.claimedBy == if FreesRow(s, l) then None else s.row.claimedBy
    ensures Do(c, s, l).row.leaseExpiresAt == if FreesRow(s, l) then None else s.row.leaseExpiresAt
  {
  }

  lemma AttemptClaimLaw(c: Settings, s: State, l: Label)
    requires Enabled(s, l) && Subject(l).Some?
    ensures Do(c, s, l).row.claimedBy == if FreesRow(s, l) then None else s.row.claimedBy
    ensures Do(c, s, l).row.leaseExpiresAt ==
            if l.Beat? && OwnersStep(s, l) then Some(l.stamp + c.lease)
            else if FreesRow(s, l) then None
            else s.row.leaseExpiresAt
  {
  }

  lemma ParamsLaw(c: Settings, s: State, l: Label)
    requires Enabled(s, l)
    ensures Do(c, s, l).row.params ==
            if l.ChargeCommit? && l.n + 1 <= c.maxRetries then Some(l.n + 1) else s.row.params
  {
    if Subject(l).Some? {
      AttemptParamsLaw(c, s, l);
    }
  }

  lemma AttemptParamsLaw(c: Settings, s: State, l: Label)
    requires Enabled(s, l) && Subject(l).Some?
    ensures Do(c, s, l).row.params == s.row.params
  {
  }

  /** A charge starts from the stored count, and from zero when there is none. */
  lemma ChargeReadsStoredCount(c: Settings, s: State)
    requires Enabled(s, ChargeRead)
    ensures Do(c, s, ChargeRead).counts == s.counts + multiset{match s.row.params case None => 0 case Some(n) => n}
  {
  }
}

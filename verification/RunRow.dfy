/**
 A row of the `runs` table and the transactions that the worker, the reaper and
 the status writers commit on it.  Each function is the effect of one UPDATE on
 a row its WHERE clause matched; the guards are the WHERE clauses.
 */
module RunRow {
  import opened Options

  type Time = int
  type RunId = string
  type Worker = string

  datatype Status = Pending | Running | Success | Error | Interrupted

  /** `params` is the execution_params column: None for SQL NULL, otherwise the
      stored `_retry_count` (0 when the key is absent). */
  datatype Row = Row(status: Status, claimedBy: Option<Worker>, leaseExpiresAt: Option<Time>, params: Option<nat>)

  predicate Terminal(s: Status) {
    s.Success? || s.Error? || s.Interrupted?
  }

  predicate Acquirable(r: Row) {
    r.status.Pending? && r.claimedBy.None?
  }

  predicate OwnedBy(r: Row, w: Worker) {
    r.claimedBy == Some(w)
  }

  /** SQL comparison with NULL is never true, so an unleased row never expires. */
  predicate Expired(r: Row, now: Time) {
    r.status.Running? && r.leaseExpiresAt.Some? && r.leaseExpiresAt.value < now
  }

  function RetryCount(r: Row): nat {
    match r.params
    case None => 0
    case Some(n) => n
  }

  function Claimed(r: Row, w: Worker, until: Time): Row {
    r.(status := Running, claimedBy := Some(w), leaseExpiresAt := Some(until))
  }

  function Extended(r: Row, until: Time): Row {
    r.(leaseExpiresAt := Some(until))
  }

  function Unclaimed(r: Row): Row {
    r.(claimedBy := None, leaseExpiresAt := None)
  }

  function Reset(r: Row): Row {
    Unclaimed(r).(status := Pending)
  }

  /** Both the retry-exhausted mark and the missing-params mark end here. */
  function Failed(r: Row): Row {
    Unclaimed(r).(status := Error)
  }

  function Charged(r: Row, count: nat): Row {
    r.(params := Some(count))
  }
}

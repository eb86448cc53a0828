/**
 The `runs` table and the job queue as the worker and the reaper update them in
 place: the lease statements, and the reaper pass over all rows.  The row each
 statement leaves is the one the protocol model works with.
 */
module RunTable {
  import opened Options
  import opened RunRow
  import opened LeaseProtocol
  import opened RetryBudget
  import opened TableProtocol

  ghost predicate NoDuplicates(ids: seq<RunId>) {
    forall i, j :: 0 <= i < j < |ids| ==> ids[i] != ids[j]
  }

  lemma AppendKeepsDistinct(ids: seq<RunId>, id: RunId)
    requires NoDuplicates(ids) && id !in ids
    ensures NoDuplicates(ids + [id])
  {
  }

  /** Redis takes the first `failsAt` pushes, or all of them. */
  function Pushed(ids: seq<RunId>, failsAt: Option<nat>): seq<RunId> {
    if failsAt.None? || |ids| <= failsAt.value then ids else ids[..failsAt.value]
  }

  lemma PassPushes(
      toPush: set<RunId>, retryable: seq<RunId>, failsAt: Option<nat>, stuck: seq<RunId>, failsAtStuck: Option<nat>,
      pushed: seq<RunId>)
    requires forall id :: id in toPush <==> id in retryable || id in stuck
    requires pushed == Pushed(retryable, failsAt) + Pushed(stuck, failsAtStuck)
    ensures forall id :: id in pushed ==> id in toPush
    ensures failsAt.None? && failsAtStuck.None? ==> forall id :: id in toPush ==> id in pushed
  {
  }

  /** The `_retry_count` a row holds: 0 when there is none. */
  function StoredCount(r: Row): (n: nat)
    ensures r.params == Some(n) || (r.params == None && n == 0)
  {
    RetryCount(r)
  }

  /** What one uninterrupted pass must leave, column by column. */
  function PassLeaves(c: Settings, r: Row, now: Time): Row {
    if r.status != Running || r.leaseExpiresAt == None || now <= r.leaseExpiresAt.value then r
    else if StoredCount(r) + 1 > c.maxRetries then Row(Error, None, None, r.params)
    else Row(Pending, None, None, Some(StoredCount(r) + 1))
  }

  class Table {
    var rows: map<RunId, Row>
    var queue: seq<RunId>
    const createdAt: map<RunId, Time>
    const c: Settings

    ghost predicate Valid()
      reads this
    {
      rows.Keys <= createdAt.Keys
    }

    predicate IsStuck(id: RunId, now: Time)
      requires id in rows && id in createdAt
      reads this
    {
      Acquirable(rows[id]) && createdAt[id] < now - c.stuckAfter
    }

    constructor (c: Settings, rows: map<RunId, Row>, createdAt: map<RunId, Time>)
      requires rows.Keys <= createdAt.Keys
      ensures Valid() && this.rows == rows && queue == [] && this.c == c
    {
      this.c, this.rows, this.createdAt, queue := c, rows, createdAt, [];
    }

    /** The lease UPDATE and the load that follows it; a claimed row without
        execution_params is failed and its claim given back. */
    method AcquireAndLoad(id: RunId, w: Worker, now: Time) returns (loaded: bool)
      requires Valid()
      modifies this`rows
      ensures Valid()
      ensures var taken := id in old(rows) && old(rows)[id].status == Pending && old(rows)[id].claimedBy == None;
              && (loaded <==> taken && old(rows)[id].params.Some?)
              && rows == if loaded
                         then old(rows)[id := Row(Running, Some(w), Some(now + c.lease), old(rows)[id].params)]
                         else if taken then old(rows)[id := Row(Error, None, None, None)]
                         else old(rows)
      ensures id in old(rows) ==>
                var claimed := if loaded || !Acquirable(old(rows)[id]) then rows[id]
                               else Claimed(old(rows)[id], w, now + c.lease);
                && Realises(c, TryAcquire(w, now), w, old(rows)[id], claimed)
                && (claimed != rows[id] ==> forall i: nat :: Realises(c, MissingParams(i), w, claimed, rows[id]))
    {
      if id !in rows || !Acquirable(rows[id]) {
        return false;
      }
      rows := rows[id := Claimed(rows[id], w, now + c.lease)];
      if rows[id].params.None? {
        if OwnedBy(rows[id], w) {
          rows := rows[id := Failed(rows[id])];
        }
        return false;
      }
      return true;
    }

    /** One heartbeat UPDATE: `held` is whether it matched a row.  It is the beat
        of any attempt of w, and it reports a loss exactly when that beat does. */
    method Heartbeat(id: RunId, w: Worker, now: Time) returns (held: bool)
      requires Valid()
      modifies this`rows
      ensures Valid()
      ensures held <==> id in old(rows) && old(rows)[id].claimedBy == Some(w)
      ensures rows == if held
                      then old(rows)[id := old(rows)[id].(claimedBy := Some(w), leaseExpiresAt := Some(now + c.lease))]
                      else old(rows)
      ensures id in old(rows) ==> forall i: nat :: Realises(c, Beat(i, now), w, old(rows)[id], rows[id])
      ensures id in old(rows) ==> ReportsLikeBeat(c, w, now, old(rows)[id], held)
    {
      held := id in rows && OwnedBy(rows[id], w);
      if held {
        rows := rows[id := Extended(rows[id], now + c.lease)];
      }
    }

    /** The release of any attempt of w. */
    method ReleaseLease(id: RunId, w: Worker)
      requires Valid()
      modifies this`rows
      ensures Valid()
      ensures rows == if id in old(rows) && old(rows)[id].claimedBy == Some(w)
                      then old(rows)[id := Row(old(rows)[id].status, None, None, old(rows)[id].params)]
                      else old(rows)
      ensures id in old(rows) ==> forall i: nat :: Realises(c, Release(i), w, old(rows)[id], rows[id])
    {
      if id in rows && OwnedBy(rows[id], w) {
        rows := rows[id := Unclaimed(rows[id])];
      }
    }

    /** The status write matches on the run id alone: it is the `running` write or
        the final write of any attempt of any worker, or an API interrupt. */
    method WriteStatus(id: RunId, status: Status)
      requires Valid()
      modifies this`rows
      ensures Valid()
      ensures rows == if id in old(rows) then old(rows)[id := old(rows)[id].(status := status)] else old(rows)
      ensures id in old(rows) ==>
                forall l, w :: WritesStatus(l, status) ==> Realises(c, l, w, old(rows)[id], rows[id])
    {
      if id in rows {
        rows := rows[id := rows[id].(status := status)];
      }
    }

    /** Oldest pending unclaimed run, or None. */
    method PollPostgres() returns (r: Option<RunId>)
      requires Valid()
      ensures r.None? <==> forall id :: id in rows ==> !(rows[id].status == Pending && rows[id].claimedBy == None)
      ensures r.Some? ==> r.value in rows && rows[r.value].status == Pending && rows[r.value].claimedBy == None
      ensures r.Some? ==>
                forall id :: id in rows && rows[id].status == Pending && rows[id].claimedBy == None ==>
                  createdAt[r.value] <= createdAt[id]
    {
      r := None;
      var todo := rows.Keys;
      while todo != {}
        invariant todo <= rows.Keys
        invariant r.None? ==> forall id :: id in rows && Acquirable(rows[id]) ==> id in todo
        invariant r.Some? ==> r.value in rows && Acquirable(rows[r.value])
        invariant r.Some? ==>
            forall id :: id in rows && id !in todo && Acquirable(rows[id]) ==> createdAt[r.value] <= createdAt[id]
        decreases todo
      {
        var id :| id in todo;
        todo := todo - {id};
        if Acquirable(rows[id]) && (r.None? || createdAt[id] < createdAt[r.value]) {
          r := Some(id);
        }
      }
    }

    method FindRecoverable(now: Time) returns (crashed: seq<RunId>, stuck: seq<RunId>)
      requires Valid()
      ensures NoDuplicates(crashed) && NoDuplicates(stuck)
      ensures forall id :: id in crashed <==>
                id in rows && rows[id].status == Running
                && rows[id].leaseExpiresAt.Some? && rows[id].leaseExpiresAt.value < now
      ensures forall id :: id in stuck <==>
                id in rows && rows[id].status == Pending && rows[id].claimedBy == None
                && createdAt[id] < now - c.stuckAfter
      ensures forall id, s: State :: id in rows && s.row == rows[id] && s.createdAt == createdAt[id] ==>
                (id in stuck <==> Stuck(c, s, now)) && (id in crashed <==> Expired(s.row, now))
    {
      crashed, stuck := [], [];
      var todo := rows.Keys;
      while todo != {}
        invariant todo <= rows.Keys
        invariant NoDuplicates(crashed) && NoDuplicates(stuck)
        invariant forall id :: id in crashed <==> id in rows && id !in todo && Expired(rows[id], now)
        invariant forall id :: id in stuck <==> id in rows && id !in todo && IsStuck(id, now)
        decreases todo
      {
        var id :| id in todo;
        todo := todo - {id};
        if Expired(rows[id], now) {
          AppendKeepsDistinct(crashed, id);
          crashed := crashed + [id];
        }
        if IsStuck(id, now) {
          AppendKeepsDistinct(stuck, id);
          stuck := stuck + [id];
        }
      }
    }

    /** Re-checks the expiry of each row in the UPDATE itself and returns the rows it reset. */
    method ResetToPending(ids: seq<RunId>, now: Time) returns (reset: seq<RunId>)
      requires Valid()
      modifies this`rows
      ensures Valid() && rows.Keys == old(rows).Keys && NoDuplicates(reset)
      ensures forall id :: id in reset <==>
                id in ids && id in old(rows) && old(rows)[id].status == Running
                && old(rows)[id].leaseExpiresAt.Some? && old(rows)[id].leaseExpiresAt.value < now
      ensures forall id :: id in rows ==>
                rows[id] == if id in reset then Row(Pending, None, None, old(rows)[id].params) else old(rows)[id]
      ensures forall id, stamp, w :: id in ids && id in rows ==>
                Realises(c, ReapReset(Scan(stamp, true), now), w, old(rows)[id], rows[id])
    {
      reset := [];
      for k := 0 to |ids|
        invariant rows.Keys == old(rows).Keys && NoDuplicates(reset)
        invariant forall id :: id in reset <==> id in ids[..k] && id in old(rows) && Expired(old(rows)[id], now)
        invariant forall id :: id in rows ==> rows[id] == if id in reset then Reset(old(rows)[id]) else old(rows)[id]
      {
        var id := ids[k];
        assert ids[..k+1] == ids[..k] + [id];
        if id in rows && Expired(rows[id], now) {
          AppendKeepsDistinct(reset, id);
          rows := rows[id := Reset(rows[id])];
          reset := reset + [id];
        }
      }
      assert ids[..|ids|] == ids;
    }

    /** Charges one retry to each run; a run whose budget is spent is not charged
        but reported, a deleted run is skipped. */
    method CheckRetryLimits(ids: seq<RunId>) returns (retryable: seq<RunId>, exhausted: seq<RunId>)
      requires Valid() && NoDuplicates(ids)
      modifies this`rows
      ensures Valid() && rows.Keys == old(rows).Keys
      ensures forall id :: id in exhausted <==>
                id in ids && id in old(rows) && StoredCount(old(rows)[id]) + 1 > c.maxRetries
      ensures forall id :: id in retryable <==>
                id in ids && id in old(rows) && StoredCount(old(rows)[id]) + 1 <= c.maxRetries
      ensures forall id :: id in rows ==>
                rows[id] == if id in retryable then old(rows)[id].(params := Some(StoredCount(old(rows)[id]) + 1))
                            else old(rows)[id]
      ensures forall id :: id in ids && id in rows ==> RealisesCharge(c, old(rows)[id], rows[id])
    {
      retryable, exhausted := [], [];
      for k := 0 to |ids|
        invariant rows.Keys == old(rows).Keys
        invariant forall id :: id in exhausted <==>
                    id in ids[..k] && id in old(rows) && RetryCount(old(rows)[id]) + 1 > c.maxRetries
        invariant forall id :: id in retryable <==>
                    id in ids[..k] && id in old(rows) && RetryCount(old(rows)[id]) + 1 <= c.maxRetries
        invariant forall id :: id in rows ==>
                    rows[id] == if id in retryable then Charged(old(rows)[id], RetryCount(old(rows)[id]) + 1)
                                else old(rows)[id]
      {
        var id := ids[k];
        assert ids[..k+1] == ids[..k] + [id] && id !in ids[..k];
        if id in rows {
          var count := RetryCount(rows[id]) + 1;
          if count > c.maxRetries {
            exhausted := exhausted + [id];
          } else {
            rows := rows[id := Charged(rows[id], count)];
            retryable := retryable + [id];
          }
        }
      }
      assert ids[..|ids|] == ids;
      forall id | id in ids && id in rows ensures RealisesCharge(c, old(rows)[id], rows[id]) {
        ChargeIsRealised(c, old(rows)[id]);
      }
    }

    method MarkPermanentlyFailed(ids: seq<RunId>)
      requires Valid()
      modifies this`rows
      ensures Valid() && rows.Keys == old(rows).Keys
      ensures forall id :: id in rows ==>
                rows[id] == if id in ids then Row(Error, None, None, old(rows)[id].params) else old(rows)[id]
      ensures forall id, w :: id in ids && id in rows ==> Realises(c, MarkFailed, w, old(rows)[id], rows[id])
    {
      for k := 0 to |ids|
        invariant rows.Keys == old(rows).Keys
        invariant forall id :: id in rows ==>
                    rows[id] == if id in ids[..k] then Failed(old(rows)[id]) else old(rows)[id]
      {
        assert ids[..k+1] == ids[..k] + [ids[k]];
        if ids[k] in rows {
          rows := rows[ids[k] := Failed(rows[ids[k]])];
        }
      }
      assert ids[..|ids|] == ids;
    }

    /** Pushes until Redis fails; the rest is left to the poll. */
    method Reenqueue(ids: seq<RunId>, failsAt: Option<nat>)
      modifies this`queue
      ensures queue == old(queue) + Pushed(ids, failsAt)
      ensures failsAt == None ==> queue == old(queue) + ids
      ensures failsAt.Some? && failsAt.value <= |ids| ==> queue == old(queue) + ids[..failsAt.value]
    {
      var k := 0;
      while k < |ids| && (failsAt.None? || k < failsAt.value)
        invariant 0 <= k <= |ids| && (failsAt.Some? ==> k <= failsAt.value)
        invariant queue == old(queue) + ids[..k]
      {
        assert ids[..k+1] == ids[..k] + [ids[k]];
        queue := queue + [ids[k]];
        k := k + 1;
      }
      assert ids[..|ids|] == ids;
    }

    /** The crashed runs of one pass: reset, charged, then failed or pushed. */
    method RecoverCrashed(crashed: seq<RunId>, now: Time, later: Time, failsAt: Option<nat>)
      returns (retryable: seq<RunId>)
      requires Valid() && now <= later
      requires forall id :: id in crashed <==> id in rows && Expired(rows[id], now)
      modifies this`rows, this`queue
      ensures Valid() && rows.Keys == old(rows).Keys
      ensures forall id :: id in rows ==> rows[id] == ReapRow(c, old(rows)[id], now)
      ensures forall id :: id in retryable <==> id in crashed && RetryCount(old(rows)[id]) + 1 <= c.maxRetries
      ensures queue == old(queue) + Pushed(retryable, failsAt)
    {
      retryable := [];
      if crashed != [] {
        var reset := ResetToPending(crashed, later);
        assert crashed[0] in reset;
        if reset != [] {
          var exhausted;
          retryable, exhausted := CheckRetryLimits(reset);
          if exhausted != [] {
            MarkPermanentlyFailed(exhausted);
          }
          if retryable != [] {
            Reenqueue(retryable, failsAt);
          }
        }
      } else {
        assert forall id :: id in rows ==> id !in crashed;
      }
    }

    /** What a pass at this time should push. */
    predicate ToPush(id: RunId, now: Time)
      requires Valid()
      reads this
    {
      id in rows
      && (IsStuck(id, now) || (Expired(rows[id], now) && RetryCount(rows[id]) + 1 <= c.maxRetries))
    }

    /** One whole pass, uninterrupted: every row becomes what the protocol's
        one-run pass makes of it, and exactly the recovered and the stuck runs
        are pushed, or only such runs when Redis fails on the way.  The re-check
        inside the reset never drops a run here. */
    method Reap(now: Time, later: Time, failsAt: Option<nat>, failsAtStuck: Option<nat>)
      requires Valid() && now <= later
      modifies this`rows, this`queue
      ensures Valid() && rows.Keys == old(rows).Keys
      ensures forall id :: id in rows ==> rows[id] == ReapRow(c, old(rows)[id], now)
      ensures forall id :: id in rows ==> rows[id] == PassLeaves(c, old(rows)[id], now)
      ensures old(queue) <= queue
      ensures forall id :: id in queue[|old(queue)|..] ==> old(ToPush(id, now))
      ensures failsAt.None? && failsAtStuck.None? ==>
                forall id :: old(ToPush(id, now)) ==> id in queue[|old(queue)|..]
    {
      ghost var toPush := set id | id in rows && ToPush(id, now);
      var crashed, stuck := FindRecoverable(now);
      var retryable := RecoverCrashed(crashed, now, later, failsAt);
      if stuck != [] {
        Reenqueue(stuck, failsAtStuck);
      }
      assert queue == old(queue) + Pushed(retryable, failsAt) + Pushed(stuck, failsAtStuck);
      PassPushes(toPush, retryable, failsAt, stuck, failsAtStuck, queue[|old(queue)|..]);
    }
  }
}

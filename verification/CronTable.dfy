/**
 The crons table as the scheduler and the API update it in place: the batched
 claim over all rows, and the writes that end or move a claim.
 */
module CronTable {
  import opened Options
  import opened Cron

  type CronId = string

  predicate Claimable(rows: map<CronId, Row>, id: CronId, now: Time, locked: set<CronId>) {
    id in rows && id !in locked && Due(rows[id], now)
  }

  /** Both rows exist and the first one's occurrence is not the later. */
  predicate NotLater(rows: map<CronId, Row>, a: CronId, b: CronId) {
    a in rows && b in rows && rows[a].nextRun <= rows[b].nextRun
  }

  class Table {
    var rows: map<CronId, Row>
    const hold: int      // CRON_CLAIM_DURATION_SECONDS
    const batch: nat     // CRON_TICK_BATCH_SIZE

    constructor (rows: map<CronId, Row>, hold: int, batch: nat)
      ensures this.rows == rows && this.hold == hold && this.batch == batch
    {
      this.rows, this.hold, this.batch := rows, hold, batch;
    }

    /** The claimable row with the earliest occurrence, among the candidates. */
    method Oldest(candidates: set<CronId>) returns (best: CronId)
      requires candidates != {} && candidates <= rows.Keys
      ensures best in candidates
      ensures forall id :: id in candidates ==> rows[best].nextRun <= rows[id].nextRun
    {
      best :| best in candidates;
      var todo := candidates - {best};
      while todo != {}
        invariant todo <= candidates && best in candidates
        invariant forall id :: id in candidates && id !in todo ==> rows[best].nextRun <= rows[id].nextRun
        decreases todo
      {
        var id :| id in todo;
        todo := todo - {id};
        if rows[id].nextRun < rows[best].nextRun {
          best := id;
        }
      }
    }

    /** Claims up to `batch` due rows that no other poller has locked, earliest
        occurrence first, and returns them as claimed. */
    method GetDueCrons(now: Time, locked: set<CronId>) returns (ids: seq<CronId>)
      modifies this`rows
      ensures |ids| <= batch && forall i, j :: 0 <= i < j < |ids| ==> ids[i] != ids[j]
      ensures forall i :: 0 <= i < |ids| ==> Claimable(old(rows), ids[i], now, locked)
      ensures forall i, j :: 0 <= i < j < |ids| ==> NotLater(old(rows), ids[i], ids[j])
      ensures forall id :: Claimable(old(rows), id, now, locked) && id !in ids ==>
                |ids| == batch && forall i :: 0 <= i < |ids| ==> NotLater(old(rows), ids[i], id)
      ensures forall id :: id in ids ==>
                id in old(rows) && id !in locked && old(rows)[id].enabled && old(rows)[id].nextRun <= now
                && (old(rows)[id].claimedUntil == None || old(rows)[id].claimedUntil.value <= now)
      ensures |ids| < batch ==>
                forall id :: id in old(rows) && id !in locked && old(rows)[id].enabled && old(rows)[id].nextRun <= now
                             && (old(rows)[id].claimedUntil == None || old(rows)[id].claimedUntil.value <= now)
                  ==> id in ids
      ensures rows.Keys == old(rows).Keys
      ensures forall id :: id in rows ==>
                rows[id] == if id in ids then old(rows)[id].(claimedUntil := Some(now + hold)) else old(rows)[id]
    {
      var due := set id | id in rows && Claimable(rows, id, now, locked);
      ids := [];
      while due != {} && |ids| < batch
        invariant rows == old(rows)
        invariant |ids| <= batch && forall i, j :: 0 <= i < j < |ids| ==> ids[i] != ids[j]
        invariant forall i :: 0 <= i < |ids| ==> Claimable(rows, ids[i], now, locked)
        invariant forall id :: Claimable(rows, id, now, locked) && id !in ids ==> id in due
        invariant forall id :: id in due ==> id !in ids && Claimable(rows, id, now, locked)
        invariant forall i, j :: 0 <= i < j < |ids| ==> NotLater(rows, ids[i], ids[j])
        invariant forall id, i :: id in due && 0 <= i < |ids| ==> NotLater(rows, ids[i], id)
        decreases due
      {
        var best := Oldest(due);
        due := due - {best};
        ids := ids + [best];
      }
      ClaimAll(ids, now);
    }

    method ClaimAll(ids: seq<CronId>, now: Time)
      requires forall id :: id in ids ==> id in rows
      modifies this`rows
      ensures rows.Keys == old(rows).Keys
      ensures forall id :: id in rows ==>
                rows[id] == if id in ids then Claimed(old(rows)[id], now + hold) else old(rows)[id]
    {
      for k := 0 to |ids|
        invariant rows.Keys == old(rows).Keys
        invariant forall id :: id in rows ==>
                    rows[id] == if id in ids[..k] then Claimed(old(rows)[id], now + hold) else old(rows)[id]
      {
        assert ids[..k + 1] == ids[..k] + [ids[k]];
        rows := rows[ids[k] := rows[ids[k]].(claimedUntil := Some(now + hold))];
      }
      assert ids[..|ids|] == ids;
    }

    /** The end of _fire_cron: advance when the run was created, otherwise give
        the claim back and leave the occurrence for the next tick. */
    method FinishFiring(id: CronId, runCreated: bool, endTime: Option<Time>, now: Time, next: Time)
      requires now < next
      modifies this`rows
      ensures rows == if id !in old(rows) then old(rows)
                      else if runCreated then old(rows)[id := Advanced(old(rows)[id], endTime, now, next)]
                      else old(rows)[id := old(rows)[id].(claimedUntil := None)]
      ensures id in rows ==> rows[id].claimedUntil == None && rows[id].endTime == old(rows)[id].endTime
      ensures id in rows && rows[id].enabled && runCreated ==> now < rows[id].nextRun
      ensures id in rows && !runCreated ==>
                rows[id].nextRun == old(rows)[id].nextRun && rows[id].enabled == old(rows)[id].enabled
      ensures id in rows && runCreated && (endTime == None || now < endTime.value) ==>
                rows[id].nextRun == next && rows[id].enabled == old(rows)[id].enabled
      ensures id in rows && runCreated && endTime.Some? && endTime.value <= now ==>
                rows[id].nextRun == old(rows)[id].nextRun && !rows[id].enabled
    {
      if id in rows {
        var r := rows[id];
        if !runCreated {
          rows := rows[id := r.(claimedUntil := None)];
        } else if endTime.Some? && now >= endTime.value {
          rows := rows[id := r.(enabled := false, claimedUntil := None)];
        } else {
          rows := rows[id := r.(nextRun := next, claimedUntil := None)];
        }
      }
    }

    /** The API edit of one cron; a missing cron is reported. */
    method UpdateCron(id: CronId, enable: Option<bool>, endTime: Option<Time>, reschedule: bool, now: Time, next: Time)
      returns (found: bool)
      modifies this`rows
      ensures found <==> id in old(rows)
      ensures rows == if found then old(rows)[id := Updated(old(rows)[id], now, enable, endTime, reschedule, next)]
                      else old(rows)
      ensures found ==>
                && rows[id].claimedUntil == old(rows)[id].claimedUntil
                && rows[id].nextRun == EditedOccurrence(old(rows)[id], enable, reschedule, now, next)
                && rows[id].enabled == (if enable == None then old(rows)[id].enabled else enable.value)
                && rows[id].endTime == (if endTime == None then old(rows)[id].endTime else endTime)
    {
      found := id in rows;
      if found {
        var r := rows[id];
        var recompute := reschedule || (enable == Some(true) && r.nextRun <= now);
        if endTime.Some? {
          r := r.(endTime := endTime);
        }
        if enable.Some? {
          r := r.(enabled := enable.value);
        }
        if recompute {
          r := r.(nextRun := next);
        }
        rows := rows[id := r];
      }
    }
  }
}

/**
 The dequeue loop of one worker: a semaphore of N_JOBS_PER_WORKER permits, the
 job tasks it started, and the permit the loop itself may hold.
 */
module WorkerLoop {
  import opened Options
  import RunRow

  /** What the event loop delivers at a suspension point. */
  datatype Event =
    | PermitGranted                       // semaphore.acquire returned
    | Dequeued(id: Option<RunRow.RunId>)  // _dequeue returned
    | DequeueRaised                       // _dequeue raised something other than a cancellation
    | Cancelled                           // the loop task was cancelled
    | StopRequested
    | JobEnded(job: nat)                  // the finally block of a started job ran

  datatype Pc = Waiting | Dequeuing | Exited

  predicate HexRun(s: string, lo: nat, hi: nat)
    requires lo <= hi <= |s|
  {
    forall i :: lo <= i < hi ==> '0' <= s[i] <= '9' || 'a' <= s[i] <= 'f'
  }

  /** Five groups of 8, 4, 4, 4 and 12 lower-case hexadecimal digits joined by hyphens;
      the pattern's `$` also accepts one final newline. */
  predicate IsValidRunId(s: string) {
    && (|s| == 36 || (|s| == 37 && s[36] == '\n'))
    && s[8] == '-' && s[13] == '-' && s[18] == '-' && s[23] == '-'
    && HexRun(s, 0, 8) && HexRun(s, 9, 13) && HexRun(s, 14, 18) && HexRun(s, 19, 23) && HexRun(s, 24, 36)
  }

  predicate LowerHex(s: string, n: nat) {
    |s| == n && forall i :: 0 <= i < n ==> s[i] in "0123456789abcdef"
  }

  lemma HexCut(s: string, lo: nat, hi: nat)
    requires lo <= hi <= |s| && HexRun(s, lo, hi)
    ensures LowerHex(s[lo..hi], hi - lo)
  {
    var t := s[lo..hi];
    forall i | 0 <= i < hi - lo ensures t[i] in "0123456789abcdef" {
      HexChar(t[i]);
    }
  }

  lemma HexChar(c: char)
    requires '0' <= c <= '9' || 'a' <= c <= 'f'
    ensures c in "0123456789abcdef"
  {
    var hex := "0123456789abcdef";
    var k := if c <= '9' then c as int - '0' as int else c as int - 'a' as int + 10;
    assert hex[k] == c;
  }

  lemma CutHex(s: string, lo: nat, hi: nat)
    requires lo <= hi <= |s| && LowerHex(s[lo..hi], hi - lo)
    ensures HexRun(s, lo, hi)
  {
    forall i | lo <= i < hi ensures '0' <= s[i] <= '9' || 'a' <= s[i] <= 'f' {
      assert s[lo..hi][i - lo] == s[i];
    }
  }

  /** The five groups of a printed UUID and the hyphens between them. */
  predicate PrintedUuid(s: string) {
    && |s| >= 36 && s[8] == s[13] == s[18] == s[23] == '-'
    && LowerHex(s[0..8], 8) && LowerHex(s[9..13], 4) && LowerHex(s[14..18], 4) && LowerHex(s[19..23], 4)
    && LowerHex(s[24..36], 12)
  }

  /** The valid run ids are the printed UUIDs, also with a final newline. */
  lemma ValidRunIdIff(s: string)
    ensures IsValidRunId(s) <==> PrintedUuid(s) && (|s| == 36 || s[36..] == "\n")
  {
    if IsValidRunId(s) {
      HexCut(s, 0, 8);
      HexCut(s, 9, 13);
      HexCut(s, 14, 18);
      HexCut(s, 19, 23);
      HexCut(s, 24, 36);
    }
    if PrintedUuid(s) {
      CutHex(s, 0, 8);
      CutHex(s, 9, 13);
      CutHex(s, 14, 18);
      CutHex(s, 19, 23);
      CutHex(s, 24, 36);
    }
  }

  class Worker {
    const limit: nat
    var permits: nat
    var jobs: set<nat>       // started and not yet ended
    var created: nat         // job tasks created so far; their numbers are below it
    var running: bool
    var pc: Pc

    /** Permits held by the loop itself. */
    function Held(): nat
      reads this`pc
    {
      if pc.Dequeuing? then 1 else 0
    }

    /** No permit is lost or invented while the loop runs; a cancellation between
        acquire and hand-over loses at most the one the loop held. */
    ghost predicate Valid()
      reads this
    {
      && (forall j :: j in jobs ==> j < created)
      && (!pc.Exited? ==> permits + |jobs| + Held() == limit)
      && limit - 1 <= permits + |jobs| <= limit
    }

    constructor (nJobs: nat)
      requires nJobs >= 1
      ensures Valid() && limit == permits == nJobs && jobs == {} && running && pc.Waiting?
    {
      limit, permits, jobs, created, running, pc := nJobs, nJobs, {}, 0, true, Waiting;
    }

    /** The loop's reaction to one event. */
    method Step(e: Event)
      requires Valid()
      modifies this
      ensures Valid()
      ensures permits + |jobs| + Held() ==
                old(permits + |jobs| + Held()) - (if e.Cancelled? && old(pc).Dequeuing? then 1 else 0)
      ensures pc.Exited? && !old(pc).Exited? ==> e.Cancelled? || !running
      ensures old(pc).Exited? ==> pc.Exited?
      ensures running <==> old(running) && !e.StopRequested?
      ensures var starts := old(pc).Dequeuing? && e.Dequeued? && e.id.Some? && IsValidRunId(e.id.value);
              && created == old(created) + (if starts then 1 else 0)
              && jobs == (if starts then old(jobs) + {old(created)} else
                          if e.JobEnded? then old(jobs) - {e.job} else old(jobs))
      ensures pc == match e
                    case PermitGranted =>
                      if !old(pc).Waiting? || old(permits) == 0 then old(pc) else if running then Dequeuing else Exited
                    case Dequeued(_) => if old(pc).Dequeuing? then (if running then Waiting else Exited) else old(pc)
                    case DequeueRaised => if old(pc).Dequeuing? then (if running then Waiting else Exited) else old(pc)
                    case Cancelled => Exited
                    case _ => old(pc)
    {
      match e {
        case JobEnded(j) =>
          if j in jobs {
            jobs := jobs - {j};
            permits := permits + 1;
          }
        case StopRequested => running := false;
        case Cancelled => pc := Exited;
        case PermitGranted =>
          if pc.Waiting? && permits > 0 {
            permits := permits - 1;
            if running {
              pc := Dequeuing;
            } else {
              permits := permits + 1;
              pc := Exited;
            }
          }
        case Dequeued(id) =>
          if pc.Dequeuing? {
            if id.None? || !IsValidRunId(id.value) {
              permits := permits + 1;
            } else {
              assert created !in jobs;
              jobs := jobs + {created};
              created := created + 1;
            }
            pc := if running then Waiting else Exited;
          }
        case DequeueRaised =>
          if pc.Dequeuing? {
            permits := permits + 1;
            pc := if running then Waiting else Exited;
          }
      }
    }

    /** Over any schedule the permits are conserved until the loop exits, and no
        more than `limit` jobs ever run at once: `peak` is the largest number seen. */
    method Run(schedule: seq<Event>) returns (peak: nat)
      requires Valid()
      modifies this
      ensures Valid()
      ensures |old(jobs)| <= peak <= limit && |jobs| <= peak
      ensures !pc.Exited? ==> permits + |jobs| + Held() == limit
      ensures !(Cancelled in schedule) && !old(pc).Exited? ==>
                permits + |jobs| + Held() == limit && (pc.Exited? ==> !running)
    {
      peak := |jobs|;
      for k := 0 to |schedule|
        invariant Valid()
        invariant |old(jobs)| <= peak <= limit && |jobs| <= peak
        invariant !(Cancelled in schedule) && !old(pc).Exited? ==>
                    permits + |jobs| + Held() == limit && (pc.Exited? ==> !running)
      {
        assert schedule[k] in schedule;
        Step(schedule[k]);
        if peak < |jobs| {
          peak := |jobs|;
        }
      }
    }
  }

  /** Entering the loop: a non-positive limit is refused. */
  method StartWorker(nJobs: int) returns (w: Worker?)
    ensures w == null <==> nJobs <= 0
    ensures w != null ==>
              && fresh(w) && w.Valid() && w.limit == w.permits == nJobs
              && w.jobs == {} && w.running && w.pc.Waiting?
  {
    if nJobs <= 0 {
      return null;
    }
    w := new Worker(nJobs);
  }
}

/**
 One run under any number of workers, attempts and reapers.

 The state is the run's row, the clock, this run's entries in the job queue,
 the in-memory attempts and the reaper work in flight.  Every committed
 transaction is one step; every asyncio suspension between two of them is a
 point where any other step may happen.
 */
module LeaseProtocol {
  import opened Options
  import opened RunRow

  datatype Settings = Settings(lease: int, heartbeat: int, reaper: int, maxRetries: int, stuckAfter: int)

  /** What an attempt makes visible outside its own memory. */
  datatype Effect = Wrote(status: Status) | EndEvent | BrokerCleanup | DoneKey

  datatype Phase =
    | Loading(missing: bool)     // lease committed, execution_params read with it
    | Starting                   // execute_run entered, `running` not yet written
    | Executing                  // streaming the graph
    | Finalized                  // final status committed, finalize_run not yet returned
    | Handling(failed: bool)     // except branch chosen (cancelled or failed), its finalize not yet committed
    | Tail                       // past the final write: end event, cleanup, done key
    | Silent                     // unwinding from a lease-loss cancellation
    | Releasing                  // execute_run over, lease release outstanding
    | Done
    | Dead                       // process lost

  datatype Heartbeat = Beating | LossSeen | Stopped

  datatype Attempt = Attempt(worker: Worker, phase: Phase, lastBeat: Time, hb: Heartbeat, log: seq<Effect>)

  /** A reaper pass between its SELECT (at `stamp`) and its UPDATE. */
  datatype Scan = Scan(stamp: Time, found: bool)

  /** The other half of a pass, between its SELECT of stuck runs and their push. */
  datatype Sweep = Sweep(stamp: Time, stuck: bool)

  datatype State = State(
    now: Time,
    createdAt: Time,
    row: Row,
    queued: nat,
    hands: multiset<Worker>,       // job tasks holding this run id, acquire not yet tried
    attempts: seq<Attempt>,        // one per acquisition, oldest first
    scans: multiset<Scan>,
    uncharged: nat,                // resets whose retry budget nobody has read yet
    counts: multiset<nat>,         // retry counts read, charge not yet committed
    unmarked: nat,                 // judged exhausted, not yet marked failed
    requeue: nat,                  // judged retryable, not yet pushed
    lastReap: Time,                // SELECT stamp of the latest pass that got past its reset
    sweeps: multiset<Sweep>,
    lastSweep: Time,               // SELECT stamp of the latest pass that got past its push of stuck runs
    resets: nat,                   // history: committed resets
    exhausted: nat,                // history: charges that found the budget spent
    charged: nat,                  // history: charges that stored a retry count
    pushed: nat)                   // history: pushes of this run as stuck

  datatype Label =
    | Tick(to: Time)
    | Enqueue
    | LoseMessage
    | Dequeue(w: Worker)
    | PollOnRedisError(w: Worker)   // the Postgres poll, reached only when BLPOP raised, picked this run
    | TryAcquire(w: Worker, stamp: Time)
    | LoadOk(i: nat)
    | MissingParams(i: nat)
    | WriteRunning(i: nat)
    | EnterHandler(i: nat, failed: bool)
    | HandlerFails(i: nat)
    | Finalize(i: nat, status: Status)
    | LeaveTry(i: nat)
    | Publish(i: nat, effect: Effect)
    | FinishJob(i: nat)
    | Beat(i: nat, stamp: Time)
    | LossCancel(i: nat)
    | Release(i: nat)
    | Crash(i: nat)
    | ApiInterrupt
    | ReapFind(stamp: Time)
    | ReapReset(scan: Scan, stamp: Time)
    | ChargeRead
    | ChargeCommit(n: nat)
    | MarkFailed
    | Reenqueue
    | StuckFind(stamp: Time)
    | StuckPush(sweep: Sweep, up: bool)   // up: Redis takes the push

  predicate Live(a: Attempt) {
    !a.phase.Done? && !a.phase.Dead?
  }

  /** Inside the try body of execute_run. */
  predicate InTry(a: Attempt) {
    a.phase.Starting? || a.phase.Executing? || a.phase.Finalized?
  }

  /** While the job task exists, so does its heartbeat task. */
  predicate JobRunning(a: Attempt) {
    InTry(a) || a.phase.Handling? || a.phase.Tail? || a.phase.Silent?
  }

  predicate Initial(s: State) {
    && s.row.status.Pending? && s.row.claimedBy.None? && s.row.leaseExpiresAt.None? && RetryCount(s.row) == 0
    && s.hands == multiset{} && s.attempts == []
    && s.scans == multiset{} && s.uncharged == 0 && s.counts == multiset{} && s.unmarked == 0 && s.requeue == 0
    && s.lastReap <= s.now && s.sweeps == multiset{} && s.lastSweep <= s.now
    && s.resets == 0 && s.exhausted == 0 && s.charged == 0 && s.pushed == 0
  }

  predicate At(s: State, i: nat) {
    i < |s.attempts|
  }

  /** The attempt whose process takes the step, for the steps an attempt takes. */
  function Subject(l: Label): Option<nat> {
    match l
    case LoadOk(i) => Some(i)
    case MissingParams(i) => Some(i)
    case WriteRunning(i) => Some(i)
    case EnterHandler(i, _) => Some(i)
    case HandlerFails(i) => Some(i)
    case Finalize(i, _) => Some(i)
    case LeaveTry(i) => Some(i)
    case Publish(i, _) => Some(i)
    case FinishJob(i) => Some(i)
    case Beat(i, _) => Some(i)
    case LossCancel(i) => Some(i)
    case Release(i) => Some(i)
    case Crash(i) => Some(i)
    case _ => None
  }

  /** The steps of reaper passes that concern a crashed run. */
  predicate ReaperLabel(l: Label) {
    l.ReapFind? || l.ReapReset? || l.ChargeRead? || l.ChargeCommit? || l.MarkFailed? || l.Reenqueue?
  }

  predicate Enabled(s: State, l: Label) {
    match l
    case Tick(to) => s.now <= to
    case Enqueue => true
    case LoseMessage => s.queued > 0
    case Dequeue(_) => s.queued > 0
    case PollOnRedisError(_) => Acquirable(s.row)
    case TryAcquire(w, stamp) => w in s.hands && stamp <= s.now
    case LoadOk(i) => At(s, i) && s.attempts[i].phase == Loading(false)
    case MissingParams(i) => At(s, i) && s.attempts[i].phase == Loading(true)
    case WriteRunning(i) => At(s, i) && s.attempts[i].phase.Starting?
    case EnterHandler(i, _) => At(s, i) && InTry(s.attempts[i])
    case HandlerFails(i) => At(s, i) && s.attempts[i].phase.Handling?
    case Finalize(i, st) =>
      At(s, i) && (match s.attempts[i].phase
                   case Handling(failed) => st == (if failed then Error else Interrupted)
                   case Executing => st.Success? || st.Interrupted?
                   case _ => false)
    case LeaveTry(i) => At(s, i) && s.attempts[i].phase.Finalized?
    case Publish(i, e) => At(s, i) && s.attempts[i].phase.Tail? && !e.Wrote?
    case FinishJob(i) => At(s, i) && (s.attempts[i].phase.Tail? || s.attempts[i].phase.Silent?)
    case Beat(i, stamp) => At(s, i) && JobRunning(s.attempts[i]) && s.attempts[i].hb.Beating? && stamp <= s.now
    case LossCancel(i) => At(s, i) && JobRunning(s.attempts[i]) && s.attempts[i].hb.LossSeen?
    case Release(i) => At(s, i) && s.attempts[i].phase.Releasing?
    case Crash(i) => At(s, i) && Live(s.attempts[i])
    case ApiInterrupt => true
    case ReapFind(stamp) => stamp <= s.now
    case ReapReset(scan, stamp) => scan in s.scans && scan.stamp <= stamp <= s.now
    case ChargeRead => s.uncharged > 0
    case ChargeCommit(n) => n in s.counts
    case MarkFailed => s.unmarked > 0
    case Reenqueue => s.requeue > 0
    case StuckFind(stamp) => stamp <= s.now
    case StuckPush(sweep, _) => sweep in s.sweeps
  }

  function SetAttempt(s: State, i: nat, a: Attempt): State
    requires At(s, i)
  {
    s.(attempts := s.attempts[i := a])
  }

  /** The phase in which a cancelled job task continues: the handler of the try
      body sees the lease-loss mark and goes silent, a cancellation landing in a
      handler or later only reaches the finally block. */
  function CancelledPhase(p: Phase): Phase {
    match p
    case Starting => Silent
    case Executing => Silent
    case Finalized => Silent
    case Handling(_) => Tail
    case _ => p
  }

  function Do(c: Settings, s: State, l: Label): State
    requires Enabled(s, l)
  {
    match l
    case Tick(to) => s.(now := to)
    case Enqueue => s.(queued := s.queued + 1)
    case LoseMessage => s.(queued := s.queued - 1)
    case Dequeue(w) => s.(queued := s.queued - 1, hands := s.hands + multiset{w})
    case PollOnRedisError(w) => s.(hands := s.hands + multiset{w})
    case TryAcquire(w, stamp) =>
      var t := s.(hands := s.hands - multiset{w});
      if Acquirable(s.row) then
        t.(row := Claimed(s.row, w, stamp + c.lease),
           attempts := s.attempts + [Attempt(w, Loading(s.row.params.None?), stamp, Beating, [])])
      else t
    case LoadOk(i) => SetAttempt(s, i, s.attempts[i].(phase := Starting))
    case MissingParams(i) =>
      var a := s.attempts[i];
      SetAttempt(s, i, a.(phase := Done)).(row := if OwnedBy(s.row, a.worker) then Failed(s.row) else s.row)
    case WriteRunning(i) => WriteStatus(s, i, Running, Executing)
    case EnterHandler(i, failed) => SetAttempt(s, i, s.attempts[i].(phase := Handling(failed)))
    case HandlerFails(i) => SetAttempt(s, i, s.attempts[i].(phase := Tail))
    case Finalize(i, st) => WriteStatus(s, i, st, if s.attempts[i].phase.Executing? then Finalized else Tail)
    case LeaveTry(i) => SetAttempt(s, i, s.attempts[i].(phase := Tail))
    case Publish(i, e) => SetAttempt(s, i, s.attempts[i].(log := s.attempts[i].log + [e]))
    case FinishJob(i) => SetAttempt(s, i, s.attempts[i].(phase := Releasing, hb := Stopped))
    case Beat(i, stamp) =>
      var a := s.attempts[i];
      if OwnedBy(s.row, a.worker) then
        SetAttempt(s, i, a.(lastBeat := stamp)).(row := Extended(s.row, stamp + c.lease))
      else
        SetAttempt(s, i, a.(hb := LossSeen))
    case LossCancel(i) =>
      SetAttempt(s, i, s.attempts[i].(phase := CancelledPhase(s.attempts[i].phase), hb := Stopped))
    case Release(i) =>
      var a := s.attempts[i];
      SetAttempt(s, i, a.(phase := Done)).(row := if OwnedBy(s.row, a.worker) then Unclaimed(s.row) else s.row)
    case Crash(i) => SetAttempt(s, i, s.attempts[i].(phase := Dead))
    case ApiInterrupt => s.(row := s.row.(status := Interrupted))
    case ReapFind(stamp) => s.(scans := s.scans + multiset{Scan(stamp, Expired(s.row, stamp))})
    case ReapReset(scan, stamp) =>
      var t := s.(scans := s.scans - multiset{scan},
                  lastReap := if s.lastReap < scan.stamp then scan.stamp else s.lastReap);
      if scan.found && Expired(s.row, stamp) then
        t.(row := Reset(s.row), uncharged := s.uncharged + 1, resets := s.resets + 1)
      else t
    case ChargeRead => s.(uncharged := s.uncharged - 1, counts := s.counts + multiset{RetryCount(s.row)})
    case ChargeCommit(n) =>
      var t := s.(counts := s.counts - multiset{n});
      if n + 1 > c.maxRetries then
        t.(exhausted := s.exhausted + 1, unmarked := s.unmarked + 1)
      else
        t.(row := Charged(s.row, n + 1), requeue := s.requeue + 1, charged := s.charged + 1)
    case MarkFailed => s.(row := Failed(s.row), unmarked := s.unmarked - 1)
    case Reenqueue => s.(requeue := s.requeue - 1, queued := s.queued + 1)
    case StuckFind(stamp) => s.(sweeps := s.sweeps + multiset{Sweep(stamp, Stuck(c, s, stamp))})
    case StuckPush(sweep, up) =>
      var t := s.(sweeps := s.sweeps - multiset{sweep},
                  lastSweep := if s.lastSweep < sweep.stamp then sweep.stamp else s.lastSweep);
      if sweep.stuck && up then t.(queued := s.queued + 1, pushed := s.pushed + 1) else t
  }

  /** What the second SELECT of a pass looks for. */
  predicate Stuck(c: Settings, s: State, stamp: Time) {
    Acquirable(s.row) && s.createdAt < stamp - c.stuckAfter
  }

  /** The unguarded status write of run_status.py: it matches on the run id alone. */
  function WriteStatus(s: State, i: nat, st: Status, p: Phase): State
    requires At(s, i)
  {
    var a := s.attempts[i];
    SetAttempt(s, i, a.(phase := p, log := a.log + [Wrote(st)])).(row := s.row.(status := st))
  }

  // ---------------------------------------------------------------- runs

  predicate Valid(c: Settings, s: State, ls: seq<Label>)
    decreases |ls|
  {
    ls == [] || (Enabled(s, ls[0]) && Valid(c, Do(c, s, ls[0]), ls[1..]))
  }

  function Exec(c: Settings, s: State, ls: seq<Label>): State
    requires Valid(c, s, ls)
    decreases |ls|
  {
    if ls == [] then s else Exec(c, Do(c, s, ls[0]), ls[1..])
  }

  /** A run that starts in an initial state: its end is a reachable state. */
  predicate Run(c: Settings, s: State, ls: seq<Label>) {
    Initial(s) && Valid(c, s, ls)
  }

  lemma {:induction false} ExecConcat(c: Settings, s: State, a: seq<Label>, b: seq<Label>)
    requires Valid(c, s, a)
    ensures Valid(c, s, a + b) <==> Valid(c, Exec(c, s, a), b)
    ensures Valid(c, s, a + b) ==> Exec(c, s, a + b) == Exec(c, Exec(c, s, a), b)
    decreases |a|
  {
    if a == [] {
      assert a + b == b;
    } else {
      assert (a + b)[1..] == a[1..] + b;
      ExecConcat(c, Do(c, s, a[0]), a[1..], b);
    }
  }

  lemma ExtendRun(c: Settings, s: State, ls: seq<Label>, l: Label)
    requires Valid(c, s, ls) && Enabled(Exec(c, s, ls), l)
    ensures Valid(c, s, ls + [l])
    ensures Exec(c, s, ls + [l]) == Do(c, Exec(c, s, ls), l)
  {
    var e := Exec(c, s, ls);
    assert [l][1..] == [];
    assert Valid(c, e, [l]) && Exec(c, e, [l]) == Do(c, e, l);
    ExecConcat(c, s, ls, [l]);
  }

  lemma ExecCons(c: Settings, s: State, l: Label, ls: seq<Label>)
    requires Enabled(s, l) && Valid(c, Do(c, s, l), ls)
    ensures Valid(c, s, [l] + ls) && Exec(c, s, [l] + ls) == Exec(c, Do(c, s, l), ls)
  {
    assert ([l] + ls)[1..] == ls;
  }

  lemma {:induction false} AttemptsGrow(c: Settings, s: State, ls: seq<Label>)
    requires Valid(c, s, ls)
    ensures |s.attempts| <= |Exec(c, s, ls).attempts|
    decreases |ls|
  {
    if ls != [] {
      AttemptsGrow(c, Do(c, s, ls[0]), ls[1..]);
    }
  }

  // ----------------------------------------------------------- witnesses

  /** The start of every run: pending, unclaimed, nothing in flight. */
  function Fresh(): State {
    State(now := 0, createdAt := 0, row := Row(Pending, None, None, Some(0)), queued := 0, hands := multiset{},
          attempts := [], scans := multiset{}, uncharged := 0, counts := multiset{}, unmarked := 0, requeue := 0,
          lastReap := 0, sweeps := multiset{}, lastSweep := 0, resets := 0, exhausted := 0, charged := 0, pushed := 0)
  }

  /** The run ls from Fresh() ends in e. */
  ghost predicate Ends(c: Settings, ls: seq<Label>, e: State) {
    Run(c, Fresh(), ls) && Exec(c, Fresh(), ls) == e
  }

  lemma Continues(c: Settings, ls: seq<Label>, e: State, l: Label) returns (ls': seq<Label>, e': State)
    requires Ends(c, ls, e) && Enabled(e, l)
    ensures e' == Do(c, e, l) && Ends(c, ls', e')
  {
    ExtendRun(c, Fresh(), ls, l);
    ls', e' := ls + [l], Do(c, e, l);
  }
}

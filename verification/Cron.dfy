/**
 Cron claims: any number of pollers claim a due cron for a fixed duration, fire
 it, and advance or release it, while API edits interleave.
 */
module Cron {
  import opened Options

  type Time = int

  datatype Row = Row(enabled: bool, nextRun: Time, claimedUntil: Option<Time>, endTime: Option<Time>)

  /** A claimed cron in a poller's hands; `endTime` is the snapshot the claim returned. */
  datatype Firing = Firing(stamp: Time, occurrence: Time, endTime: Option<Time>, fired: bool)

  datatype State = State(
    now: Time,
    row: Row,
    lastWrite: Time,               // when the row was last committed
    inFlight: multiset<Firing>,
    fired: seq<Time>,          // history: occurrences of successful firings, in order
    stored: set<Time>)         // history: every value next_run_date has had

  datatype Label =
    | Tick(to: Time)
    | Claim(stamp: Time)                     // get_due_crons, with the tick's `now`
    | Fire(f: Firing)                        // _prepare_run returned
    | Advance(f: Firing, stamp: Time, next: Time)
    | Release(f: Firing)                     // run setup failed
    | Disable(f: Firing)                     // the owner failed the liveness check
    | Crash(f: Firing)
    | Update(enable: Option<bool>, endTime: Option<Time>, reschedule: bool, stamp: Time, next: Time)

  predicate Due(r: Row, stamp: Time) {
    r.enabled && r.nextRun <= stamp && (r.claimedUntil.None? || r.claimedUntil.value <= stamp)
  }

  /** update_cron recomputes on a new schedule or timezone, and on re-enabling a
      cron whose stored occurrence has passed. */
  predicate NeedsRecompute(r: Row, stamp: Time, enable: Option<bool>, reschedule: bool) {
    reschedule || (enable == Some(true) && r.nextRun <= stamp)
  }

  /** `next` is whatever the schedule yields: all that is used is that an
      occurrence lies strictly after the time it is computed from.  An edit reads
      its row with a lock, so its stamp is no older than the row's last write. */
  predicate Enabled(s: State, l: Label) {
    match l
    case Tick(to) => s.now <= to
    case Claim(stamp) => stamp <= s.now && Due(s.row, stamp)
    case Fire(f) => f in s.inFlight && !f.fired
    case Advance(f, stamp, next) => f in s.inFlight && f.fired && f.stamp <= stamp <= s.now && stamp < next
    case Release(f) => f in s.inFlight && !f.fired
    case Disable(f) => f in s.inFlight && !f.fired
    case Crash(f) => f in s.inFlight
    case Update(enable, _, reschedule, stamp, next) =>
      s.lastWrite <= stamp <= s.now && (NeedsRecompute(s.row, stamp, enable, reschedule) ==> stamp < next)
  }

  function Claimed(r: Row, until: Time): Row {
    r.(claimedUntil := Some(until))
  }

  /** advance_next_run: past its end time the cron is disabled and its
      occurrence stays; otherwise it moves on.  Either way the claim is cleared. */
  function Advanced(r: Row, endTime: Option<Time>, stamp: Time, next: Time): Row {
    if endTime.Some? && endTime.value <= stamp then r.(enabled := false, claimedUntil := None)
    else r.(nextRun := next, claimedUntil := None)
  }

  function Updated(
      r: Row, stamp: Time, enable: Option<bool>, endTime: Option<Time>, reschedule: bool, next: Time): Row
  {
    r.(enabled := if enable.Some? then enable.value else r.enabled,
       endTime := if endTime.Some? then endTime else r.endTime,
       nextRun := if NeedsRecompute(r, stamp, enable, reschedule) then next else r.nextRun)
  }

  predicate WritesRow(l: Label) {
    !l.Tick? && !l.Fire? && !l.Crash?
  }

  /** `hold` is CRON_CLAIM_DURATION_SECONDS. */
  function Do(hold: int, s: State, l: Label): State
    requires Enabled(s, l)
  {
    var t :=
      match l
      case Tick(to) => s.(now := to)
      case Claim(stamp) =>
        s.(row := Claimed(s.row, stamp + hold),
           inFlight := s.inFlight + multiset{Firing(stamp, s.row.nextRun, s.row.endTime, false)})
      case Fire(f) =>
        s.(inFlight := s.inFlight - multiset{f} + multiset{f.(fired := true)}, fired := s.fired + [f.occurrence])
      case Advance(f, stamp, next) =>
        s.(inFlight := s.inFlight - multiset{f}, row := Advanced(s.row, f.endTime, stamp, next))
      case Release(f) => s.(inFlight := s.inFlight - multiset{f}, row := s.row.(claimedUntil := None))
      case Disable(f) => s.(inFlight := s.inFlight - multiset{f}, row := s.row.(enabled := false, claimedUntil := None))
      case Crash(f) => s.(inFlight := s.inFlight - multiset{f})
      case Update(enable, endTime, reschedule, stamp, next) =>
        s.(row := Updated(s.row, stamp, enable, endTime, reschedule, next));
    t.(stored := s.stored + {t.row.nextRun}, lastWrite := if WritesRow(l) then s.now else s.lastWrite)
  }

  predicate Valid(hold: int, s: State, ls: seq<Label>)
    decreases |ls|
  {
    ls == [] || (Enabled(s, ls[0]) && Valid(hold, Do(hold, s, ls[0]), ls[1..]))
  }

  function Exec(hold: int, s: State, ls: seq<Label>): State
    requires Valid(hold, s, ls)
    decreases |ls|
  {
    if ls == [] then s else Exec(hold, Do(hold, s, ls[0]), ls[1..])
  }

  predicate Initial(s: State) {
    && s.row.claimedUntil.None? && s.inFlight == multiset{} && s.fired == [] && s.stored == {s.row.nextRun}
    && s.lastWrite <= s.now
  }

  // ------------------------------------------------------- claim spacing

  /** The step clears the claim. */
  predicate Unclaims(l: Label) {
    l.Advance? || l.Release? || l.Disable?
  }

  predicate NoUnclaim(ls: seq<Label>) {
    forall k :: 0 <= k < |ls| ==> !Unclaims(ls[k])
  }

  lemma {:induction false} ClaimOutlasts(hold: int, s: State, ls: seq<Label>, floor: Time)
    requires 0 <= hold && Valid(hold, s, ls) && NoUnclaim(ls)
    requires s.row.claimedUntil.Some? && floor <= s.row.claimedUntil.value
    ensures var e := Exec(hold, s, ls); e.row.claimedUntil.Some? && floor <= e.row.claimedUntil.value
    decreases |ls|
  {
    if ls != [] {
      assert !Unclaims(ls[0]);
      ClaimOutlasts(hold, Do(hold, s, ls[0]), ls[1..], floor);
    }
  }

  /** Two claims without an intervening release are at least the claim duration
      apart, for any number of pollers with stamps taken any time before. */
  lemma ClaimsAreSpaced(hold: int, s: State, first: Time, between: seq<Label>, second: Time)
    requires 0 <= hold && Enabled(s, Claim(first))
    requires Valid(hold, Do(hold, s, Claim(first)), between) && NoUnclaim(between)
    requires Enabled(Exec(hold, Do(hold, s, Claim(first)), between), Claim(second))
    ensures first + hold <= second
  {
    ClaimOutlasts(hold, Do(hold, s, Claim(first)), between, first + hold);
  }

  // ------------------------------------------------- once per occurrence

  /** Every firing in flight is still inside its claim. */
  ghost predicate InsideClaims(hold: int, s: State) {
    forall f :: f in s.inFlight ==> s.now < f.stamp + hold
  }

  ghost predicate TimelyRun(hold: int, s: State, ls: seq<Label>)
    requires Valid(hold, s, ls)
    decreases |ls|
  {
    && InsideClaims(hold, s)
    && (ls != [] ==>
          // a firing that created its run is not abandoned before it advances
          && !(ls[0].Crash? && ls[0].f.fired)
          && TimelyRun(hold, Do(hold, s, ls[0]), ls[1..]))
  }

  predicate Rising(v: seq<Time>) {
    forall i, j :: 0 <= i < j < |v| ==> v[i] < v[j]
  }

  predicate Below(v: seq<Time>, bound: Time) {
    forall i :: 0 <= i < |v| ==> v[i] < bound
  }

  predicate UpTo(v: seq<Time>, bound: Time) {
    forall i :: 0 <= i < |v| ==> v[i] <= bound
  }

  ghost predicate HistorySound(s: State) {
    && Rising(s.fired) && UpTo(s.fired, s.lastWrite) && s.lastWrite <= s.now
    && (forall i :: 0 <= i < |s.fired| ==> s.fired[i] in s.stored)
    && s.row.nextRun in s.stored
  }

  /** A firing in flight holds the claim; what has fired lies below its
      occurrence, or ends with it. */
  predicate FiringSound(hold: int, s: State, f: Firing) {
    && s.row.claimedUntil == Some(f.stamp + hold)
    && f.occurrence <= f.stamp <= s.lastWrite && f.occurrence in s.stored
    && f.occurrence <= s.row.nextRun
    && (if f.fired then |s.fired| > 0 && s.fired[|s.fired| - 1] == f.occurrence else Below(s.fired, f.occurrence))
  }

  /** At most one firing is in flight; with none, an enabled cron's stored
      occurrence lies above everything fired. */
  ghost predicate OncePerOccurrence(hold: int, s: State) {
    && HistorySound(s)
    && |s.inFlight| <= 1
    && (s.inFlight == multiset{} && s.row.enabled ==> Below(s.fired, s.row.nextRun))
    && (forall f :: f in s.inFlight ==> FiringSound(hold, s, f))
  }

  lemma Only(m: multiset<Firing>, f: Firing)
    requires |m| <= 1 && f in m
    ensures m == multiset{f} && m - multiset{f} == multiset{}
  {
    assert |m - multiset{f}| == |m| - 1;
    assert m == m - multiset{f} + multiset{f};
  }

  lemma NothingInFlight(hold: int, s: State, stamp: Time)
    requires OncePerOccurrence(hold, s) && InsideClaims(hold, s) && Enabled(s, Claim(stamp))
    ensures s.inFlight == multiset{}
  {
    forall f ensures f !in s.inFlight {
      if FiringSound(hold, s, f) {
        assert f in s.inFlight ==> s.now < f.stamp + hold;
      }
    }
  }

  lemma ClaimKeepsOnce(hold: int, s: State, stamp: Time)
    requires OncePerOccurrence(hold, s) && InsideClaims(hold, s) && Enabled(s, Claim(stamp))
    ensures OncePerOccurrence(hold, Do(hold, s, Claim(stamp)))
  {
    NothingInFlight(hold, s, stamp);
    var s' := Do(hold, s, Claim(stamp));
    assert s'.inFlight == multiset{Firing(stamp, s.row.nextRun, s.row.endTime, false)};
  }

  lemma FireKeepsOnce(hold: int, s: State, f: Firing)
    requires OncePerOccurrence(hold, s) && Enabled(s, Fire(f))
    ensures OncePerOccurrence(hold, Do(hold, s, Fire(f)))
  {
    Only(s.inFlight, f);
    assert FiringSound(hold, s, f);
    var s' := Do(hold, s, Fire(f));
    assert s'.inFlight == multiset{f.(fired := true)};
  }

  lemma LeaveKeepsOnce(hold: int, s: State, l: Label)
    requires l.Advance? || l.Release? || l.Disable? || (l.Crash? && !l.f.fired)
    requires OncePerOccurrence(hold, s) && Enabled(s, l)
    ensures OncePerOccurrence(hold, Do(hold, s, l))
  {
    Only(s.inFlight, l.f);
    assert FiringSound(hold, s, l.f);
  }

  lemma UpdateKeepsOnce(hold: int, s: State, l: Label)
    requires l.Update? && OncePerOccurrence(hold, s) && Enabled(s, l)
    ensures OncePerOccurrence(hold, Do(hold, s, l))
  {
    var s' := Do(hold, s, l);
    forall f | f in s'.inFlight ensures FiringSound(hold, s', f) {
      assert FiringSound(hold, s, f);
    }
  }

  lemma StepKeepsOnce(hold: int, s: State, l: Label)
    requires OncePerOccurrence(hold, s) && InsideClaims(hold, s) && Enabled(s, l) && !(l.Crash? && l.f.fired)
    ensures OncePerOccurrence(hold, Do(hold, s, l))
  {
    match l {
      case Claim(stamp) => ClaimKeepsOnce(hold, s, stamp);
      case Fire(f) => FireKeepsOnce(hold, s, f);
      case Update(_, _, _, _, _) => UpdateKeepsOnce(hold, s, l);
      case Tick(_) =>
        forall f | f in s.inFlight ensures FiringSound(hold, Do(hold, s, l), f) {
          assert FiringSound(hold, s, f);
        }
      case _ => LeaveKeepsOnce(hold, s, l);
    }
  }

  lemma {:induction false} TimelyRunKeepsOnce(hold: int, s: State, ls: seq<Label>)
    requires OncePerOccurrence(hold, s) && Valid(hold, s, ls) && TimelyRun(hold, s, ls)
    ensures OncePerOccurrence(hold, Exec(hold, s, ls))
    decreases |ls|
  {
    if ls != [] {
      StepKeepsOnce(hold, s, ls[0]);
      TimelyRunKeepsOnce(hold, Do(hold, s, ls[0]), ls[1..]);
    }
  }

  function Elements(v: seq<Time>): set<Time> {
    set i | 0 <= i < |v| :: v[i]
  }

  lemma {:induction false} RisingIsInjective(v: seq<Time>)
    requires Rising(v)
    ensures |Elements(v)| == |v|
  {
    if v != [] {
      var init, last := v[..|v| - 1], v[|v| - 1];
      RisingIsInjective(init);
      assert Elements(v) == Elements(init) + {last};
      assert last !in Elements(init);
    }
  }

  function StoredBy(stored: set<Time>, b: Time): set<Time> {
    set t | t in stored && t <= b
  }

  lemma SubsetCardinality(a: set<Time>, b: set<Time>)
    requires a <= b
    ensures |a| <= |b|
  {
    assert b == a + (b - a);
  }

  /** At most once per occurrence: if every firing ends inside its claim, the
      occurrences of successful firings strictly increase, whatever API edits
      interleave, so by any time there were no more firings than occurrences up
      to then that next_run_date ever held. */
  lemma AtMostOncePerOccurrence(hold: int, s: State, ls: seq<Label>)
    requires Initial(s) && Valid(hold, s, ls) && TimelyRun(hold, s, ls)
    ensures Rising(Exec(hold, s, ls).fired)
    ensures |Exec(hold, s, ls).fired| <= |StoredBy(Exec(hold, s, ls).stored, Exec(hold, s, ls).now)|
  {
    TimelyRunKeepsOnce(hold, s, ls);
    var e := Exec(hold, s, ls);
    RisingIsInjective(e.fired);
    SubsetCardinality(Elements(e.fired), StoredBy(e.stored, e.now));
  }

  lemma {:induction false} ExtendRun(hold: int, s: State, ls: seq<Label>, l: Label)
    requires Valid(hold, s, ls) && Enabled(Exec(hold, s, ls), l)
    ensures Valid(hold, s, ls + [l]) && Exec(hold, s, ls + [l]) == Do(hold, Exec(hold, s, ls), l)
    decreases |ls|
  {
    if ls == [] {
      assert ls + [l] == [l] && [l][1..] == [];
      assert Valid(hold, Do(hold, s, l), []);
    } else {
      assert (ls + [l])[1..] == ls[1..] + [l];
      ExtendRun(hold, Do(hold, s, ls[0]), ls[1..], l);
    }
  }

  lemma Then(hold: int, s: State, ls: seq<Label>, e: State, l: Label) returns (ls': seq<Label>, e': State)
    requires Valid(hold, s, ls) && Exec(hold, s, ls) == e && Enabled(e, l)
    ensures ls' == ls + [l] && Valid(hold, s, ls') && Exec(hold, s, ls') == e' && e' == Do(hold, e, l)
  {
    ExtendRun(hold, s, ls, l);
    ls', e' := ls + [l], Do(hold, e, l);
  }

  /** An enabled cron due at 0. */
  function OneDue(): State {
    State(0, Row(true, 0, None, None), 0, multiset{}, [], {0})
  }

  /** Both hypotheses are needed.  A poller that creates the run and dies before
      advancing leaves the occurrence to be fired again after the claim expires. */
  lemma CrashAfterFiringRepeats(hold: nat) returns (s: State, ls: seq<Label>, e: State)
    ensures Initial(s) && Valid(hold, s, ls) && Exec(hold, s, ls) == e && e.fired == [0, 0]
  {
    s := OneDue();
    var f, g := Firing(0, 0, None, false), Firing(hold, 0, None, false);
    ls, e := Then(hold, s, [], s, Claim(0));
    assert e.inFlight == multiset{f};
    ls, e := Then(hold, s, ls, e, Fire(f));
    assert e.inFlight == multiset{f.(fired := true)};
    ls, e := Then(hold, s, ls, e, Crash(f.(fired := true)));
    ls, e := Then(hold, s, ls, e, Tick(hold));
    ls, e := Then(hold, s, ls, e, Claim(hold));
    assert g in e.inFlight;
    ls, e := Then(hold, s, ls, e, Fire(g));
  }

  /** And without any crash: a firing that outlives its claim and a second poller
      fire the same occurrence. */
  lemma SlowFiringRepeats(hold: nat) returns (s: State, ls: seq<Label>, e: State)
    ensures Initial(s) && Valid(hold, s, ls) && Exec(hold, s, ls) == e && e.fired == [0, 0]
    ensures ls == [Claim(0), Tick(hold), Claim(hold),
                   Fire(Firing(0, 0, None, false)), Fire(Firing(hold, 0, None, false))]
  {
    var f, g := Firing(0, 0, None, false), Firing(hold, 0, None, false);
    s, ls, e := ClaimedTwice(hold);
    ls, e := Then(hold, s, ls, e, Fire(f));
    assert g in e.inFlight;
    ls, e := Then(hold, s, ls, e, Fire(g));
  }

  lemma ClaimedTwice(hold: nat) returns (s: State, ls: seq<Label>, e: State)
    ensures Initial(s) && Valid(hold, s, ls) && Exec(hold, s, ls) == e && e.fired == []
    ensures ls == [Claim(0), Tick(hold), Claim(hold)]
    ensures e.inFlight == multiset{Firing(0, 0, None, false), Firing(hold, 0, None, false)}
  {
    s := OneDue();
    ls, e := Then(hold, s, [], s, Claim(0));
    assert e.inFlight == multiset{Firing(0, 0, None, false)};
    ls, e := Then(hold, s, ls, e, Tick(hold));
    ls, e := Then(hold, s, ls, e, Claim(hold));
  }

  // ------------------------------------------------ the exact condition

  /** No firing is on its way, and the stored occurrence lies above everything
      fired: what a poller would have to find when it claims. */
  ghost predicate Clear(s: State) {
    (forall f :: f in s.inFlight ==> f.fired) && Below(s.fired, s.row.nextRun)
  }

  ghost predicate ClaimsClear(hold: int, s: State, ls: seq<Label>)
    requires Valid(hold, s, ls)
    decreases |ls|
  {
    ls == [] || ((ls[0].Claim? ==> Clear(s)) && ClaimsClear(hold, Do(hold, s, ls[0]), ls[1..]))
  }

  /** At most one firing is on its way, and it will fire above the others. */
  ghost predicate InOrder(s: State) {
    && Rising(s.fired)
    && (forall f :: f in s.inFlight && !f.fired ==> s.inFlight[f] == 1 && Below(s.fired, f.occurrence))
    && forall f, g :: f in s.inFlight && g in s.inFlight && !f.fired && !g.fired ==> f == g
  }

  lemma StepKeepsInOrder(hold: int, s: State, l: Label)
    requires InOrder(s) && Enabled(s, l) && (l.Claim? ==> Clear(s))
    ensures InOrder(Do(hold, s, l))
  {
    if l.Fire? {
      var s' := Do(hold, s, l);
      forall h | h in s'.inFlight ensures h.fired {
        assert h == l.f.(fired := true) || h in s.inFlight;
      }
    }
  }

  /** If every claim is taken in a clear state, occurrences fire in strictly
      rising order, with no hypothesis on timing, crashes or edits. */
  lemma {:induction false} ClearClaimsFireInOrder(hold: int, s: State, ls: seq<Label>)
    requires InOrder(s) && Valid(hold, s, ls) && ClaimsClear(hold, s, ls)
    ensures Rising(Exec(hold, s, ls).fired)
    decreases |ls|
  {
    if ls != [] {
      StepKeepsInOrder(hold, s, ls[0]);
      ClearClaimsFireInOrder(hold, Do(hold, s, ls[0]), ls[1..]);
    }
  }

  /** The firing comes too late: its occurrence is not above everything fired. */
  predicate Stale(s: State, f: Firing) {
    Enabled(s, Fire(f)) && !Below(s.fired, f.occurrence)
  }

  lemma StaleFireBreaksOrder(hold: int, s: State, f: Firing)
    requires Stale(s, f)
    ensures !Rising(Do(hold, s, Fire(f)).fired)
  {
    var i :| 0 <= i < |s.fired| && f.occurrence <= s.fired[i];
    var fired := Do(hold, s, Fire(f)).fired;
    assert fired[i] == s.fired[i] && fired[|s.fired|] == f.occurrence;
  }

  /** Of two firings on their way the one with the lower occurrence is stale once
      the other has fired. */
  lemma SecondIsStale(hold: int, s: State, first: Firing, second: Firing)
    requires Enabled(s, Fire(first)) && Enabled(s, Fire(second)) && second.occurrence <= first.occurrence
    requires first == second ==> s.inFlight[first] >= 2
    ensures Stale(Do(hold, s, Fire(first)), second)
  {
    var s' := Do(hold, s, Fire(first));
    assert second in s'.inFlight;
    assert s'.fired[|s.fired|] == first.occurrence;
  }

  /** And any claim taken in a state that is not clear can go wrong with the next
      firings: an occurrence fires again, or after a later one. */
  lemma UnclearClaimRepeats(hold: int, s: State, stamp: Time) returns (ls: seq<Label>)
    requires Enabled(s, Claim(stamp)) && !Clear(s)
    ensures |ls| > 0 && ls[0] == Claim(stamp) && forall k :: 0 < k < |ls| ==> ls[k].Fire?
    ensures Valid(hold, s, ls) && !Rising(Exec(hold, s, ls).fired)
  {
    var e;
    var f := Firing(stamp, s.row.nextRun, s.row.endTime, false);
    ls, e := Then(hold, s, [], s, Claim(stamp));
    if !Below(s.fired, s.row.nextRun) {
      StaleFireBreaksOrder(hold, e, f);
      ls, e := Then(hold, s, ls, e, Fire(f));
    } else {
      var g :| g in s.inFlight && !g.fired;
      if g.occurrence <= f.occurrence {
        ls, e := BothFire(hold, s, ls, e, f, g);
      } else {
        ls, e := BothFire(hold, s, ls, e, g, f);
      }
    }
  }

  lemma BothFire(hold: int, s: State, ls: seq<Label>, e: State, first: Firing, second: Firing)
    returns (ls': seq<Label>, e': State)
    requires Valid(hold, s, ls) && Exec(hold, s, ls) == e
    requires Enabled(e, Fire(first)) && Enabled(e, Fire(second)) && second.occurrence <= first.occurrence
    requires first == second ==> e.inFlight[first] >= 2
    ensures ls' == ls + [Fire(first)] + [Fire(second)]
    ensures Valid(hold, s, ls') && Exec(hold, s, ls') == e' && !Rising(e'.fired)
  {
    SecondIsStale(hold, e, first, second);
    ls', e' := Then(hold, s, ls, e, Fire(first));
    StaleFireBreaksOrder(hold, e', second);
    ls', e' := Then(hold, s, ls', e', Fire(second));
  }

  /** Timely runs claim in clear states only. */
  lemma {:induction false} TimelyRunClaimsClear(hold: int, s: State, ls: seq<Label>)
    requires OncePerOccurrence(hold, s) && Valid(hold, s, ls) && TimelyRun(hold, s, ls)
    ensures ClaimsClear(hold, s, ls)
    decreases |ls|
  {
    if ls != [] {
      if ls[0].Claim? {
        NothingInFlight(hold, s, ls[0].stamp);
      }
      StepKeepsOnce(hold, s, ls[0]);
      TimelyRunClaimsClear(hold, Do(hold, s, ls[0]), ls[1..]);
    }
  }

  // --------------------------------------------------- columns, spelled out

  /** Which crons can be claimed, in columns: whatever the end time. */
  lemma ClaimableIff(s: State, stamp: Time)
    ensures Enabled(s, Claim(stamp)) <==>
              && stamp <= s.now && s.row.enabled && s.row.nextRun <= stamp
              && (s.row.claimedUntil == None || s.row.claimedUntil.value <= stamp)
  {
  }

  /** A due cron fires: from every state with an enabled cron whose occurrence has
      come and whose claim, if any, has lapsed, a poller can claim and fire it. */
  lemma DueCronFires(hold: int, s: State) returns (ls: seq<Label>, e: State)
    requires s.row.enabled && s.row.nextRun <= s.now
    requires s.row.claimedUntil == None || s.row.claimedUntil.value <= s.now
    ensures ls == [Claim(s.now), Fire(Firing(s.now, s.row.nextRun, s.row.endTime, false))]
    ensures Valid(hold, s, ls) && Exec(hold, s, ls) == e
    ensures e.fired == s.fired + [s.row.nextRun] && e.row == s.row.(claimedUntil := Some(s.now + hold))
  {
    ls, e := Then(hold, s, [], s, Claim(s.now));
    ls, e := Then(hold, s, ls, e, Fire(Firing(s.now, s.row.nextRun, s.row.endTime, false)));
  }

  /** And then it moves on: unless its end time has come, it stays enabled, is
      free again and waits for the next occurrence; otherwise it is disabled. */
  lemma FiredCronMovesOn(hold: int, s: State, f: Firing, stamp: Time, next: Time)
    requires f in s.inFlight && f.fired && f.stamp <= stamp <= s.now && stamp < next
    ensures Enabled(s, Advance(f, stamp, next))
    ensures var r := Do(hold, s, Advance(f, stamp, next)).row;
            if f.endTime == None || stamp < f.endTime.value
            then r == Row(s.row.enabled, next, None, s.row.endTime)
            else r == Row(false, s.row.nextRun, None, s.row.endTime)
  {
  }

  /** The occurrence an edit stores: the schedule's next one if the schedule or
      time zone changed, or if it re-enables an overdue cron. */
  function EditedOccurrence(r: Row, enable: Option<bool>, reschedule: bool, stamp: Time, next: Time): Time {
    if reschedule || (enable == Some(true) && r.nextRun <= stamp) then next else r.nextRun
  }

  /** Column by column, what every step does to the row. */
  lemma ColumnLaw(hold: int, s: State, l: Label)
    requires Enabled(s, l)
    ensures var r := Do(hold, s, l).row;
            match l
            case Claim(stamp) => r == Row(s.row.enabled, s.row.nextRun, Some(stamp + hold), s.row.endTime)
            case Advance(f, stamp, next) =>
              if f.endTime == None || stamp < f.endTime.value
              then r == Row(s.row.enabled, next, None, s.row.endTime)
              else r == Row(false, s.row.nextRun, None, s.row.endTime)
            case Release(_) => r == Row(s.row.enabled, s.row.nextRun, None, s.row.endTime)
            case Disable(_) => r == Row(false, s.row.nextRun, None, s.row.endTime)
            case Update(enable, endTime, reschedule, stamp, next) =>
              r == Row(if enable == None then s.row.enabled else enable.value,
                       EditedOccurrence(s.row, enable, reschedule, stamp, next),
                       s.row.claimedUntil,
                       if endTime == None then s.row.endTime else endTime)
            case _ => r == s.row
  {
  }

  /** A claimed cron whose run cannot be set up is given back as it was, due again
      at once; one whose owner is gone is disabled. */
  lemma ClaimCanEndWithoutFiring(hold: int, s: State, stamp: Time)
    requires Enabled(s, Claim(stamp))
    ensures var f, m := Firing(stamp, s.row.nextRun, s.row.endTime, false), Do(hold, s, Claim(stamp));
            && Enabled(m, Release(f)) && Enabled(m, Disable(f)) && Enabled(m, Crash(f))
            && Do(hold, m, Release(f)).row == s.row.(claimedUntil := None)
            && Do(hold, m, Disable(f)).row == s.row.(claimedUntil := None, enabled := false)
            && Enabled(Do(hold, m, Release(f)), Claim(stamp))
  {
  }

  /** An edit is always possible. */
  lemma CronCanBeEdited(s: State, enable: Option<bool>, endTime: Option<Time>, reschedule: bool, next: Time)
    requires s.lastWrite <= s.now < next
    ensures Enabled(s, Update(enable, endTime, reschedule, s.now, next))
  {
  }
}

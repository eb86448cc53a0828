/**
 The sending loop of stream_run_execution on arbitrary contents: whatever order,
 repetition or numbering the replay buffer and the live queue have.
 */
module StreamLoop {
  import opened Options
  import opened EventLog

  /** The number of arrivals[k] exceeds the starting floor and every number seen before it. */
  ghost predicate Record(parse: string -> int, floor: int, stored: seq<Event>, arrivals: seq<Event>, k: nat)
    requires k < |arrivals|
  {
    && floor < parse(arrivals[k].id)
    && (forall i :: 0 <= i < |stored| ==> parse(stored[i].id) < parse(arrivals[k].id))
    && (forall j :: 0 <= j < k ==> parse(arrivals[j].id) < parse(arrivals[k].id))
  }

  /** The arrivals among the first k that are records, in order. */
  ghost function Records(parse: string -> int, floor: int, stored: seq<Event>, arrivals: seq<Event>, k: nat): seq<Event>
    requires k <= |arrivals|
  {
    if k == 0 then []
    else
      Records(parse, floor, stored, arrivals, k - 1)
      + if Record(parse, floor, stored, arrivals, k - 1) then [arrivals[k - 1]] else []
  }

  lemma {:induction false} RecordsArrived(
      parse: string -> int, floor: int, stored: seq<Event>, arrivals: seq<Event>, k: nat, e: Event)
    requires k <= |arrivals| && e in Records(parse, floor, stored, arrivals, k)
    ensures e in arrivals[..k]
    ensures floor < parse(e.id) && forall j :: 0 <= j < |stored| ==> parse(stored[j].id) < parse(e.id)
  {
    assert arrivals[..k] == arrivals[..k - 1] + [arrivals[k - 1]];
    if e in Records(parse, floor, stored, arrivals, k - 1) {
      RecordsArrived(parse, floor, stored, arrivals, k - 1, e);
    }
  }

  /** No record is left out. */
  lemma {:induction false} RecordIsSent(
      parse: string -> int, floor: int, stored: seq<Event>, arrivals: seq<Event>, k: nat, r: nat)
    requires r < k <= |arrivals| && Record(parse, floor, stored, arrivals, r)
    ensures arrivals[r] in Records(parse, floor, stored, arrivals, k)
  {
    if r < k - 1 {
      RecordIsSent(parse, floor, stored, arrivals, k - 1, r);
    }
  }

  predicate Rising(parse: string -> int, events: seq<Event>) {
    forall i, j :: 0 <= i < j < |events| ==> parse(events[i].id) < parse(events[j].id)
  }

  predicate Above(parse: string -> int, events: seq<Event>, low: seq<Event>) {
    forall i, j :: 0 <= i < |events| && 0 <= j < |low| ==> parse(low[j].id) < parse(events[i].id)
  }

  lemma {:induction false} RecordsRise(
      parse: string -> int, floor: int, stored: seq<Event>, arrivals: seq<Event>, k: nat)
    requires k <= |arrivals|
    ensures Rising(parse, Records(parse, floor, stored, arrivals, k))
    ensures Above(parse, Records(parse, floor, stored, arrivals, k), stored)
  {
    var live := Records(parse, floor, stored, arrivals, k);
    if k > 0 {
      RecordsRise(parse, floor, stored, arrivals, k - 1);
      var before := Records(parse, floor, stored, arrivals, k - 1);
      forall i | 0 <= i < |before| && Record(parse, floor, stored, arrivals, k - 1)
        ensures parse(before[i].id) < parse(arrivals[k - 1].id)
      {
        RecordsArrived(parse, floor, stored, arrivals, k - 1, before[i]);
      }
    }
    forall i, j | 0 <= i < |live| && 0 <= j < |stored| ensures parse(stored[j].id) < parse(live[i].id) {
      RecordsArrived(parse, floor, stored, arrivals, k, live[i]);
    }
  }

  /** The highest number among the reconnect id and the replayed events. */
  method SendStored(parse: string -> int, floor: int, stored: seq<Event>)
    returns (replayed: seq<Event>, lastSent: int)
    ensures replayed == stored
    ensures floor <= lastSent && forall j :: 0 <= j < |stored| ==> parse(stored[j].id) <= lastSent
    ensures lastSent == floor || exists j :: 0 <= j < |stored| && parse(stored[j].id) == lastSent
  {
    replayed, lastSent := [], floor;
    for i := 0 to |stored|
      invariant replayed == stored[..i]
      invariant floor <= lastSent && forall j :: 0 <= j < i ==> parse(stored[j].id) <= lastSent
      invariant lastSent == floor || exists j :: 0 <= j < i && parse(stored[j].id) == lastSent
    {
      var number := parse(stored[i].id);
      if lastSent < number {
        lastSent := number;
      }
      replayed := replayed + [stored[i]];
    }
  }

  /** Skips what is not above everything already seen, stops after an end event. */
  method SendLive(parse: string -> int, ghost floor: int, ghost stored: seq<Event>, start: int, arrivals: seq<Event>)
    returns (live: seq<Event>, taken: nat)
    requires floor <= start && forall j :: 0 <= j < |stored| ==> parse(stored[j].id) <= start
    requires start == floor || exists j :: 0 <= j < |stored| && parse(stored[j].id) == start
    ensures taken <= |arrivals|
    ensures forall k :: 0 <= k < taken - 1 ==> !IsEnd(arrivals[k].payload)
    ensures taken < |arrivals| ==> taken > 0 && IsEnd(arrivals[taken - 1].payload)
    ensures live == Records(parse, floor, stored, arrivals, taken)
  {
    var lastSent := start;
    live, taken := [], 0;
    while taken < |arrivals|
      invariant taken <= |arrivals|
      invariant forall k :: 0 <= k < taken ==> !IsEnd(arrivals[k].payload)
      invariant live == Records(parse, floor, stored, arrivals, taken)
      invariant start <= lastSent && forall j :: 0 <= j < taken ==> parse(arrivals[j].id) <= lastSent
      invariant lastSent == start || exists j :: 0 <= j < taken && parse(arrivals[j].id) == lastSent
    {
      var e := arrivals[taken];
      var number := parse(e.id);
      assert lastSent < number <==> Record(parse, floor, stored, arrivals, taken);
      if lastSent < number {
        live := live + [e];
        lastSent := number;
      }
      taken := taken + 1;
      if IsEnd(e.payload) {
        break;
      }
    }
  }

  /** Sends the stored events, then the arrivals up to the first end event whose
      numbers are new; `last` is the reconnect id, `taken` how many arrivals the
      loop consumed.  The live part is strictly increasing and above everything
      replayed, and it misses no arrival that is. */
  method StreamEvents(parse: string -> int, last: Option<string>, stored: seq<Event>, arrivals: seq<Event>)
    returns (replayed: seq<Event>, live: seq<Event>, taken: nat)
    ensures replayed == stored && taken <= |arrivals|
    ensures forall k :: 0 <= k < taken - 1 ==> !IsEnd(arrivals[k].payload)
    ensures taken < |arrivals| ==> taken > 0 && IsEnd(arrivals[taken - 1].payload)
    ensures var floor := if last.None? || last.value == "" then 0 else parse(last.value);
            live == Records(parse, floor, stored, arrivals, taken)
    ensures Rising(parse, live) && Above(parse, live, replayed)
    ensures var floor := if last.None? || last.value == "" then 0 else parse(last.value);
            forall k :: 0 <= k < taken
                        && floor < parse(arrivals[k].id)
                        && (forall i :: 0 <= i < |stored| ==> parse(stored[i].id) < parse(arrivals[k].id))
                        && (forall j :: 0 <= j < k ==> parse(arrivals[j].id) < parse(arrivals[k].id))
              ==> arrivals[k] in live
  {
    var floor := if last.None? || last.value == "" then 0 else parse(last.value);
    var lastSent;
    replayed, lastSent := SendStored(parse, floor, stored);
    live, taken := SendLive(parse, floor, stored, lastSent, arrivals);
    RecordsRise(parse, floor, stored, arrivals, taken);
    forall k | 0 <= k < taken && Record(parse, floor, stored, arrivals, k) ensures arrivals[k] in live {
      RecordIsSent(parse, floor, stored, arrivals, taken, k);
    }
  }
}

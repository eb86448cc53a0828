/**
 Printing and parsing of event ids, `{run_id}_event_{sequence}`, and exactly for
 which run ids parsing inverts printing.
 */
module EventId {
  import opened Options
  import opened Whitespace

  const SEPARATOR: string := "_event_"
  const BLOCK: string := "_event"

  predicate IsDigit(c: char) {
    '0' <= c <= '9'
  }

  function DigitValue(c: char): nat
    requires IsDigit(c)
  {
    c as nat - '0' as nat
  }

  /** Decimal rendering of a natural number. */
  function Decimal(n: nat): (s: string)
    ensures |s| > 0 && forall i :: 0 <= i < |s| ==> IsDigit(s[i])
  {
    var last := ('0' as nat + n % 10) as char;
    if n < 10 then [last] else Decimal(n / 10) + [last]
  }

  function GenerateEventId(runId: string, sequence: nat): string {
    runId + SEPARATOR + Decimal(sequence)
  }

  // ------------------------------------------------------------- parsing

  /** The slice s[k..k + 7] is the separator, character by character. */
  predicate SeparatorAt(s: string, k: nat) {
    && k + 7 <= |s| && s[k] == '_' && s[k + 1] == 'e' && s[k + 2] == 'v' && s[k + 3] == 'e' && s[k + 4] == 'n'
    && s[k + 5] == 't' && s[k + 6] == '_'
  }

  /** First position at or after `from` where the separator starts. */
  function FindSeparator(s: string, from: nat): (r: Option<nat>)
    requires from <= |s|
    ensures r.Some? ==> from <= r.value && SeparatorAt(s, r.value)
    ensures r.Some? ==> forall k :: from <= k < r.value ==> !SeparatorAt(s, k)
    ensures r.None? ==> forall k :: from <= k ==> !SeparatorAt(s, k)
    decreases |s| - from
  {
    if SeparatorAt(s, from) then Some(from)
    else if from == |s| then None
    else FindSeparator(s, from + 1)
  }

  /** Last piece of the left-to-right split of s[from..] on the separator. */
  function LastPiece(s: string, from: nat): string
    requires from <= |s|
    decreases |s| - from
  {
    match FindSeparator(s, from)
    case None => s[from..]
    case Some(k) => LastPiece(s, k + 7)
  }

  /** Digits, with single underscores allowed between them. */
  function ParseNat(s: string): Option<nat> {
    if |s| == 0 || !IsDigit(s[|s| - 1]) then None
    else
      var last := DigitValue(s[|s| - 1]);
      if |s| == 1 then Some(last)
      else
        match ParseNat(if s[|s| - 2] == '_' then s[..|s| - 2] else s[..|s| - 1])
        case None => None
        case Some(v) => Some(10 * v + last)
  }

  /** Python's int() on a string of ASCII digits. */
  function ParseInt(s: string): Option<int> {
    var t := Strip(s);
    if t != "" && (t[0] == '-' || t[0] == '+') then
      match ParseNat(t[1..])
      case None => None
      case Some(v) => (var i: int := v; Some(if t[0] == '-' then -i else i))
    else
      match ParseNat(t)
      case None => None
      case Some(v) => Some(v)
  }

  /** 0 when the last piece is not a number. */
  function ExtractEventSequence(eventId: string): int {
    match ParseInt(LastPiece(eventId, 0))
    case None => 0
    case Some(v) => v
  }

  // ---------------------------------------------------------- round trip

  predicate EndsWithBlock(r: string) {
    var n := |r|;
    && 6 <= n && r[n - 6] == '_' && r[n - 5] == 'e' && r[n - 4] == 'v' && r[n - 3] == 'e' && r[n - 2] == 'n'
    && r[n - 1] == 't'
  }

  /** How many `_event` blocks the run id ends with. */
  function TrailingBlocks(r: string): nat {
    if EndsWithBlock(r) then 1 + TrailingBlocks(r[..|r| - 6]) else 0
  }

  lemma NoUnderscoreNoSeparator(s: string, from: nat)
    requires from <= |s| && forall i :: from <= i < |s| ==> s[i] != '_'
    ensures LastPiece(s, from) == s[from..]
  {
    forall k | from <= k ensures !SeparatorAt(s, k) {
    }
  }

  /** Cutting a run id after a separator that has no block before it keeps the
      parity of its trailing blocks. */
  lemma {:induction false} CutKeepsParity(a: string, b: string)
    requires TrailingBlocks(a) == 0
    ensures TrailingBlocks(a + SEPARATOR + b) % 2 == TrailingBlocks(b) % 2
    decreases |b|
  {
    var r := a + SEPARATOR + b;
    if EndsWithBlock(b) {
      assert r[|r| - 6..] == b[|b| - 6..];
      assert r[..|r| - 6] == a + SEPARATOR + b[..|b| - 6];
      CutKeepsParity(a, b[..|b| - 6]);
    } else {
      if |b| >= 6 {
        assert r[|r| - 6..] == b[|b| - 6..];
      } else if EndsWithBlock(r) {
        assert |b| == 5 by { assert r[|a| + 6] == '_'; }
        assert r[..|r| - 6] == a + BLOCK;
        var q := a + BLOCK;
        assert q[|q| - 6..] == BLOCK && q[..|q| - 6] == a;
      }
    }
  }

  /** The final separator of a printed id can only be overlapped by one that
      ends with its first character. */
  lemma FirstSeparator(s: string, r: string, from: nat) returns (p: nat)
    requires from <= |r| && |r| + 7 <= |s| && r == s[..|r|] && SeparatorAt(s, |r|)
    ensures FindSeparator(s, from) == Some(p) && from <= p <= |r|
    ensures p + 7 <= |r| || p + 6 == |r| || p == |r|
    ensures TrailingBlocks(r[from..p]) == 0
  {
    p := FindSeparator(s, from).value;
    NoBlockBefore(s, r, from, p);
  }

  /** Splitting a printed id from the left: the number comes last exactly when
      the run id ends with an even number of blocks. */
  lemma {:induction false} LastPieceOfPrinted(s: string, r: string, d: string, from: nat)
    requires s == r + SEPARATOR + d
    requires from <= |r| && forall i :: 0 <= i < |d| ==> d[i] != '_'
    ensures LastPiece(s, from) == if TrailingBlocks(r[from..]) % 2 == 0 then d else "event_" + d
    decreases |r| - from
  {
    SeparatorAfter(s, r, d);
    var p := FirstSeparator(s, r, from);
    if p + 7 <= |r| {
      CutInside(s, r, from, p);
      LastPieceOfPrinted(s, r, d, p + 7);
    } else if p == |r| {
      CutAtEnd(s, r, d, from);
    } else {
      CutAcrossEnd(s, r, d, from, p);
    }
  }

  lemma SeparatorAfter(s: string, r: string, d: string)
    requires s == r + SEPARATOR + d
    ensures SeparatorAt(s, |r|) && r == s[..|r|]
  {
  }

  lemma CutAtEnd(s: string, r: string, d: string, from: nat)
    requires s == r + SEPARATOR + d && from <= |r|
    requires forall i :: 0 <= i < |d| ==> d[i] != '_'
    requires TrailingBlocks(r[from..|r|]) == 0
    ensures TrailingBlocks(r[from..]) == 0 && LastPiece(s, |r| + 7) == d
  {
    assert r[from..|r|] == r[from..];
    assert s[|r| + 7..] == d;
    NoUnderscoreNoSeparator(s, |r| + 7);
  }

  lemma CutAcrossEnd(s: string, r: string, d: string, from: nat, p: nat)
    requires s == r + SEPARATOR + d && from <= p && p + 6 == |r| && SeparatorAt(s, p)
    requires forall i :: 0 <= i < |d| ==> d[i] != '_'
    requires TrailingBlocks(r[from..p]) == 0
    ensures TrailingBlocks(r[from..]) == 1 && LastPiece(s, p + 7) == "event_" + d
  {
    OneBlock(s, r, from, p);
    assert s[p + 7..] == "event_" + d;
    EventPrefixHasNoSeparator(s, p + 7, d);
  }

  /** Cutting at a separator inside the run id. */
  lemma CutInside(s: string, r: string, from: nat, p: nat)
    requires from <= p && p + 7 <= |r| <= |s| && r == s[..|r|] && SeparatorAt(s, p) && TrailingBlocks(r[from..p]) == 0
    ensures TrailingBlocks(r[from..]) % 2 == TrailingBlocks(r[p + 7..]) % 2
  {
    assert s[p..p + 7] == r[p..p + 7];
    assert r[from..] == r[from..p] + SEPARATOR + r[p + 7..];
    CutKeepsParity(r[from..p], r[p + 7..]);
  }

  lemma OneBlock(s: string, r: string, from: nat, p: nat)
    requires from <= p && p + 6 == |r| < |s| && r == s[..|r|] && SeparatorAt(s, p) && TrailingBlocks(r[from..p]) == 0
    ensures TrailingBlocks(r[from..]) == 1
  {
    var tail := r[from..];
    assert EndsWithBlock(tail);
    assert tail[..|tail| - 6] == r[from..p];
  }

  lemma NoBlockBefore(s: string, r: string, from: nat, p: nat)
    requires from <= p <= |r| < |s| && r == s[..|r|]
    requires SeparatorAt(s, p) && forall k :: from <= k < p ==> !SeparatorAt(s, k)
    ensures TrailingBlocks(r[from..p]) == 0
  {
    var a := r[from..p];
    if 6 <= |a| {
      assert !SeparatorAt(s, p - 6);
    }
  }

  lemma EventPrefixHasNoSeparator(s: string, from: nat, d: string)
    requires from <= |s| && s[from..] == "event_" + d && forall i :: 0 <= i < |d| ==> d[i] != '_'
    ensures LastPiece(s, from) == "event_" + d
  {
    forall k | from <= k ensures !SeparatorAt(s, k) {
      if k + 7 <= |s| {
        assert s[k] == s[from..][k - from];
        assert s[k + 6] == s[from..][k - from + 6];
      }
    }
  }

  lemma {:induction false} DecimalParses(n: nat)
    ensures ParseNat(Decimal(n)) == Some(n)
  {
    var s := Decimal(n);
    if n >= 10 {
      DecimalParses(n / 10);
      assert s[..|s| - 1] == Decimal(n / 10);
    }
  }

  lemma StripKeepsDigits(s: string)
    requires s != "" && !IsSpace(s[0]) && !IsSpace(s[|s| - 1])
    ensures Strip(s) == s
  {
  }

  lemma {:induction false} ParsedIsDigits(s: string)
    requires ParseNat(s).Some?
    ensures forall i :: 0 <= i < |s| ==> IsDigit(s[i]) || s[i] == '_'
  {
    if |s| > 1 {
      ParsedIsDigits(if s[|s| - 2] == '_' then s[..|s| - 2] else s[..|s| - 1]);
    }
  }

  lemma DecimalReadsBack(n: nat)
    ensures ParseInt(Decimal(n)) == Some(n)
  {
    StripKeepsDigits(Decimal(n));
    DecimalParses(n);
  }

  lemma EventPrefixIsNoNumber(d: string)
    requires d != "" && forall i :: 0 <= i < |d| ==> IsDigit(d[i])
    ensures ParseInt("event_" + d) == None
  {
    var bad := "event_" + d;
    assert bad[0] == 'e' && bad[|bad| - 1] == d[|d| - 1];
    StripKeepsDigits(bad);
    if ParseNat(bad).Some? {
      ParsedIsDigits(bad);
    }
  }

  /** Extraction inverts generation exactly for run ids that end with an even
      number of `_event` blocks; for the others it gives 0. */
  lemma RoundTrip(runId: string, n: nat)
    ensures ExtractEventSequence(GenerateEventId(runId, n)) == if TrailingBlocks(runId) % 2 == 0 then n else 0
  {
    LastPieceOfPrinted(GenerateEventId(runId, n), runId, Decimal(n), 0);
    assert runId[0..] == runId;
    DecimalReadsBack(n);
    EventPrefixIsNoNumber(Decimal(n));
  }

  lemma NoUnderscoreNoBlock(runId: string)
    requires '_' !in runId
    ensures TrailingBlocks(runId) == 0
  {
    if 6 <= |runId| {
      assert runId[|runId| - 6] != '_';
    }
  }

  /** No printed id of a run without an underscore, as every UUID is, is misread. */
  lemma UuidRoundTrip(runId: string, n: nat)
    requires '_' !in runId
    ensures ExtractEventSequence(GenerateEventId(runId, n)) == n
  {
    NoUnderscoreNoBlock(runId);
    RoundTrip(runId, n);
  }

  /** The hypothesis is needed: with one block at the end every number reads as 0. */
  lemma BlockBreaksRoundTrip(prefix: string, runId: string, n: nat)
    requires '_' !in prefix && runId == prefix + BLOCK
    ensures ExtractEventSequence(GenerateEventId(runId, n)) == 0
  {
    BlockAfter(prefix, runId);
    NoUnderscoreNoBlock(prefix);
    RoundTrip(runId, n);
  }

  lemma BlockAfter(prefix: string, runId: string)
    requires runId == prefix + BLOCK
    ensures TrailingBlocks(runId) == 1 + TrailingBlocks(prefix)
  {
    assert runId[..|runId| - 6] == prefix;
  }

  // ------------------------------------------------------------- examples

  /** An id as it goes over the wire. */
  lemma PrintedId()
    ensures GenerateEventId("run", 12) == "run_event_12"
  {
    assert Decimal(1) == "1" && Decimal(12) == "12";
  }

  lemma SignedReadsBack(n: nat)
    ensures ParseInt("-" + Decimal(n)) == Some(0 - n) && ParseInt("+" + Decimal(n)) == Some(n)
  {
    var minus, plus := "-" + Decimal(n), "+" + Decimal(n);
    StripKeepsDigits(minus);
    StripKeepsDigits(plus);
    assert minus[1..] == Decimal(n) && plus[1..] == Decimal(n);
    DecimalParses(n);
  }

  /** Ids that are not of this form are read, too: a bare number as itself, with
      its sign, and what is no number at all as 0. */
  lemma ForeignIdsAreRead(n: nat, junk: string)
    requires '_' !in junk && ParseInt(junk) == None
    ensures ExtractEventSequence(Decimal(n)) == n
    ensures ExtractEventSequence("-" + Decimal(n)) == 0 - n
    ensures ExtractEventSequence(junk) == 0
  {
    NoUnderscoreNoSeparator(Decimal(n), 0);
    NoUnderscoreNoSeparator("-" + Decimal(n), 0);
    NoUnderscoreNoSeparator(junk, 0);
    assert Decimal(n)[0..] == Decimal(n) && ("-" + Decimal(n))[0..] == "-" + Decimal(n) && junk[0..] == junk;
    DecimalReadsBack(n);
    SignedReadsBack(n);
  }

  /** A single underscore between two digits is not read. */
  lemma {:induction false} UnderscoreIsNotRead(a: string, b: string)
    requires a != "" && b != "" && IsDigit(a[|a| - 1]) && forall i :: 0 <= i < |b| ==> IsDigit(b[i])
    ensures ParseNat(a + "_" + b) == ParseNat(a + b)
    decreases |b|
  {
    var s, t := a + "_" + b, a + b;
    if |b| == 1 {
      assert s[|s| - 2] == '_' && s[..|s| - 2] == a && t[..|t| - 1] == a;
    } else {
      var init := b[..|b| - 1];
      assert s[..|s| - 1] == a + "_" + init && t[..|t| - 1] == a + init;
      UnderscoreIsNotRead(a, init);
    }
  }
}

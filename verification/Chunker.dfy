/**
 The overlapping text chunker: normalization, the window loop, and exactly which
 windows it makes.
 */
module Chunker {
  import opened Numbers
  import opened Whitespace

  // ------------------------------------------------------- normalization

  /** Length of the run of newlines at the start. */
  function NewlineRun(s: string): (k: nat)
    ensures k <= |s| && (forall i :: 0 <= i < k ==> s[i] == '\n') && (k < |s| ==> s[k] != '\n')
  {
    if s != "" && s[0] == '\n' then 1 + NewlineRun(s[1..]) else 0
  }

  /** Every maximal run of three or more newlines becomes two. */
  function CollapseNewlines(s: string): string
    decreases |s|
  {
    if s == "" then ""
    else if s[0] != '\n' then [s[0]] + CollapseNewlines(s[1..])
    else
      var k := NewlineRun(s);
      (if k >= 3 then "\n\n" else s[..k]) + CollapseNewlines(s[k..])
  }

  predicate NoTripleNewline(s: string) {
    forall i :: 0 <= i < |s| - 2 ==> !(s[i] == '\n' && s[i + 1] == '\n' && s[i + 2] == '\n')
  }

  function WithoutNewlines(s: string): string {
    if s == "" then ""
    else (if s[0] == '\n' then "" else [s[0]]) + WithoutNewlines(s[1..])
  }

  lemma {:induction false} DropNewlines(s: string, k: nat)
    requires k <= |s| && forall i :: 0 <= i < k ==> s[i] == '\n'
    ensures WithoutNewlines(s) == WithoutNewlines(s[k..])
  {
    if k == 0 {
      assert s[k..] == s;
    } else {
      DropNewlines(s[1..], k - 1);
      assert s[1..][k - 1..] == s[k..];
    }
  }

  /** One step of the collapse at a newline: a head of at most two newlines,
      then the collapse of what follows the run. */
  lemma CollapseAtRun(s: string)
    requires s != "" && s[0] == '\n'
    ensures var k, out := NewlineRun(s), CollapseNewlines(s);
            var h := Min(k, 2);
            && h <= |out| && out[h..] == CollapseNewlines(s[k..])
            && (forall i :: 0 <= i < h ==> out[i] == '\n')
  {
    var k := NewlineRun(s);
    var head := if k >= 3 then "\n\n" else s[..k];
    assert CollapseNewlines(s) == head + CollapseNewlines(s[k..]);
    assert |head| == Min(k, 2);
  }

  lemma {:induction false} CollapseStart(s: string)
    ensures CollapseNewlines(s) != "" && CollapseNewlines(s)[0] == '\n' ==> s != "" && s[0] == '\n'
  {
  }

  lemma GlueLeavesNoGap(out: string, h: nat)
    requires h <= 2 && h <= |out| && NoTripleNewline(out[h..])
    requires (h == 1 && out[0] != '\n') || h == |out| || out[h] != '\n'
    ensures NoTripleNewline(out)
  {
    var tail := out[h..];
    forall i | 0 <= i < |out| - 2 ensures !(out[i] == '\n' && out[i + 1] == '\n' && out[i + 2] == '\n') {
      if h <= i {
        assert out[i] == tail[i - h] && out[i + 1] == tail[i - h + 1] && out[i + 2] == tail[i - h + 2];
      }
    }
  }

  /** The normalization leaves no blank gap above one empty line. */
  lemma {:induction false} CollapseLeavesNoGap(s: string)
    ensures NoTripleNewline(CollapseNewlines(s))
    decreases |s|
  {
    if s != "" {
      var out := CollapseNewlines(s);
      if s[0] != '\n' {
        CollapseLeavesNoGap(s[1..]);
        assert out[1..] == CollapseNewlines(s[1..]);
        GlueLeavesNoGap(out, 1);
      } else {
        var k := NewlineRun(s);
        CollapseLeavesNoGap(s[k..]);
        CollapseAtRun(s);
        CollapseStart(s[k..]);
        GlueLeavesNoGap(out, Min(k, 2));
      }
    }
  }

  /** It touches nothing but newlines. */
  lemma {:induction false} CollapseKeepsText(s: string)
    ensures WithoutNewlines(CollapseNewlines(s)) == WithoutNewlines(s)
    decreases |s|
  {
    if s != "" {
      var out := CollapseNewlines(s);
      if s[0] != '\n' {
        CollapseKeepsText(s[1..]);
        assert out[1..] == CollapseNewlines(s[1..]);
      } else {
        var k := NewlineRun(s);
        CollapseKeepsText(s[k..]);
        CollapseAtRun(s);
        DropNewlines(out, Min(k, 2));
        DropNewlines(s, k);
      }
    }
  }

  lemma TailHasNoTriple(s: string, k: nat)
    requires k <= |s| && NoTripleNewline(s)
    ensures NoTripleNewline(s[k..])
  {
    var t := s[k..];
    forall i | 0 <= i < |t| - 2 ensures !(t[i] == '\n' && t[i + 1] == '\n' && t[i + 2] == '\n') {
      assert t[i] == s[k + i];
    }
  }

  /** And it changes only texts that have a gap. */
  lemma {:induction false} CollapseFixesClean(s: string)
    requires NoTripleNewline(s)
    ensures CollapseNewlines(s) == s
    decreases |s|
  {
    if s != "" {
      if s[0] != '\n' {
        TailHasNoTriple(s, 1);
        CollapseFixesClean(s[1..]);
      } else {
        var k := NewlineRun(s);
        TailHasNoTriple(s, k);
        CollapseFixesClean(s[k..]);
        CollapseAtRun(s);
        assert |s| >= 3 ==> !(s[0] == '\n' && s[1] == '\n' && s[2] == '\n');
        assert s == s[..k] + s[k..] && CollapseNewlines(s) == CollapseNewlines(s)[..k] + s[k..];
      }
    }
  }

  function Normalize(text: string): string {
    Strip(CollapseNewlines(text))
  }

  predicate NoBlankEnds(s: string) {
    s == "" || (!IsSpace(s[0]) && !IsSpace(s[|s| - 1]))
  }

  /** n is c without white space at its ends. */
  ghost predicate StrippedFrom(n: string, c: string) {
    && NoBlankEnds(n)
    && exists lo, hi :: 0 <= lo <= hi <= |c| && n == c[lo..hi] && BlankOutside(c, lo, hi)
  }

  predicate BlankOutside(c: string, lo: int, hi: int) {
    forall i :: 0 <= i < |c| && !(lo <= i < hi) ==> IsSpace(c[i])
  }

  lemma NormalizeStrips(text: string)
    ensures StrippedFrom(Normalize(text), CollapseNewlines(text))
  {
    var c := CollapseNewlines(text);
    var lo, hi := StripCuts(c);
    assert Normalize(text) == c[lo..hi] && BlankOutside(c, lo, hi);
  }

  /** A text without gaps and blank ends is chunked as it is. */
  lemma CleanTextIsNormal(text: string)
    requires NoTripleNewline(text) && NoBlankEnds(text)
    ensures Normalize(text) == text
  {
    CollapseFixesClean(text);
    var lo, hi := StripCuts(text);
    assert text != "" ==> lo == 0 && hi == |text|;
  }

  // ---------------------------------- the document and its normalized text

  function Newlines(k: nat): (s: string)
    ensures |s| == k && forall i :: 0 <= i < k ==> s[i] == '\n'
  {
    seq(k, _ => '\n')
  }

  lemma {:induction false} RunOfNewlines(k: nat, b: string)
    requires b == "" || b[0] != '\n'
    ensures NewlineRun(Newlines(k) + b) == k
  {
    if k == 0 {
      assert Newlines(0) + b == b;
    } else {
      assert (Newlines(k) + b)[1..] == Newlines(k - 1) + b;
      RunOfNewlines(k - 1, b);
    }
  }

  lemma CollapseRun(k: nat, b: string)
    requires b == "" || b[0] != '\n'
    ensures CollapseNewlines(Newlines(k) + b) == Newlines(Min(k, 2)) + CollapseNewlines(b)
  {
    var s := Newlines(k) + b;
    RunOfNewlines(k, b);
    if k == 0 {
      assert s == b && Newlines(0) == "";
    } else {
      assert s[..k] == Newlines(k) && s[k..] == b;
      CollapseAtRun(s);
      assert CollapseNewlines(s)[..Min(k, 2)] == Newlines(Min(k, 2));
    }
  }

  lemma {:induction false} CollapseConcat(a: string, b: string)
    requires a == "" || a[|a| - 1] != '\n'
    ensures CollapseNewlines(a + b) == CollapseNewlines(a) + CollapseNewlines(b)
    decreases |a|
  {
    if a == "" {
      assert a + b == b;
    } else if a[0] != '\n' {
      assert (a + b)[1..] == a[1..] + b;
      CollapseConcat(a[1..], b);
    } else {
      var k := NewlineRun(a);
      assert a == Newlines(k) + a[k..];
      CollapseConcat(a[k..], b);
      CollapseRunThen(k, a[k..], b);
    }
  }

  lemma CollapseRunThen(k: nat, a: string, b: string)
    requires a != "" && a[0] != '\n' && CollapseNewlines(a + b) == CollapseNewlines(a) + CollapseNewlines(b)
    ensures CollapseNewlines(Newlines(k) + a + b) == CollapseNewlines(Newlines(k) + a) + CollapseNewlines(b)
  {
    Regroup(Newlines(k), a, b);
    CollapseRun(k, a);
    CollapseRun(k, a + b);
    Regroup(Newlines(Min(k, 2)), CollapseNewlines(a), CollapseNewlines(b));
  }

  /** Every maximal run of newlines, anywhere, becomes a run of at most two; what
      is before and after it is collapsed by itself. */
  lemma RunsBecomeAtMostTwo(a: string, k: nat, b: string)
    requires a == "" || a[|a| - 1] != '\n'
    requires b == "" || b[0] != '\n'
    ensures CollapseNewlines(a + Newlines(k) + b) ==
            CollapseNewlines(a) + Newlines(if k < 2 then k else 2) + CollapseNewlines(b)
  {
    Regroup(a, Newlines(k), b);
    CollapseConcat(a, Newlines(k) + b);
    CollapseRun(k, b);
    Regroup(CollapseNewlines(a), Newlines(Min(k, 2)), CollapseNewlines(b));
  }

  lemma Regroup(a: string, m: string, b: string)
    ensures a + m + b == a + (m + b)
  {
  }

  lemma {:induction false} CollapseKeepsNonBlank(s: string)
    ensures NonBlank(CollapseNewlines(s)) == NonBlank(s)
    decreases |s|
  {
    if s != "" {
      if s[0] != '\n' {
        CollapseKeepsNonBlank(s[1..]);
        NonBlankConcat([s[0]], CollapseNewlines(s[1..]));
        NonBlankConcat([s[0]], s[1..]);
        assert s == [s[0]] + s[1..];
      } else {
        var k := NewlineRun(s);
        CollapseKeepsNonBlank(s[k..]);
        assert s == Newlines(k) + s[k..];
        CollapseRun(k, s[k..]);
        BlankPrefix(Newlines(k), s[k..]);
        BlankPrefix(Newlines(Min(k, 2)), CollapseNewlines(s[k..]));
      }
    }
  }

  lemma BlankPrefix(blank: string, s: string)
    requires forall i :: 0 <= i < |blank| ==> IsSpace(blank[i])
    ensures NonBlank(blank + s) == NonBlank(s)
  {
    NonBlankConcat(blank, s);
    AllBlank(blank);
  }

  lemma StripKeepsNonBlanks(n: string, c: string)
    requires StrippedFrom(n, c)
    ensures NonBlank(n) == NonBlank(c)
  {
    var lo, hi :| 0 <= lo <= hi <= |c| && n == c[lo..hi] && BlankOutside(c, lo, hi);
    CutKeepsNonBlanks(c, lo, hi);
  }

  lemma CutKeepsNonBlanks(c: string, lo: nat, hi: nat)
    requires lo <= hi <= |c| && BlankOutside(c, lo, hi)
    ensures NonBlank(c) == NonBlank(c[lo..hi])
  {
    ThreeParts(c, lo, hi);
    NonBlankConcat(c[..lo] + c[lo..hi], c[hi..]);
    NonBlankConcat(c[..lo], c[lo..hi]);
    AllBlank(c[..lo]);
    AllBlank(c[hi..]);
  }

  /** The normalized text has the document's visible characters, all of them, in order. */
  lemma NormalizedKeepsNonBlanks(text: string, n: string)
    requires StrippedFrom(n, CollapseNewlines(text))
    ensures NonBlank(n) == NonBlank(text)
  {
    StripKeepsNonBlanks(n, CollapseNewlines(text));
    CollapseKeepsNonBlank(text);
  }

  lemma {:induction false} WithoutNewlinesConcat(a: string, b: string)
    ensures WithoutNewlines(a + b) == WithoutNewlines(a) + WithoutNewlines(b)
  {
    if a == "" {
      assert a + b == b;
    } else {
      assert (a + b)[1..] == a[1..] + b;
      WithoutNewlinesConcat(a[1..], b);
    }
  }

  lemma ThreeParts(c: string, lo: nat, hi: nat)
    requires lo <= hi <= |c|
    ensures c == c[..lo] + c[lo..hi] + c[hi..]
  {
  }

  lemma WithoutNewlinesOfThree(c: string, a: string, m: string, b: string)
    requires c == a + m + b
    ensures WithoutNewlines(c) == WithoutNewlines(a) + WithoutNewlines(m) + WithoutNewlines(b)
  {
    WithoutNewlinesConcat(a + m, b);
    WithoutNewlinesConcat(a, m);
  }

  lemma {:induction false} WithoutNewlinesOfBlank(s: string)
    requires forall i :: 0 <= i < |s| ==> IsSpace(s[i])
    ensures forall i :: 0 <= i < |WithoutNewlines(s)| ==> IsSpace(WithoutNewlines(s)[i])
  {
    if s != "" {
      WithoutNewlinesOfBlank(s[1..]);
    }
  }

  /** And of the rest, too, it has everything between them except newlines. */
  lemma NormalizedKeepsText(text: string, n: string) returns (before: string, after: string)
    requires StrippedFrom(n, CollapseNewlines(text))
    ensures WithoutNewlines(text) == before + WithoutNewlines(n) + after
    ensures forall i :: 0 <= i < |before| ==> IsSpace(before[i])
    ensures forall i :: 0 <= i < |after| ==> IsSpace(after[i])
  {
    var c := CollapseNewlines(text);
    var lo, hi :| 0 <= lo <= hi <= |c| && n == c[lo..hi] && BlankOutside(c, lo, hi);
    CollapseKeepsText(text);
    before, after := CutKeepsText(c, lo, hi);
  }

  lemma CutKeepsText(c: string, lo: nat, hi: nat) returns (before: string, after: string)
    requires lo <= hi <= |c| && BlankOutside(c, lo, hi)
    ensures WithoutNewlines(c) == before + WithoutNewlines(c[lo..hi]) + after
    ensures forall i :: 0 <= i < |before| ==> IsSpace(before[i])
    ensures forall i :: 0 <= i < |after| ==> IsSpace(after[i])
  {
    before, after := WithoutNewlines(c[..lo]), WithoutNewlines(c[hi..]);
    CutInThree(c, lo, hi);
    WithoutNewlinesOfBlank(c[..lo]);
    WithoutNewlinesOfBlank(c[hi..]);
  }

  lemma CutInThree(c: string, lo: nat, hi: nat)
    requires lo <= hi <= |c|
    ensures WithoutNewlines(c) == WithoutNewlines(c[..lo]) + WithoutNewlines(c[lo..hi]) + WithoutNewlines(c[hi..])
  {
    ThreeParts(c, lo, hi);
    WithoutNewlinesOfThree(c, c[..lo], c[lo..hi], c[hi..]);
  }

  // ------------------------------------------------------------- windows

  datatype Window = Window(lo: int, hi: int)

  /** Python's s[lo:hi] for a non-negative lo. */
  function Slice(s: string, lo: nat, hi: int): string {
    var end := if hi < 0 then Max(hi + |s|, 0) else Min(hi, |s|);
    if lo < end then s[lo..end] else ""
  }

  /** A non-negative end counts from the start and stops at the text's end, a
      negative one counts from the end. */
  lemma SliceIsPythons(s: string, lo: nat, hi: int)
    ensures 0 <= hi <= |s| && lo <= hi ==> Slice(s, lo, hi) == s[lo..hi]
    ensures |s| < hi && lo <= |s| ==> Slice(s, lo, hi) == s[lo..]
    ensures hi < 0 && lo <= |s| + hi ==> Slice(s, lo, hi) == s[lo..|s| + hi]
    ensures (if hi < 0 then hi + |s| else hi) <= lo || |s| <= lo ==> Slice(s, lo, hi) == ""
  {
  }

  /** The windows the loop visits from `start` on. */
  function Windows(n: nat, size: int, overlap: int, start: nat): seq<Window>
    decreases n - start
  {
    if n <= start then []
    else
      var end := Min(start + size, n);
      [Window(start, end)]
      + if end == n then [] else Windows(n, size, overlap, Max(end - overlap, start + 1))
  }

  /** The chunk a window gives, "" when it is blank. */
  function ChunkOf(s: string, w: Window): string {
    if w.lo < 0 then "" else Strip(Slice(s, w.lo, w.hi))
  }

  /** The chunks of the windows, blank ones left out. */
  function Chunks(s: string, ws: seq<Window>): seq<string> {
    if ws == [] then []
    else
      var chunk := ChunkOf(s, ws[|ws| - 1]);
      Chunks(s, ws[..|ws| - 1]) + if chunk == "" then [] else [chunk]
  }

  lemma ChunksSnoc(s: string, ws: seq<Window>, w: Window)
    ensures Chunks(s, ws + [w]) == Chunks(s, ws) + if ChunkOf(s, w) == "" then [] else [ChunkOf(s, w)]
  {
    assert (ws + [w])[..|ws|] == ws;
  }

  /** The chunking loop, for any size and overlap: it always terminates. */
  method ChunkText(text: string, size: int, overlap: int) returns (chunks: seq<string>)
    ensures chunks == Chunks(Normalize(text), Windows(|Normalize(text)|, size, overlap, 0))
    ensures NoTripleNewline(text) && NoBlankEnds(text) ==>
              chunks == Chunks(text, Windows(|text|, size, overlap, 0))
    ensures exists n :: StrippedFrom(n, CollapseNewlines(text)) && chunks == Chunks(n, Windows(|n|, size, overlap, 0))
  {
    NormalizeStrips(text);
    if NoTripleNewline(text) && NoBlankEnds(text) {
      CleanTextIsNormal(text);
    }
    var normalized := Normalize(text);
    if normalized == "" {
      return [];
    }
    chunks := ChunkNormalized(normalized, size, overlap);
  }

  /** The first window from `start`, and the windows after it. */
  lemma WindowsUnfold(n: nat, size: int, overlap: int, start: nat, ws: seq<Window>, next: nat)
    requires start < n && ws == Windows(n, size, overlap, start)
    requires next == Max(Min(start + size, n) - overlap, start + 1)
    ensures ws != [] && ws[0] == Window(start, Min(start + size, n))
    ensures ws[1..] == if Min(start + size, n) == n then [] else Windows(n, size, overlap, next)
  {
  }

  lemma MoveOne(seen: seq<Window>, rest: seq<Window>)
    requires rest != []
    ensures seen + [rest[0]] + rest[1..] == seen + rest
  {
  }

  method ChunkNormalized(normalized: string, size: int, overlap: int) returns (chunks: seq<string>)
    ensures chunks == Chunks(normalized, Windows(|normalized|, size, overlap, 0))
  {
    chunks := [];
    var start := 0;
    ghost var all := Windows(|normalized|, size, overlap, 0);
    ghost var seen, rest := [], all;
    while start < |normalized|
      invariant 0 <= start
      invariant rest == Windows(|normalized|, size, overlap, start)
      invariant seen + rest == all
      invariant chunks == Chunks(normalized, seen)
      decreases |normalized| - start
    {
      var end := Min(start + size, |normalized|);
      var chunk := Strip(Slice(normalized, start, end));
      var next := Max(end - overlap, start + 1);
      WindowsUnfold(|normalized|, size, overlap, start, rest, next);
      assert ChunkOf(normalized, rest[0]) == chunk;
      ChunksSnoc(normalized, seen, rest[0]);
      MoveOne(seen, rest);
      if chunk != "" {
        chunks := chunks + [chunk];
      }
      seen, rest := seen + [rest[0]], rest[1..];
      if end == |normalized| {
        break;
      }
      start := next;
    }
    assert seen + rest == seen;
  }

  // ----------------------------------------------------------- exactness

  function Step(size: int, overlap: int): int {
    Max(size - overlap, 1)
  }

  /** How much of a later window repeats the one before it. */
  function Shared(size: int, overlap: int): int {
    Min(overlap, size - 1)
  }

  /** Division rounding up, by counting. */
  function CeilDiv(a: nat, b: nat): nat
    requires b > 0
  {
    if a == 0 then 0 else 1 + CeilDiv(Max(a - b, 0), b)
  }

  lemma {:induction false} CeilDivRoundsUp(a: nat, b: nat)
    requires b > 0
    ensures a <= CeilDiv(a, b) * b < a + b
  {
    if a > 0 {
      CeilDivRoundsUp(Max(a - b, 0), b);
      var q := CeilDiv(Max(a - b, 0), b);
      assert (1 + q) * b == q * b + b;
      if a <= b {
        assert q == 0;
      }
    }
  }

  function WindowCount(n: nat, size: int, overlap: int): nat {
    1 + CeilDiv(Max(n - size, 0), Step(size, overlap))
  }

  /** What follows a full window. */
  lemma NextWindows(n: nat, size: int, overlap: int, start: nat)
    requires 1 <= size && 0 <= overlap && start + size < n
    ensures Windows(n, size, overlap, start) ==
            [Window(start, start + size)] + Windows(n, size, overlap, start + Step(size, overlap))
  {
  }

  lemma {:induction false} CountWindows(n: nat, size: int, overlap: int, start: nat)
    requires 1 <= size && 0 <= overlap && start < n
    ensures |Windows(n, size, overlap, start)| == WindowCount(n - start, size, overlap)
    decreases n - start
  {
    if start + size < n {
      NextWindows(n, size, overlap, start);
      CountWindows(n, size, overlap, start + Step(size, overlap));
    }
  }

  /** Consecutive windows are one step apart, each but the last is full, and
      only the last reaches the end. */
  lemma {:induction false} WindowIsExact(n: nat, size: int, overlap: int, start: nat, j: nat)
    requires 1 <= size && 0 <= overlap && start < n && j < |Windows(n, size, overlap, start)|
    ensures var ws := Windows(n, size, overlap, start);
            && start <= ws[j].lo < n && ws[j].hi == Min(ws[j].lo + size, n)
            && ws[j].lo == (if j == 0 then start else ws[j - 1].lo + Step(size, overlap))
            && (ws[j].hi == n <==> j == |ws| - 1)
    decreases n - start
  {
    if start + size < n {
      var next := start + Step(size, overlap);
      NextWindows(n, size, overlap, start);
      if j > 0 {
        WindowIsExact(n, size, overlap, next, j - 1);
      }
      if j == 1 {
        WindowIsExact(n, size, overlap, next, 0);
      }
    }
  }

  /** In closed form, window j starts at j steps. */
  lemma {:induction false} WindowStartsAt(n: nat, size: int, overlap: int, j: nat)
    requires 1 <= size && 0 <= overlap && 0 < n && j < |Windows(n, size, overlap, 0)|
    ensures Windows(n, size, overlap, 0)[j] == Window(j * Step(size, overlap), Min(j * Step(size, overlap) + size, n))
  {
    WindowIsExact(n, size, overlap, 0, j);
    if j > 0 {
      WindowStartsAt(n, size, overlap, j - 1);
      assert (j - 1) * Step(size, overlap) + Step(size, overlap) == j * Step(size, overlap);
    }
  }

  /** The text of the windows with the shared prefix of all but the first dropped. */
  function Rebuild(s: string, ws: seq<Window>, shared: int): string {
    if ws == [] then ""
    else
      var w := ws[|ws| - 1];
      var lo := if |ws| == 1 then w.lo else w.lo + shared;
      Rebuild(s, ws[..|ws| - 1], shared) + if 0 <= lo <= w.hi <= |s| then s[lo..w.hi] else ""
  }

  lemma RebuildSnoc(s: string, ws: seq<Window>, shared: int, k: nat)
    requires 0 < k <= |ws|
    ensures var lo := if k == 1 then ws[0].lo else ws[k - 1].lo + shared;
            Rebuild(s, ws[..k], shared) ==
            (if k == 1 then "" else Rebuild(s, ws[..k - 1], shared))
            + if 0 <= lo <= ws[k - 1].hi <= |s| then s[lo..ws[k - 1].hi] else ""
  {
    assert ws[..k][..k - 1] == ws[..k - 1];
  }

  lemma JoinAt(s: string, a: int, b: int)
    requires 0 <= a <= b <= |s|
    ensures s[..a] + s[a..b] == s[..b]
  {
  }

  lemma {:induction false} RebuildPrefix(s: string, size: int, overlap: int, k: nat)
    requires 1 <= size && 0 <= overlap && 0 < |s|
    requires 0 < k <= |Windows(|s|, size, overlap, 0)|
    ensures var ws := Windows(|s|, size, overlap, 0);
            0 <= ws[k - 1].hi <= |s| && Rebuild(s, ws[..k], Shared(size, overlap)) == s[..ws[k - 1].hi]
  {
    var ws := Windows(|s|, size, overlap, 0);
    WindowIsExact(|s|, size, overlap, 0, k - 1);
    if k > 1 {
      WindowIsExact(|s|, size, overlap, 0, k - 2);
      RebuildPrefix(s, size, overlap, k - 1);
      SharedIsOverlap(ws[k - 2], ws[k - 1], |s|, size, overlap);
    }
    RebuildStep(s, ws, Shared(size, overlap), k);
  }

  /** Past its shared prefix a later window continues where the one before it ended. */
  lemma SharedIsOverlap(before: Window, w: Window, n: nat, size: int, overlap: int)
    requires 1 <= size && 0 <= overlap && before.hi < n
    requires w.lo == before.lo + Step(size, overlap) && before.hi == Min(before.lo + size, n)
    requires w.hi == Min(w.lo + size, n)
    ensures w.lo + Shared(size, overlap) == before.hi <= w.hi
  {
  }

  lemma RebuildStep(s: string, ws: seq<Window>, shared: int, k: nat)
    requires 0 < k <= |ws| && 0 <= ws[k - 1].hi <= |s|
    requires k == 1 ==> ws[0].lo == 0
    requires k > 1 ==> 0 <= ws[k - 2].hi == ws[k - 1].lo + shared <= ws[k - 1].hi
    requires k > 1 ==> Rebuild(s, ws[..k - 1], shared) == s[..ws[k - 2].hi]
    ensures Rebuild(s, ws[..k], shared) == s[..ws[k - 1].hi]
  {
    RebuildSnoc(s, ws, shared, k);
    if k > 1 {
      JoinAt(s, ws[k - 2].hi, ws[k - 1].hi);
    }
  }

  /** Lossless: the windows, shared prefixes dropped, concatenate to the text. */
  lemma WindowsRebuildText(s: string, size: int, overlap: int)
    requires 1 <= size && 0 <= overlap && s != ""
    ensures Rebuild(s, Windows(|s|, size, overlap, 0), Shared(size, overlap)) == s
  {
    var ws := Windows(|s|, size, overlap, 0);
    WindowIsExact(|s|, size, overlap, 0, |ws| - 1);
    RebuildPrefix(s, size, overlap, |ws|);
    assert ws[..|ws|] == ws;
  }

  lemma {:induction false} ChunkOfWindow(s: string, ws: seq<Window>, j: nat)
    requires j < |ws| && ChunkOf(s, ws[j]) != ""
    ensures ChunkOf(s, ws[j]) in Chunks(s, ws)
  {
    if j < |ws| - 1 {
      ChunkOfWindow(s, ws[..|ws| - 1], j);
    }
  }

  /** Some window contains position i. */
  lemma {:induction false} WindowsCover(s: string, size: int, overlap: int, i: nat, k: nat) returns (j: nat)
    requires 1 <= size && 0 <= overlap && i < |s|
    requires 0 < k <= |Windows(|s|, size, overlap, 0)| && i < Windows(|s|, size, overlap, 0)[k - 1].hi
    ensures j < k && var w := Windows(|s|, size, overlap, 0)[j]; 0 <= w.lo <= i < w.hi <= |s|
  {
    WindowIsExact(|s|, size, overlap, 0, k - 1);
    if Windows(|s|, size, overlap, 0)[k - 1].lo <= i {
      j := k - 1;
    } else {
      WindowIsExact(|s|, size, overlap, 0, k - 2);
      j := WindowsCover(s, size, overlap, i, k - 1);
    }
  }

  lemma StripKeepsNonBlank(s: string, w: Window, i: nat) returns (lo: nat, hi: nat)
    requires 0 <= w.lo <= i < w.hi <= |s| && !IsSpace(s[i])
    ensures lo <= i < hi <= |s| && ChunkOf(s, w) == s[lo..hi]
  {
    var a, b := ChunkOfKeeps(s, w, s[w.lo..w.hi], i - w.lo);
    lo, hi := w.lo + a, w.lo + b;
    SliceOfSlice(s, w.lo, w.hi, a, b);
  }

  lemma ChunkOfKeeps(s: string, w: Window, text: string, k: nat) returns (a: nat, b: nat)
    requires 0 <= w.lo < w.hi <= |s| && text == s[w.lo..w.hi] && k < |text| && !IsSpace(text[k])
    ensures a <= k < b <= |text| && ChunkOf(s, w) == text[a..b]
  {
    a, b := StripKeeps(text, k);
    assert ChunkOf(s, w) == Strip(text);
  }

  lemma StripKeeps(text: string, i: nat) returns (a: nat, b: nat)
    requires i < |text| && !IsSpace(text[i])
    ensures a <= i < b <= |text| && Strip(text) == text[a..b]
  {
    a, b := StripCuts(text);
  }

  lemma SliceOfSlice(s: string, from: nat, to: nat, a: nat, b: nat)
    requires from <= to <= |s| && a <= b <= to - from
    ensures s[from..to][a..b] == s[from + a..from + b]
  {
    var x, y := s[from..to][a..b], s[from + a..from + b];
    assert |x| == |y| && forall k :: 0 <= k < |x| ==> x[k] == y[k];
  }

  /** No content is lost: every non-blank character of the normalized text lies
      inside one of the chunks, at its own place in it. */
  lemma EveryNonBlankIsChunked(s: string, size: int, overlap: int, i: nat) returns (lo: nat, hi: nat)
    requires 1 <= size && 0 <= overlap && i < |s| && !IsSpace(s[i])
    ensures lo <= i < hi <= |s| && s[lo..hi] in Chunks(s, Windows(|s|, size, overlap, 0))
  {
    var ws := Windows(|s|, size, overlap, 0);
    WindowIsExact(|s|, size, overlap, 0, |ws| - 1);
    var j := WindowsCover(s, size, overlap, i, |ws|);
    lo, hi := StripKeepsNonBlank(s, ws[j], i);
    ChunkOfWindow(s, ws, j);
  }

  /** No content of the document is lost: every visible character of the original
      text stands, as the same one of its visible characters, in the normalized
      text, and there lies inside one of the chunks. */
  lemma EveryCharacterIsChunked(text: string, n: string, size: int, overlap: int, i: nat)
    returns (j: nat, lo: nat, hi: nat)
    requires 1 <= size && 0 <= overlap && StrippedFrom(n, CollapseNewlines(text))
    requires i < |text| && !IsSpace(text[i])
    ensures lo <= j < hi <= |n| && n[j] == text[i] && NonBlank(n[..j]) == NonBlank(text[..i])
    ensures n[lo..hi] in Chunks(n, Windows(|n|, size, overlap, 0))
  {
    NormalizedKeepsNonBlanks(text, n);
    RankOf(text, i);
    var r := |NonBlank(text[..i])|;
    j := FindRank(n, r);
    lo, hi := EveryNonBlankIsChunked(n, size, overlap, j);
  }

  /** Every chunk has content and no blank ends. */
  lemma {:induction false} ChunksAreTrimmed(s: string, ws: seq<Window>, c: string)
    requires c in Chunks(s, ws)
    ensures c != "" && !IsSpace(c[0]) && !IsSpace(c[|c| - 1])
  {
    if c in Chunks(s, ws[..|ws| - 1]) {
      ChunksAreTrimmed(s, ws[..|ws| - 1], c);
    } else {
      StrippedEnds(s, ws[|ws| - 1]);
    }
  }

  lemma StrippedEnds(s: string, w: Window)
    ensures var c := ChunkOf(s, w); c != "" ==> !IsSpace(c[0]) && !IsSpace(c[|c| - 1])
  {
    if 0 <= w.lo {
      var text := Slice(s, w.lo, w.hi);
      var a, b := StripCuts(text);
      assert Strip(text) == text[a..b];
    }
  }
}

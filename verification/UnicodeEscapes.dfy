/**
 The pass that turns literal, double-escaped `\\uXXXX` sequences of an encoded
 JSON string back into characters: surrogate pairs first, then the remaining
 non-ASCII code points.
 */
module UnicodeEscapes {

  predicate IsHex(c: char) {
    '0' <= c <= '9' || 'a' <= c <= 'f' || 'A' <= c <= 'F'
  }

  function HexValue(c: char): (v: nat)
    requires IsHex(c)
    ensures v < 16
  {
    if '0' <= c <= '9' then c as nat - '0' as nat
    else if 'a' <= c <= 'f' then c as nat - 'a' as nat + 10
    else c as nat - 'A' as nat + 10
  }

  predicate Hex4At(s: string, i: nat) {
    i + 4 <= |s| && IsHex(s[i]) && IsHex(s[i + 1]) && IsHex(s[i + 2]) && IsHex(s[i + 3])
  }

  function Hex4(s: string, i: nat): (v: nat)
    requires Hex4At(s, i)
    ensures v < 0x10000
    ensures HexValue(s[i]) * 0x1000 <= v < HexValue(s[i]) * 0x1000 + 0x1000
  {
    HexValue(s[i]) * 0x1000 + HexValue(s[i + 1]) * 0x100 + HexValue(s[i + 2]) * 0x10 + HexValue(s[i + 3])
  }

  predicate Surrogate(v: int) {
    0xD800 <= v <= 0xDFFF
  }

  /** Two backslashes and a `u` at i; the pair pattern ignores case. */
  predicate EscapeHead(s: string, i: nat, anyCase: bool) {
    i + 3 <= |s| && s[i] == '\\' && s[i + 1] == '\\' && (s[i + 2] == 'u' || (anyCase && s[i + 2] == 'U'))
  }

  /** A high surrogate escape followed by a low one, at the start of s. */
  predicate PairAtStart(s: string) {
    && 14 <= |s| && EscapeHead(s, 0, true) && EscapeHead(s, 7, true)
    && Hex4At(s, 3) && HexValue(s[3]) == 0xD && 8 <= HexValue(s[4]) <= 0xB
    && Hex4At(s, 10) && HexValue(s[10]) == 0xD && 0xC <= HexValue(s[11])
  }

  /** The code point of a surrogate pair, as the substitution computes it. */
  function Combine(high: int, low: int): int {
    (high - 0xD800) * 0x400 + (low - 0xDC00) + 0x10000
  }

  /** First pass. */
  function CombinePairs(s: string): string {
    if s == "" then ""
    else if PairAtStart(s) then [Combine(Hex4(s, 3), Hex4(s, 10)) as char] + CombinePairs(s[14..])
    else [s[0]] + CombinePairs(s[1..])
  }

  predicate EscapeAtStart(s: string) {
    7 <= |s| && EscapeHead(s, 0, false) && Hex4At(s, 3)
  }

  /** Second pass: ASCII and surrogate escapes stay as they are. */
  function DecodeEscapes(s: string): string {
    if s == "" then ""
    else if EscapeAtStart(s) then
      var v := Hex4(s, 3);
      (if 0x80 <= v && !Surrogate(v) then [v as char] else s[..7]) + DecodeEscapes(s[7..])
    else [s[0]] + DecodeEscapes(s[1..])
  }

  predicate HasEscape(s: string) {
    exists i :: 0 <= i < |s| - 1 && s[i] == '\\' && s[i + 1] == 'u'
  }

  function DecodeLiteralUnicodeEscapes(s: string): string {
    if !HasEscape(s) then s else DecodeEscapes(CombinePairs(s))
  }

  // ------------------------------------------------ what it never adds

  predicate AsciiFrom(out: string, s: string) {
    forall i :: 0 <= i < |out| ==> out[i] in s || 0x80 <= out[i] as int
  }

  lemma {:induction false} CombineAddsNoAscii(s: string)
    ensures AsciiFrom(CombinePairs(s), s)
  {
    if s != "" {
      CombineAddsNoAscii(if PairAtStart(s) then s[14..] else s[1..]);
    }
  }

  lemma {:induction false} DecodeAddsNoAscii(s: string)
    ensures AsciiFrom(DecodeEscapes(s), s)
  {
    if s != "" {
      DecodeAddsNoAscii(if EscapeAtStart(s) then s[7..] else s[1..]);
    }
  }

  /** Every ASCII character of the result was in the input: in particular the
      pass never adds a carriage return, a line feed or a quote. */
  lemma PassAddsNoAscii(s: string)
    ensures AsciiFrom(DecodeLiteralUnicodeEscapes(s), s)
  {
    CombineAddsNoAscii(s);
    DecodeAddsNoAscii(CombinePairs(s));
    var m := CombinePairs(s);
    var out := DecodeEscapes(m);
    forall i | 0 <= i < |out| && out[i] as int < 0x80 ensures out[i] in s {
      var j :| 0 <= j < |m| && m[j] == out[i];
    }
  }

  // ---------------------------------------------------------- round trip

  function HexDigit(v: nat, upper: bool): (c: char)
    requires v < 16
    ensures IsHex(c) && HexValue(c) == v && c != '\\'
  {
    if v < 10 then ('0' as nat + v) as char
    else if upper then ('A' as nat + v - 10) as char
    else ('a' as nat + v - 10) as char
  }

  lemma FourDigits(v: nat)
    requires v < 0x10000
    ensures v / 0x1000 < 16
    ensures v == v / 0x1000 * 0x1000 + v / 0x100 % 0x10 * 0x100 + v / 0x10 % 0x10 * 0x10 + v % 0x10
  {
    var a := v / 0x10;
    var b := v / 0x100;
    assert b == a / 0x10 && v / 0x1000 == b / 0x10;
  }

  /** One escaped 16-bit unit. */
  function Unit(v: nat, upper: bool): (e: string)
    requires v < 0x10000
    ensures |e| == 7 && EscapeAtStart(e) && Hex4(e, 3) == v
    ensures forall i :: 2 <= i < 7 ==> e[i] != '\\'
  {
    FourDigits(v);
    var d1, d2, d3, d4 := v / 0x1000, v / 0x100 % 0x10, v / 0x10 % 0x10, v % 0x10;
    var e := ['\\', '\\', 'u', HexDigit(d1, upper), HexDigit(d2, upper), HexDigit(d3, upper), HexDigit(d4, upper)];
    assert HexValue(e[3]) == d1 && HexValue(e[4]) == d2 && HexValue(e[5]) == d3 && HexValue(e[6]) == d4;
    e
  }

  /** UTF-16 encoding of a code point beyond the basic plane (RFC 2781, section 2.1). */
  function HighUnit(v: int): int {
    0xD800 + (v - 0x10000) / 0x400
  }

  function LowUnit(v: int): int {
    0xDC00 + (v - 0x10000) % 0x400
  }

  /** The substitution's arithmetic inverts the UTF-16 encoding, and the units
      are surrogates of the right kinds. */
  lemma CombineInvertsUtf16(v: int)
    requires 0x10000 <= v <= 0x10FFFF
    ensures Combine(HighUnit(v), LowUnit(v)) == v
    ensures 0xD800 <= HighUnit(v) <= 0xDBFF && 0xDC00 <= LowUnit(v) <= 0xDFFF
  {
  }

  /** How the pass's inputs come about: non-ASCII characters written as literal
      escapes (a pair when needed), everything else as it is. */
  function Escape(t: string, upper: bool): string {
    if t == "" then ""
    else
      var v := t[0] as int;
      (if v < 0x80 then [t[0]]
       else if v < 0x10000 then Unit(v, upper)
       else Unit(HighUnit(v), upper) + Unit(LowUnit(v), upper)) + Escape(t[1..], upper)
  }

  /** The same with only the basic plane escaped: what the first pass leaves. */
  function EscapeBasic(t: string, upper: bool): string {
    if t == "" then ""
    else (if 0x80 <= t[0] as int < 0x10000 then Unit(t[0] as int, upper) else [t[0]]) + EscapeBasic(t[1..], upper)
  }

  lemma PairOfUnits(high: nat, low: nat, upper: bool, rest: string)
    requires 0xD800 <= high <= 0xDBFF && 0xDC00 <= low <= 0xDFFF
    ensures var s := Unit(high, upper) + Unit(low, upper) + rest;
            PairAtStart(s) && Hex4(s, 3) == high && Hex4(s, 10) == low && s[14..] == rest
  {
    var a, b := Unit(high, upper), Unit(low, upper);
    var s := a + b + rest;
    assert forall i :: 0 <= i < 7 ==> s[i] == a[i];
    assert forall i :: 7 <= i < 14 ==> s[i] == b[i - 7];
  }

  lemma NoHighUnit(v: nat, upper: bool, rest: string)
    requires v < 0x10000 && !Surrogate(v)
    ensures !PairAtStart(Unit(v, upper) + rest)
  {
    var u := Unit(v, upper);
    var s := u + rest;
    assert s[3] == u[3] && s[4] == u[4];
    assert HexValue(u[3]) == v / 0x1000 && HexValue(u[4]) == v / 0x100 % 0x10;
  }

  /** The first pass copies a single escaped unit that is no high surrogate. */
  lemma CombineCopiesUnit(v: nat, upper: bool, rest: string)
    requires v < 0x10000 && !Surrogate(v)
    ensures CombinePairs(Unit(v, upper) + rest) == Unit(v, upper) + CombinePairs(rest)
  {
    var u := Unit(v, upper);
    var s := u + rest;
    NoHighUnit(v, upper, rest);
    CopyOne(s);
    CopyOne(s[1..]);
    CopyRun(s[2..], 5);
    assert s[2..][5..] == rest;
    assert [s[0]] + ([s[1]] + s[2..][..5]) == u;
  }

  lemma CopyOne(s: string)
    requires s != "" && !PairAtStart(s)
    ensures CombinePairs(s) == [s[0]] + CombinePairs(s[1..])
  {
  }

  lemma {:induction false} CopyRun(s: string, n: nat)
    requires n <= |s| && forall i :: 0 <= i < n ==> s[i] != '\\'
    ensures CombinePairs(s) == s[..n] + CombinePairs(s[n..])
  {
    if n == 0 {
      assert s[n..] == s;
    } else {
      CopyRun(s[1..], n - 1);
      assert s[1..][n - 1..] == s[n..];
      assert [s[0]] + s[1..][..n - 1] == s[..n];
    }
  }

  /** The text has no escape mark of its own. */
  predicate Unmarked(t: string) {
    forall i :: 0 <= i < |t| - 2 ==>
      !(t[i] == '\\' && t[i + 1] == '\\' && (t[i + 2] == 'u' || t[i + 2] == 'U'))
  }

  lemma NoBackslashIsUnmarked(t: string)
    requires '\\' !in t
    ensures Unmarked(t)
  {
  }

  lemma UnmarkedTail(t: string)
    requires Unmarked(t) && t != ""
    ensures Unmarked(t[1..])
  {
    forall i | 0 <= i < |t[1..]| - 2
      ensures !(t[1..][i] == '\\' && t[1..][i + 1] == '\\' && (t[1..][i + 2] == 'u' || t[1..][i + 2] == 'U'))
    {
      assert t[1..][i] == t[i + 1] && t[1..][i + 1] == t[i + 2] && t[1..][i + 2] == t[i + 3];
    }
  }

  /** A plain character of such a text does not begin an escape in its escaped
      form: the escape of what follows begins with two backslashes of its own. */
  lemma PlainBeginsNoEscape(t: string, upper: bool, basic: bool, s: string)
    requires Unmarked(t) && t != "" && s == [t[0]] + (if basic then EscapeBasic else Escape)(t[1..], upper)
    ensures |s| >= 3 ==> !EscapeHead(s, 0, true)
  {
    if |s| >= 3 && s[0] == '\\' && s[1] == '\\' {
      var v := t[1] as int;
      var rest := (if basic then EscapeBasic else Escape)(t[1..], upper);
      if v < 0x80 {
        assert rest == [t[1]] + (if basic then EscapeBasic else Escape)(t[1..][1..], upper);
        assert t[1..][1..] == t[2..];
        FirstOfEscape(t[2..], upper, basic);
      } else {
        FirstOfEscape(t[1..], upper, basic);
        assert s[2] == rest[1];
      }
    }
  }

  lemma FirstOfEscape(t: string, upper: bool, basic: bool)
    ensures var e := (if basic then EscapeBasic else Escape)(t, upper);
            e != "" ==> t != "" && (e[0] == t[0] || (|e| >= 2 && e[0] == '\\' && e[1] == '\\' && 0x80 <= t[0] as int))
  {
  }

  lemma {:induction false} FirstPass(t: string, upper: bool)
    requires Unmarked(t)
    ensures CombinePairs(Escape(t, upper)) == EscapeBasic(t, upper)
  {
    if t != "" {
      UnmarkedTail(t);
      FirstPass(t[1..], upper);
      var v, rest := t[0] as int, Escape(t[1..], upper);
      if v < 0x80 {
        PlainBeginsNoEscape(t, upper, false, [t[0]] + rest);
        CopyOne([t[0]] + rest);
        assert ([t[0]] + rest)[1..] == rest;
      } else if v < 0x10000 {
        CombineCopiesUnit(v, upper, rest);
      } else {
        CombineInvertsUtf16(v);
        PairOfUnits(HighUnit(v), LowUnit(v), upper, rest);
      }
    }
  }

  lemma DecodeUnit(v: nat, upper: bool, rest: string)
    requires 0x80 <= v < 0x10000 && !Surrogate(v)
    ensures DecodeEscapes(Unit(v, upper) + rest) == [v as char] + DecodeEscapes(rest)
  {
    var u := Unit(v, upper);
    var s := u + rest;
    assert forall i :: 0 <= i < 7 ==> s[i] == u[i];
    assert Hex4(s, 3) == Hex4(u, 3);
    assert s[7..] == rest;
  }

  lemma DecodePlain(c: char, rest: string)
    requires !EscapeAtStart([c] + rest)
    ensures DecodeEscapes([c] + rest) == [c] + DecodeEscapes(rest)
  {
    assert ([c] + rest)[1..] == rest;
  }

  lemma {:induction false} SecondPass(t: string, upper: bool)
    requires Unmarked(t)
    ensures DecodeEscapes(EscapeBasic(t, upper)) == t
  {
    if t != "" {
      UnmarkedTail(t);
      SecondPass(t[1..], upper);
      var v, rest := t[0] as int, EscapeBasic(t[1..], upper);
      if 0x80 <= v < 0x10000 {
        DecodeUnit(v, upper, rest);
      } else {
        PlainBeginsNoEscape(t, upper, true, [t[0]] + rest);
        DecodePlain(t[0], rest);
      }
    }
  }

  lemma HasEscapeIn(s: string, head: string, rest: string)
    requires s == head + rest
    ensures HasEscape(rest) ==> HasEscape(s)
    ensures |head| >= 3 && head[1] == '\\' && head[2] == 'u' ==> HasEscape(s)
  {
    if HasEscape(rest) {
      var i :| 0 <= i < |rest| - 1 && rest[i] == '\\' && rest[i + 1] == 'u';
      assert s[|head| + i] == '\\' && s[|head| + i + 1] == 'u';
    }
    if |head| >= 3 && head[1] == '\\' && head[2] == 'u' {
      assert s[1] == '\\' && s[2] == 'u';
    }
  }

  lemma {:induction false} EscapedIsSeen(t: string, upper: bool)
    ensures HasEscape(Escape(t, upper)) || Escape(t, upper) == t
  {
    if t != "" {
      EscapedIsSeen(t[1..], upper);
      var v, rest := t[0] as int, Escape(t[1..], upper);
      var head := if v < 0x80 then [t[0]]
                  else if v < 0x10000 then Unit(v, upper)
                  else Unit(HighUnit(v), upper) + Unit(LowUnit(v), upper);
      HasEscapeIn(head + rest, head, rest);
    }
  }

  /** Every text without an escape mark of its own, other backslashes included, is
      recovered from its escaped form, whichever case the hexadecimal digits have. */
  lemma EscapeRoundTrip(t: string, upper: bool)
    requires Unmarked(t)
    ensures DecodeLiteralUnicodeEscapes(Escape(t, upper)) == t
  {
    EscapedIsSeen(t, upper);
    FirstPass(t, upper);
    SecondPass(t, upper);
  }

  // -------------------------------------------------------- the early exit

  /** Somewhere in s a surrogate pair is escaped, in either case. */
  ghost predicate HasPair(s: string) {
    exists i :: 0 <= i <= |s| && PairAtStart(s[i..])
  }

  lemma HasPairCons(s: string)
    requires s != ""
    ensures HasPair(s) <==> PairAtStart(s) || HasPair(s[1..])
  {
    assert s[0..] == s;
    if HasPair(s) {
      var i :| 0 <= i <= |s| && PairAtStart(s[i..]);
      assert i > 0 ==> s[1..][i - 1..] == s[i..];
    }
    if HasPair(s[1..]) {
      var i :| 0 <= i <= |s| - 1 && PairAtStart(s[1..][i..]);
      assert s[i + 1..] == s[1..][i..];
    }
  }

  /** The first pass shortens a text that has a pair and copies any other. */
  lemma {:induction false} CombineChangesIff(s: string)
    ensures |CombinePairs(s)| <= |s|
    ensures HasPair(s) ==> |CombinePairs(s)| < |s|
    ensures !HasPair(s) ==> CombinePairs(s) == s
  {
    if s == "" {
      assert forall i :: 0 <= i <= |s| ==> s[i..] == "";
    } else {
      HasPairCons(s);
      CombineChangesIff(if PairAtStart(s) then s[14..] else s[1..]);
    }
  }

  /** It brings no escape about: what it writes is not ASCII. */
  lemma {:induction false} CombineAddsNoEscape(s: string)
    requires !HasEscape(s)
    ensures !HasEscape(CombinePairs(s))
    ensures s != "" && CombinePairs(s) != "" && CombinePairs(s)[0] == 'u' ==> s[0] == 'u'
  {
    if s != "" {
      var n := if PairAtStart(s) then 14 else 1;
      var rest, out := s[n..], CombinePairs(s[n..]);
      forall i | 0 <= i < |rest| - 1 ensures !(rest[i] == '\\' && rest[i + 1] == 'u') {
        assert rest[i] == s[n + i] && rest[i + 1] == s[n + i + 1];
      }
      CombineAddsNoEscape(rest);
      forall i | 0 <= i < |CombinePairs(s)| - 1
        ensures !(CombinePairs(s)[i] == '\\' && CombinePairs(s)[i + 1] == 'u')
      {
        if i > 0 {
          assert CombinePairs(s)[i] == out[i - 1] && CombinePairs(s)[i + 1] == out[i];
        }
      }
    }
  }

  lemma {:induction false} DecodeWithoutEscape(s: string)
    requires !HasEscape(s)
    ensures DecodeEscapes(s) == s
  {
    if s != "" {
      assert !EscapeAtStart(s);
      forall i | 0 <= i < |s[1..]| - 1 ensures !(s[1..][i] == '\\' && s[1..][i + 1] == 'u') {
        assert s[1..][i] == s[i + 1] && s[1..][i + 1] == s[i + 2];
      }
      DecodeWithoutEscape(s[1..]);
    }
  }

  /** The early exit is sound exactly when the text has a lower-case escape mark
      or no escaped surrogate pair: otherwise the two passes would have changed it. */
  lemma EarlyExitIsSoundIff(s: string)
    ensures DecodeLiteralUnicodeEscapes(s) == DecodeEscapes(CombinePairs(s)) <==> HasEscape(s) || !HasPair(s)
  {
    if !HasEscape(s) {
      CombineChangesIff(s);
      CombineAddsNoEscape(s);
      DecodeWithoutEscape(CombinePairs(s));
    }
  }

  /** One unit escaped with an upper-case mark. */
  function UpperUnit(v: nat): (e: string)
    requires v < 0x10000
    ensures |e| == 7 && EscapeHead(e, 0, true) && Hex4At(e, 3) && Hex4(e, 3) == v
    ensures e[2] == 'U' && forall i :: 0 <= i < 7 ==> e[i] != 'u'
  {
    var u := Unit(v, true);
    var e := [u[0], u[1], 'U', u[3], u[4], u[5], u[6]];
    assert Hex4(e, 3) == Hex4(u, 3);
    assert forall i :: 3 <= i < 7 ==> IsHex(e[i]);
    e
  }

  lemma UpperPair(high: nat, low: nat, a: string, b: string, s: string)
    requires 0xD800 <= high <= 0xDBFF && 0xDC00 <= low <= 0xDFFF
    requires a == UpperUnit(high) && b == UpperUnit(low) && s == a + b
    ensures |s| == 14 && PairAtStart(s) && Hex4(s, 3) == high && Hex4(s, 10) == low && !HasEscape(s)
  {
    assert forall i :: 0 <= i < 7 ==> s[i] == a[i];
    assert forall i :: 7 <= i < 14 ==> s[i] == b[i - 7];
    assert Hex4(s, 3) == Hex4(a, 3) && Hex4(s, 10) == Hex4(b, 3);
  }

  /** The failing inputs exist: every supplementary character, its pair escaped
      with upper-case marks, is left as it is, although the passes decode it. */
  lemma UpperPairIsLeft(v: int, s: string)
    requires 0x10000 <= v <= 0x10FFFF
    requires s == UpperUnit(HighUnit(v)) + UpperUnit(LowUnit(v))
    ensures DecodeLiteralUnicodeEscapes(s) == s
    ensures CombinePairs(s) == [v as char] != s
  {
    CombineInvertsUtf16(v);
    UpperPair(HighUnit(v), LowUnit(v), UpperUnit(HighUnit(v)), UpperUnit(LowUnit(v)), s);
    assert s[14..] == "";
  }

  // ---------------------------------------------------------- what is kept

  /** An escape of an ASCII character or of a surrogate stays as it is. */
  lemma KeptEscape(v: nat, upper: bool, rest: string)
    requires v < 0x80 || 0xD800 <= v <= 0xDFFF
    ensures DecodeEscapes(Unit(v, upper) + rest) == Unit(v, upper) + DecodeEscapes(rest)
  {
    var u := Unit(v, upper);
    var s := u + rest;
    assert forall i :: 0 <= i < 7 ==> s[i] == u[i];
    assert Hex4(s, 3) == Hex4(u, 3);
    assert s[..7] == u && s[7..] == rest;
  }

  /** So the decoder leaves a lone one alone, between texts that have no mark. */
  lemma LoneEscapeIsKept(v: nat, upper: bool)
    requires v < 0x80 || 0xD800 <= v <= 0xDFFF
    ensures DecodeLiteralUnicodeEscapes(Unit(v, upper)) == Unit(v, upper)
  {
    var u := Unit(v, upper);
    assert u + "" == u;
    KeptEscape(v, upper, "");
    NoPairInUnit(u);
    CombineChangesIff(u);
  }

  lemma NoPairInUnit(u: string)
    requires |u| < 14
    ensures !HasPair(u)
  {
  }
}

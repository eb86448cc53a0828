/** Python's notion of white space, as str.strip and int use it. */
module Whitespace {
  predicate IsSpace(c: char) {
    '\t' <= c <= '\r' || '\U{1C}' <= c <= ' ' || c == '\U{85}' || c == '\U{A0}' || c == '\U{1680}'
    || '\U{2000}' <= c <= '\U{200A}' || c == '\U{2028}' || c == '\U{2029}' || c == '\U{202F}'
    || c == '\U{205F}' || c == '\U{3000}'
  }

  function StripLeft(s: string): string {
    if s != "" && IsSpace(s[0]) then StripLeft(s[1..]) else s
  }

  function StripRight(s: string): string {
    if s != "" && IsSpace(s[|s| - 1]) then StripRight(s[..|s| - 1]) else s
  }

  function Strip(s: string): string {
    StripRight(StripLeft(s))
  }

  lemma {:induction false} LeftCut(s: string) returns (lo: nat)
    ensures lo <= |s| && StripLeft(s) == s[lo..]
    ensures forall i :: 0 <= i < lo ==> IsSpace(s[i])
    ensures lo < |s| ==> !IsSpace(s[lo])
  {
    if s != "" && IsSpace(s[0]) {
      lo := LeftCut(s[1..]);
      lo := lo + 1;
    } else {
      lo := 0;
    }
  }

  lemma {:induction false} RightCut(s: string) returns (hi: nat)
    ensures hi <= |s| && StripRight(s) == s[..hi]
    ensures forall i :: hi <= i < |s| ==> IsSpace(s[i])
    ensures 0 < hi ==> !IsSpace(s[hi - 1])
  {
    if s != "" && IsSpace(s[|s| - 1]) {
      hi := RightCut(s[..|s| - 1]);
    } else {
      hi := |s|;
    }
  }

  /** What is stripped is white space at both ends and nothing else. */
  lemma StripCuts(s: string) returns (lo: nat, hi: nat)
    ensures lo <= hi <= |s| && Strip(s) == s[lo..hi]
    ensures forall i :: 0 <= i < |s| && !(lo <= i < hi) ==> IsSpace(s[i])
    ensures lo < hi ==> !IsSpace(s[lo]) && !IsSpace(s[hi - 1])
  {
    lo := LeftCut(s);
    var left := s[lo..];
    var kept := RightCut(left);
    hi := lo + kept;
    assert left[..kept] == s[lo..hi];
  }

  /** The white space characters, by code point. */
  lemma WhiteSpaceIs(c: char)
    ensures IsSpace(c) <==>
              c as int in {9, 10, 11, 12, 13, 28, 29, 30, 31, 32, 0x85, 0xA0, 0x1680,
                           0x2000, 0x2001, 0x2002, 0x2003, 0x2004, 0x2005, 0x2006, 0x2007, 0x2008, 0x2009, 0x200A,
                           0x2028, 0x2029, 0x202F, 0x205F, 0x3000}
  {
  }

  /** The characters of s that are not white space, in order. */
  function NonBlank(s: string): string {
    if s == "" then "" else (if IsSpace(s[0]) then "" else [s[0]]) + NonBlank(s[1..])
  }

  lemma {:induction false} NonBlankConcat(a: string, b: string)
    ensures NonBlank(a + b) == NonBlank(a) + NonBlank(b)
  {
    if a == "" {
      assert a + b == b;
    } else {
      assert (a + b)[1..] == a[1..] + b;
      NonBlankConcat(a[1..], b);
    }
  }

  lemma {:induction false} AllBlank(s: string)
    requires forall i :: 0 <= i < |s| ==> IsSpace(s[i])
    ensures NonBlank(s) == ""
  {
    if s != "" {
      AllBlank(s[1..]);
    }
  }

  /** A non-blank character has its rank among the non-blank characters. */
  lemma RankOf(s: string, i: nat)
    requires i < |s| && !IsSpace(s[i])
    ensures NonBlank(s) == NonBlank(s[..i]) + [s[i]] + NonBlank(s[i + 1..])
  {
    NonBlankConcat(s[..i], s[i..]);
    assert s == s[..i] + s[i..] && s[i..][1..] == s[i + 1..];
  }

  /** And every rank is taken somewhere. */
  lemma {:induction false} FindRank(s: string, r: nat) returns (j: nat)
    requires r < |NonBlank(s)|
    ensures j < |s| && !IsSpace(s[j]) && s[j] == NonBlank(s)[r] && NonBlank(s[..j]) == NonBlank(s)[..r]
  {
    if !IsSpace(s[0]) && r == 0 {
      j := 0;
    } else {
      j := FindRank(s[1..], if IsSpace(s[0]) then r else r - 1);
      assert s[..j + 1][1..] == s[1..][..j];
      j := j + 1;
    }
  }
}

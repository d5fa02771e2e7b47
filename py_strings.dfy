/** The few operations on Python `str` that the segmentation code relies on:
    `strip`, `lower`, the `in` test, `replace(p, "")` and `" ".join`.
    Whitespace is Python's full table; case mapping is its ASCII subset. */
module PyStrings {

  /** `c.isspace()`, which is also what `strip()` removes and what `\s`
      matches in a `str` pattern: the ASCII controls 9-13 and 28-31, the
      space, and the Unicode separators */
  predicate IsSpace(c: char) {
    || c == ' ' || '\t' <= c <= '\r' || '\U{001C}' <= c <= '\U{001F}'
    || c == '\U{0085}' || c == '\U{00A0}' || c == '\U{1680}' || '\U{2000}' <= c <= '\U{200A}'
    || c == '\U{2028}' || c == '\U{2029}' || c == '\U{202F}' || c == '\U{205F}' || c == '\U{3000}'
  }

  predicate AllSpace(s: string) {
    forall i | 0 <= i < |s| :: IsSpace(s[i])
  }

  /** Neither end of `s` is whitespace */
  predicate IsStripped(s: string) {
    s == [] || (!IsSpace(s[0]) && !IsSpace(s[|s| - 1]))
  }

  /** Index of the first non-whitespace character of `s` at or after `i`
      (`|s|` when there is none) */
  function SkipSpace(s: string, i: nat): (j: nat)
    requires i <= |s|
    ensures i <= j <= |s| && (j == |s| || !IsSpace(s[j]))
    decreases |s| - i
  {
    if i < |s| && IsSpace(s[i]) then SkipSpace(s, i + 1) else i
  }

  /** Index just past the last non-whitespace character of `s[lo..j]`
      (`lo` when there is none) */
  function TrimSpace(s: string, lo: nat, j: nat): (k: nat)
    requires lo <= j <= |s|
    ensures lo <= k <= j && (k == lo || !IsSpace(s[k - 1]))
    decreases j
  {
    if lo < j && IsSpace(s[j - 1]) then TrimSpace(s, lo, j - 1) else j
  }

  /** Where the stripped text begins in `s` */
  function StripStart(s: string): (k: nat)
    ensures k <= |s|
  {
    SkipSpace(s, 0)
  }

  /** Where the stripped text ends in `s` */
  function StripEnd(s: string): (k: nat)
    ensures StripStart(s) <= k <= |s|
  {
    TrimSpace(s, StripStart(s), |s|)
  }

  /** `s.strip()`: `s` without its leading and trailing whitespace */
  function Strip(s: string): (r: string)
    ensures IsStripped(r) && |r| <= |s|
  {
    s[StripStart(s)..StripEnd(s)]
  }

  lemma {:induction false} SkipSpaceSkipsSpace(s: string, i: nat)
    requires i <= |s|
    ensures AllSpace(s[i..SkipSpace(s, i)])
    decreases |s| - i
  {
    if i < |s| && IsSpace(s[i]) {
      SkipSpaceSkipsSpace(s, i + 1);
      var j := SkipSpace(s, i);
      assert forall k :: i + 1 <= k < j ==> s[i + 1..j][k - i - 1] == s[k];
      assert forall k :: i <= k < j ==> s[i..j][k - i] == s[k];
    }
  }

  lemma {:induction false} TrimSpaceTrimsSpace(s: string, lo: nat, j: nat)
    requires lo <= j <= |s|
    ensures AllSpace(s[TrimSpace(s, lo, j)..j])
    decreases j
  {
    if lo < j && IsSpace(s[j - 1]) {
      TrimSpaceTrimsSpace(s, lo, j - 1);
      var k := TrimSpace(s, lo, j);
      assert forall m :: k <= m < j - 1 ==> s[k..j - 1][m - k] == s[m];
      assert forall m :: k <= m < j ==> s[k..j][m - k] == s[m];
    }
  }

  /** `strip` keeps a middle slice of `s` and removes only whitespace around it */
  lemma StripBounds(s: string)
    ensures StripStart(s) + |Strip(s)| <= |s|
    ensures Strip(s) == s[StripStart(s)..StripStart(s) + |Strip(s)|]
    ensures AllSpace(s[..StripStart(s)]) && AllSpace(s[StripStart(s) + |Strip(s)|..])
  {
    var a, b := StripStart(s), StripEnd(s);
    SkipSpaceSkipsSpace(s, 0);
    assert s[..a] == s[0..a];
    TrimSpaceTrimsSpace(s, a, |s|);
    assert s[b..] == s[b..|s|];
    assert a + |Strip(s)| == b;
  }

  /** `not s or not s.strip()` */
  predicate IsBlank(s: string) {
    Strip(s) == []
  }

  lemma BlankIffAllSpace(s: string)
    ensures IsBlank(s) <==> AllSpace(s)
  {
    StripBounds(s);
    if IsBlank(s) {
      var k := StripStart(s);
      assert s == s[..k] + s[k..];
    } else {
      var r := Strip(s);
      assert s[StripStart(s)] == r[0];
    }
  }

  /** Stripping a string that has no whitespace at either end changes nothing */
  lemma StripStripped(s: string)
    requires IsStripped(s)
    ensures Strip(s) == s
  {
  }

  /** ASCII `lower()` on one character */
  function LowerChar(c: char): char {
    if 'A' <= c <= 'Z' then (c as int - 'A' as int + 'a' as int) as char else c
  }

  /** `s.lower()` */
  function Lower(s: string): string {
    seq(|s|, i requires 0 <= i < |s| => LowerChar(s[i]))
  }

  /** Lower-casing twice is lower-casing once */
  lemma LowerIdempotent(s: string)
    ensures Lower(Lower(s)) == Lower(s)
  {
  }

  /** `pat` occurs in `s` starting at index `i` */
  predicate OccursAt(s: string, pat: string, i: int) {
    0 <= i && i + |pat| <= |s| && s[i..i + |pat|] == pat
  }

  /** Python's `pat in s` */
  function Contains(s: string, pat: string): bool
    decreases |s|
  {
    if pat <= s then true
    else if s == [] then false
    else Contains(s[1..], pat)
  }

  lemma {:induction false} OccursContains(s: string, pat: string, i: int)
    requires OccursAt(s, pat, i)
    ensures Contains(s, pat)
    decreases i
  {
    if i == 0 {
      assert s[..|pat|] == pat;
    } else if !(pat <= s) {
      assert s[1..][i - 1..i - 1 + |pat|] == s[i..i + |pat|];
      OccursContains(s[1..], pat, i - 1);
    }
  }

  lemma {:induction false} ContainsOccurs(s: string, pat: string) returns (i: nat)
    requires Contains(s, pat)
    ensures OccursAt(s, pat, i)
    decreases |s|
  {
    if pat <= s {
      i := 0;
      assert s[..|pat|] == pat;
    } else {
      var j := ContainsOccurs(s[1..], pat);
      i := j + 1;
      assert s[i..i + |pat|] == s[1..][j..j + |pat|];
    }
  }

  /** `pat in s` holds exactly when `pat` occurs at some index of `s` */
  lemma ContainsIffOccurs(s: string, pat: string)
    ensures Contains(s, pat) <==> exists i :: OccursAt(s, pat, i)
  {
    if Contains(s, pat) {
      var i := ContainsOccurs(s, pat);
    } else {
      forall i | OccursAt(s, pat, i)
        ensures false
      {
        OccursContains(s, pat, i);
      }
    }
  }

  /** `s.replace(pat, "")`: every non-overlapping occurrence of `pat`, found
      scanning left to right, is removed (an empty `pat` changes nothing) */
  function RemoveAll(s: string, pat: string): (r: string)
    ensures |r| <= |s|
    ensures !Contains(s, pat) ==> r == s
    decreases |s|
  {
    if pat == [] || s == [] then s
    else if pat <= s then RemoveAll(s[|pat|..], pat)
    else [s[0]] + RemoveAll(s[1..], pat)
  }

  /** `" ".join(ss)` */
  function Join(ss: seq<string>): string {
    if |ss| == 0 then ""
    else if |ss| == 1 then ss[0]
    else ss[0] + " " + Join(ss[1..])
  }

  /** Total number of characters in `ss` */
  function TotalLength(ss: seq<string>): nat {
    if ss == [] then 0 else |ss[0]| + TotalLength(ss[1..])
  }

  /** The joined text holds every piece and one separator between each pair */
  lemma {:induction false} JoinLength(ss: seq<string>)
    requires ss != []
    ensures |Join(ss)| == TotalLength(ss) + |ss| - 1
  {
    if |ss| > 1 {
      JoinLength(ss[1..]);
    }
  }

  /** Joining two non-empty lists is joining each and separating the two by one space */
  lemma {:induction false} JoinAppend(a: seq<string>, b: seq<string>)
    requires a != [] && b != []
    ensures Join(a + b) == Join(a) + " " + Join(b)
  {
    if |a| == 1 {
      assert (a + b)[1..] == b;
    } else {
      JoinAppend(a[1..], b);
      assert (a + b)[1..] == a[1..] + b;
    }
  }

  /** Joining pieces that are stripped and not empty gives a non-empty stripped text */
  lemma {:induction false} JoinStripped(ss: seq<string>)
    requires ss != []
    requires forall i :: 0 <= i < |ss| ==> ss[i] != [] && IsStripped(ss[i])
    ensures Join(ss) != [] && IsStripped(Join(ss))
    ensures Join(ss)[0] == ss[0][0] && Join(ss)[|Join(ss)| - 1] == Last(ss)[|Last(ss)| - 1]
  {
    if |ss| > 1 {
      var rest := ss[1..];
      assert forall i :: 0 <= i < |rest| ==> rest[i] == ss[i + 1];
      JoinStripped(rest);
      var r := Join(rest);
      assert Join(ss) == ss[0] + " " + r;
      assert Last(rest) == Last(ss);
      assert (ss[0] + " " + r)[0] == ss[0][0];
      assert (ss[0] + " " + r)[|ss[0] + " " + r| - 1] == r[|r| - 1];
    }
  }

  function Last<T>(s: seq<T>): T
    requires s != []
  {
    s[|s| - 1]
  }
}

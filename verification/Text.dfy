/** Strings as the Python code uses them: forward scans, find, startswith, lower-casing. */
module Text {

  predicate Agree(s: string, t: string, k: nat) {
    k <= |s| && k <= |t| && s[..k] == t[..k]
  }

  /** The first index at or after `j` whose character fails `p`, or `|s|`. */
  function SkipWhile(s: string, j: nat, p: char -> bool): (r: nat)
    requires j <= |s|
    ensures j <= r <= |s|
    ensures forall i :: j <= i < r ==> p(s[i])
    ensures r < |s| ==> !p(s[r])
    decreases |s| - j
  {
    if j < |s| && p(s[j]) then SkipWhile(s, j + 1, p) else j
  }

  /** A scan that stops before `k` stops at the same place in every string agreeing on the first `k` characters. */
  lemma SkipWhileAgree(s: string, t: string, k: nat, j: nat, p: char -> bool)
    requires Agree(s, t, k) && j <= |s| && j <= |t|
    requires SkipWhile(s, j, p) < k
    ensures SkipWhile(t, j, p) == SkipWhile(s, j, p)
    decreases |s| - j
  {
    assert j < k && s[j] == s[..k][j] == t[..k][j] == t[j];
    if p(s[j]) {
      SkipWhileAgree(s, t, k, j + 1, p);
    }
  }

  predicate OccursAt(s: string, pat: string, i: nat) {
    i + |pat| <= |s| && s[i..i + |pat|] == pat
  }

  /** Python's `s.find(pat, from)`. */
  function Find(s: string, pat: string, from: nat): (r: int)
    requires from <= |s|
    ensures r == -1 || (from <= r && OccursAt(s, pat, r))
    ensures forall i: nat :: from <= i && (r == -1 || i < r) ==> !OccursAt(s, pat, i)
    decreases |s| - from
  {
    if OccursAt(s, pat, from) then from
    else if from < |s| then Find(s, pat, from + 1)
    else -1
  }

  lemma OccursAgree(s: string, t: string, k: nat, pat: string, i: nat)
    requires Agree(s, t, k) && i + |pat| <= k
    ensures OccursAt(s, pat, i) == OccursAt(t, pat, i)
  {
    assert s[i..i + |pat|] == s[..k][i..i + |pat|];
    assert t[i..i + |pat|] == t[..k][i..i + |pat|];
  }

  lemma FindAgree(s: string, t: string, k: nat, pat: string, from: nat)
    requires Agree(s, t, k) && from <= |s| && from <= |t|
    requires 0 <= Find(s, pat, from) && Find(s, pat, from) + |pat| <= k
    ensures Find(t, pat, from) == Find(s, pat, from)
  {
    var r := Find(s, pat, from);
    forall i: nat | from <= i <= r
      ensures OccursAt(s, pat, i) == OccursAt(t, pat, i)
    {
      OccursAgree(s, t, k, pat, i);
    }
    var q := Find(t, pat, from);
    assert OccursAt(t, pat, r);
  }

  function LowerChar(c: char): char {
    if 'A' <= c <= 'Z' then ((c as int) + 32) as char else c
  }

  function Lower(s: string): (r: string)
    ensures |r| == |s|
    ensures forall i :: 0 <= i < |s| ==> r[i] == LowerChar(s[i])
  {
    seq(|s|, i requires 0 <= i < |s| => LowerChar(s[i]))
  }

  lemma LowerAgree(s: string, t: string, k: nat)
    requires Agree(s, t, k)
    ensures Agree(Lower(s), Lower(t), k)
  {
    forall i | 0 <= i < k
      ensures Lower(s)[i] == Lower(t)[i]
    {
      assert s[i] == s[..k][i] == t[..k][i] == t[i];
    }
  }

  lemma AgreeChar(s: string, t: string, k: nat, i: nat)
    requires Agree(s, t, k) && i < k
    ensures s[i] == t[i]
  {
    assert s[i] == s[..k][i] == t[..k][i] == t[i];
  }

  lemma AgreeSlice(s: string, t: string, k: nat, i: nat, j: nat)
    requires Agree(s, t, k) && i <= j <= k
    ensures s[i..j] == t[i..j]
  {
    assert s[i..j] == s[..k][i..j];
    assert t[i..j] == t[..k][i..j];
  }
}

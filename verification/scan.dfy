/** Character-level vocabulary for the fixed patterns the classifier scans for. */
module Scan {

  /** The characters `\d` matches. */
  predicate IsDigit(c: char) {
    '0' <= c <= '9'
  }

  /** `w` occurs in `s` starting at index `i`. */
  predicate HasAt(s: string, i: nat, w: string) {
    i + |w| <= |s| && s[i..i + |w|] == w
  }

  /** Substring search, as `strings.Contains`. */
  predicate Contains(s: string, w: string) {
    exists i: nat | i <= |s| :: HasAt(s, i, w)
  }

  /** Every character in `s[lo..hi]` is a digit. */
  predicate AllDigits(s: string, lo: nat, hi: nat)
    requires lo <= hi <= |s|
  {
    forall k :: lo <= k < hi ==> IsDigit(s[k])
  }

  /** No character in `s[lo..hi]` is `c`. */
  predicate Avoids(s: string, lo: nat, hi: nat, c: char)
    requires lo <= hi <= |s|
  {
    forall k :: lo <= k < hi ==> s[k] != c
  }

  /** The end of the run of digits that starts at `k`. */
  function DigitEnd(s: string, k: nat): (e: nat)
    requires k <= |s|
    ensures k <= e <= |s| && AllDigits(s, k, e)
    ensures e < |s| ==> !IsDigit(s[e])
    decreases |s| - k
  {
    if k < |s| && IsDigit(s[k]) then DigitEnd(s, k + 1) else k
  }

  /** The first index at or after `k` holding `c`, or `|s|` when there is none. */
  function StopAt(s: string, k: nat, c: char): (e: nat)
    requires k <= |s|
    ensures k <= e <= |s| && Avoids(s, k, e, c)
    ensures e < |s| ==> s[e] == c
    decreases |s| - k
  {
    if k < |s| && s[k] != c then StopAt(s, k + 1, c) else k
  }

  /** StopAt finds the first `c`. */
  lemma {:induction false} StopAtIs(s: string, k: nat, e: nat, c: char)
    requires k <= e < |s| && Avoids(s, k, e, c) && s[e] == c
    ensures StopAt(s, k, c) == e
    decreases e - k
  {
    if k < e {
      StopAtIs(s, k + 1, e, c);
    }
  }

  /** Without `c`, StopAt runs to the end. */
  lemma {:induction false} StopAtAbsent(s: string, k: nat, c: char)
    requires k <= |s| && c !in s
    ensures StopAt(s, k, c) == |s|
    decreases |s| - k
  {
    if k < |s| {
      assert s[k] in s;
      StopAtAbsent(s, k + 1, c);
    }
  }

  lemma HasAtChar(s: string, i: nat, w: string, k: nat)
    requires HasAt(s, i, w) && k < |w|
    ensures s[i + k] == w[k]
  {
    assert s[i..i + |w|][k] == s[i + k];
  }

  lemma NotAtWhenFirstDiffers(s: string, i: nat, w: string)
    requires w != [] && (i < |s| ==> s[i] != w[0])
    ensures !HasAt(s, i, w)
  {
    if HasAt(s, i, w) {
      HasAtChar(s, i, w, 0);
    }
  }

  /** A word cannot occur in a text that lacks one of its characters. */
  lemma {:induction false} MissingCharNoOccurrence(s: string, w: string, k: nat)
    requires k < |w| && w[k] !in s
    ensures !Contains(s, w)
  {
    forall i: nat | i <= |s|
      ensures !HasAt(s, i, w)
    {
      if HasAt(s, i, w) {
        HasAtChar(s, i, w, k);
      }
    }
  }
}

/**
 * The one JavaScript string operation the deploy script relies on:
 * `String.prototype.replace` called with a string pattern, which replaces
 * only the FIRST occurrence of the pattern (found as `indexOf` finds it).
 */
module JsString {
  import opened Wrappers

  /** `pat` occurs in `s` starting at index `j`. */
  predicate OccursAt(s: string, pat: string, j: nat) {
    j + |pat| <= |s| && s[j..j + |pat|] == pat
  }

  /**
   * The first index at or after `from` where `pat` occurs; from 0 this is
   * `s.indexOf(pat)`, the only way it is used.
   */
  function IndexOfFrom(s: string, pat: string, from: nat): (r: Option<nat>)
    ensures r.Some? ==> from <= r.value && OccursAt(s, pat, r.value)
    ensures r.Some? ==> forall j :: from <= j < r.value ==> !OccursAt(s, pat, j)
    ensures r.None? ==> forall j :: from <= j ==> !OccursAt(s, pat, j)
    decreases |s| - from
  {
    if from + |pat| > |s| then None
    else if s[from..from + |pat|] == pat then Some(from)
    else IndexOfFrom(s, pat, from + 1)
  }

  function IndexOf(s: string, pat: string): Option<nat> {
    IndexOfFrom(s, pat, 0)
  }

  /** `s.replace(pat, rep)` for a string `pat`: only the first occurrence is replaced. */
  function ReplaceFirst(s: string, pat: string, rep: string): (r: string)
    ensures (forall j :: !OccursAt(s, pat, j)) ==> r == s
    ensures (exists j :: OccursAt(s, pat, j)) ==> |r| == |s| - |pat| + |rep|
  {
    match IndexOf(s, pat)
    case None => s
    case Some(i) => s[..i] + rep + s[i + |pat|..]
  }

  /** With no occurrence of `pat`, `replace` leaves the string as it is. */
  lemma ReplaceFirstAbsent(s: string, pat: string, rep: string)
    requires forall j :: !OccursAt(s, pat, j)
    ensures ReplaceFirst(s, pat, rep) == s
  {
  }

  /**
   * With an occurrence, `replace` cuts the first one out and splices `rep` in;
   * splicing `pat` back in at the same place gives the original string.
   */
  lemma ReplaceFirstPresent(s: string, pat: string, rep: string, k: nat)
    requires OccursAt(s, pat, k)
    ensures exists i: nat :: i <= k && OccursAt(s, pat, i) &&
                        ReplaceFirst(s, pat, rep) == s[..i] + rep + s[i + |pat|..]
    ensures |ReplaceFirst(s, pat, rep)| == |s| - |pat| + |rep|
  {
    var i := IndexOf(s, pat).value;
    assert i <= k;
    assert s == s[..i] + pat + s[i + |pat|..];
  }
}

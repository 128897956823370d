/**
 * `isSafari`, the check that picks the blur strategy: lower-case the
 * user-agent string, then ask for "safari" and no "chrome" with
 * String.prototype.indexOf.
 */
module UserAgent {

  /** ASCII lower-casing of one character, as toLowerCase does on A-Z. */
  function LowerChar(c: char): char
  {
    if 'A' <= c <= 'Z' then (c as int + 32) as char else c
  }

  /** `s.toLowerCase()`, on ASCII letters. */
  function ToLower(s: string): string
  {
    seq(|s|, i requires 0 <= i < |s| => LowerChar(s[i]))
  }

  /** `pat` occurs in `s` starting at index k. */
  predicate OccursAt(s: string, pat: string, k: int)
  {
    0 <= k && k + |pat| <= |s| && s[k..k + |pat|] == pat
  }

  /** `pat` occurs somewhere in `s`: the reference meaning of "contains". */
  ghost predicate Contains(s: string, pat: string)
  {
    exists k :: OccursAt(s, pat, k)
  }

  /** The search of indexOf from position `from` on. */
  function IndexFrom(s: string, pat: string, from: nat): (r: int)
    requires from <= |s|
    decreases |s| - from
    ensures r == -1 || (from <= r && OccursAt(s, pat, r))
    ensures r == -1 ==> forall k :: from <= k ==> !OccursAt(s, pat, k)
    ensures r != -1 ==> forall k :: from <= k < r ==> !OccursAt(s, pat, k)
  {
    if from + |pat| > |s| then -1
    else if s[from..from + |pat|] == pat then from
    else IndexFrom(s, pat, from + 1)
  }

  /**
   * `s.indexOf(pat)`: the first index at which `pat` occurs, or -1 when it
   * occurs nowhere.
   */
  function IndexOf(s: string, pat: string): (r: int)
    ensures r == -1 <==> !Contains(s, pat)
    ensures r != -1 ==> OccursAt(s, pat, r) && forall k :: 0 <= k < r ==> !OccursAt(s, pat, k)
  {
    IndexFrom(s, pat, 0)
  }

  /** isSafari() on the user-agent string `ua`. */
  function IsSafari(ua: string): bool
  {
    var lower := ToLower(ua);
    IndexOf(lower, "safari") != -1 && IndexOf(lower, "chrome") == -1
  }

  /** isSafari holds exactly when the lower-cased agent contains "safari" and does not contain "chrome". */
  lemma IsSafariMeaning(ua: string)
    ensures IsSafari(ua) <==> Contains(ToLower(ua), "safari") && !Contains(ToLower(ua), "chrome")
  {
  }

  /** Lower-casing commutes with taking a slice. */
  lemma ToLowerSlice(s: string, i: nat, j: nat)
    requires i <= j <= |s|
    ensures ToLower(s)[i..j] == ToLower(s[i..j])
  {
  }

  /** Lower-casing keeps every occurrence: the lowered pattern occurs, at the same place, in the lowered text. */
  lemma ContainsUnderLower(s: string, pat: string, k: int)
    requires OccursAt(s, pat, k)
    ensures OccursAt(ToLower(s), ToLower(pat), k)
  {
    ToLowerSlice(s, k, k + |pat|);
  }

  /** A user agent holding "chrome" in any mix of cases (say "Chrome" or "CHROME") is never taken for Safari. */
  lemma ChromeInAnyCaseIsNotSafari(ua: string, chrome: string)
    requires Contains(ua, chrome) && ToLower(chrome) == "chrome"
    ensures !IsSafari(ua)
  {
    var k :| OccursAt(ua, chrome, k);
    ContainsUnderLower(ua, chrome, k);
    assert OccursAt(ToLower(ua), "chrome", k);
  }

  /** Lower-casing twice is lower-casing once. */
  lemma ToLowerIdempotent(s: string)
    ensures ToLower(ToLower(s)) == ToLower(s)
  {
  }

  /** Lower-casing the agent before the call changes nothing. */
  lemma IsSafariIgnoresPreLowering(ua: string)
    ensures IsSafari(ToLower(ua)) == IsSafari(ua)
  {
    ToLowerIdempotent(ua);
  }
}

/**
 * The string operations the validator relies on, with JavaScript's meaning:
 * `String.prototype.indexOf`, `String.prototype.replace` with a string
 * pattern (first occurrence only) and `String.prototype.endsWith`.
 */
module Text {
  import opened Common

  /** `pat` occurs in `s` starting at index `i`. */
  predicate OccursAt(s: string, pat: string, i: int) {
    0 <= i && i + |pat| <= |s| && s[i..i + |pat|] == pat
  }

  /** `s` ends with `suffix` (`s.endsWith(suffix)`). */
  predicate EndsWith(s: string, suffix: string): (e: bool)
    ensures e <==> |suffix| <= |s| && forall i :: 0 <= i < |suffix| ==> s[|s| - |suffix| + i] == suffix[i]
  {
    |suffix| <= |s| && s[|s| - |suffix|..] == suffix
  }

  lemma OccursAtShift(s: string, pat: string, k: int)
    requires |s| > 0 && 0 <= k
    ensures OccursAt(s[1..], pat, k) <==> OccursAt(s, pat, k + 1)
  {
    if 0 <= k && k + |pat| <= |s| - 1 {
      assert s[1..][k..k + |pat|] == s[k + 1..k + 1 + |pat|];
    }
  }

  /** The first index at which `pat` occurs in `s`, if any. */
  function IndexOf(s: string, pat: string): (r: Option<nat>)
    ensures r.Some? ==> OccursAt(s, pat, r.value)
    ensures r.Some? ==> forall j :: 0 <= j < r.value ==> !OccursAt(s, pat, j)
    ensures r.None? ==> forall j :: !OccursAt(s, pat, j)
    decreases |s|
  {
    if |s| < |pat| then None
    else if s[..|pat|] == pat then Some(0)
    else
      var rest := IndexOf(s[1..], pat);
      assert !OccursAt(s, pat, 0);
      assert forall j :: 1 <= j ==> (OccursAt(s, pat, j) <==> OccursAt(s[1..], pat, j - 1)) by {
        forall j | 1 <= j ensures OccursAt(s, pat, j) <==> OccursAt(s[1..], pat, j - 1) {
          OccursAtShift(s, pat, j - 1);
        }
      }
      match rest
      case Some(k) => Some(k + 1)
      case None => None
  }

  /** `pat` occurs in `s` at `i` and nowhere before it. */
  predicate FirstAt(s: string, pat: string, i: nat) {
    OccursAt(s, pat, i) && forall j :: 0 <= j < i ==> !OccursAt(s, pat, j)
  }

  /** The first occurrence is the one `IndexOf` finds. */
  lemma IndexOfFirst(s: string, pat: string, i: nat)
    requires FirstAt(s, pat, i)
    ensures IndexOf(s, pat) == Some(i)
  {
  }

  /** Text appended after an occurrence does not change it. */
  lemma OccursAtExtend(s: string, extra: string, pat: string, k: int)
    requires k + |pat| <= |s|
    ensures OccursAt(s + extra, pat, k) <==> OccursAt(s, pat, k)
  {
    if 0 <= k {
      assert (s + extra)[k..k + |pat|] == s[k..k + |pat|];
    }
  }

  /** Text prepended before `s` shifts its occurrences by its length. */
  lemma OccursAtBehind(p: string, s: string, pat: string, k: nat)
    ensures OccursAt(p + s, pat, |p| + k) <==> OccursAt(s, pat, k)
  {
    if k + |pat| <= |s| {
      assert (p + s)[|p| + k..|p| + k + |pat|] == s[k..k + |pat|];
    }
  }

  /**
   * `s.replace(pat, rep)` for a string pattern: only the first occurrence of
   * `pat` is replaced (see `ReplaceFirstSpec`). A replacement string holding
   * `$` patterns (`$&`, `$$`, ...) would be expanded by JavaScript; this
   * model inserts `rep` literally, which is the same for the constant
   * replacements the validator uses, none of which contains `$`.
   */
  function ReplaceFirst(s: string, pat: string, rep: string): string {
    match IndexOf(s, pat)
    case None => s
    case Some(i) => s[..i] + rep + s[i + |pat|..]
  }

  /**
   * Without an occurrence of `pat`, `s` comes back unchanged; otherwise the
   * first occurrence, and only it, is replaced by `rep`.
   */
  lemma ReplaceFirstSpec(s: string, pat: string, rep: string)
    ensures (forall i :: !OccursAt(s, pat, i)) ==> ReplaceFirst(s, pat, rep) == s
    ensures forall i :: OccursAt(s, pat, i) && (forall j :: 0 <= j < i ==> !OccursAt(s, pat, j)) ==>
      ReplaceFirst(s, pat, rep) == s[..i] + rep + s[i + |pat|..]
  {
  }

  /** Occurrences in `t + rest` ending inside `t` are those of `t`, shifted by `|p|`. */
  lemma {:induction false} OccursBehind(p: string, t: string, rest: string, pat: string, k: nat)
    requires k + |pat| <= |t|
    ensures OccursAt(p + (t + rest), pat, |p| + k) <==> OccursAt(t, pat, k)
  {
    OccursAtBehind(p, t + rest, pat, k);
    OccursAtExtend(t, rest, pat, k);
  }

  /**
   * The first occurrence in `t`, behind a prefix `p` in which no occurrence
   * starts, is the first occurrence in `p + (t + rest)`.
   */
  lemma {:induction false} FirstBehind(p: string, t: string, rest: string, pat: string, i: nat)
    requires FirstAt(t, pat, i)
    requires forall j :: 0 <= j < |p| ==> !OccursAt(p + (t + rest), pat, j)
    ensures FirstAt(p + (t + rest), pat, |p| + i)
  {
    forall j | |p| <= j < |p| + i ensures !OccursAt(p + (t + rest), pat, j) {
      OccursBehind(p, t, rest, pat, j - |p|);
    }
    OccursBehind(p, t, rest, pat, i);
  }

  /** Replacing an occurrence known to be the first one. */
  lemma ReplaceFirstAt(s: string, pat: string, rep: string, a: string, b: string)
    requires s == a + pat + b && FirstAt(s, pat, |a|)
    ensures ReplaceFirst(s, pat, rep) == a + rep + b
  {
    IndexOfFirst(s, pat, |a|);
    assert s[..|a|] == a;
    assert s[|a| + |pat|..] == b;
  }

  /** The decimal text of `n`, as a template literal renders an integer. */
  function Decimal(n: nat): string {
    if n < 10 then [Digit(n)] else Decimal(n / 10) + [Digit(n % 10)]
  }

  function Digit(d: nat): char
    requires d < 10
  {
    "0123456789"[d]
  }
}

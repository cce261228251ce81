/** The two `String.prototype` operations the adapter relies on: finding the
    first occurrence of a substring (which `split(x)[0]` and `replace(x, y)`
    both build on) and `replace` with a string pattern, which rewrites only
    the FIRST occurrence.
 */
module Strings {
  import opened Nullish

  /** `pat` occurs in `s` starting at index `k`. */
  ghost predicate OccursAt(s: string, pat: string, k: int) {
    0 <= k && k + |pat| <= |s| && s[k..k + |pat|] == pat
  }

  /** `indexOf(pat, from)`: the first occurrence of `pat` in `s` at or after `from`. */
  function IndexFrom(s: string, pat: string, from: nat): (r: Option<nat>)
    ensures r.Some? ==> from <= r.value && OccursAt(s, pat, r.value)
    ensures r.Some? ==> forall j :: from <= j < r.value ==> !OccursAt(s, pat, j)
    ensures r.None? ==> forall j :: from <= j ==> !OccursAt(s, pat, j)
    decreases |s| - from
  {
    if from + |pat| > |s| then None
    else if s[from..from + |pat|] == pat then Some(from)
    else IndexFrom(s, pat, from + 1)
  }

  /** `indexOf(pat)`: the index of the first occurrence of `pat` in `s`, if any. */
  function IndexOf(s: string, pat: string): (r: Option<nat>)
    ensures r.Some? ==> OccursAt(s, pat, r.value)
    ensures r.Some? ==> forall j :: 0 <= j < r.value ==> !OccursAt(s, pat, j)
    ensures r.None? ==> forall j :: !OccursAt(s, pat, j)
  {
    IndexFrom(s, pat, 0)
  }

  /** For a one-character pattern an occurrence is just a position holding that character. */
  lemma OccursAtChar(s: string, c: char)
    ensures forall j :: OccursAt(s, [c], j) <==> 0 <= j < |s| && s[j] == c
  {
    forall j | 0 <= j < |s|
      ensures OccursAt(s, [c], j) <==> s[j] == c
    {
      assert s[j..j + 1] == [s[j]];
    }
  }

  /** `s.replace(pat, rep)` with a string pattern (`rep` taken literally:
      the replacements used here contain no `$`). */
  function ReplaceFirst(s: string, pat: string, rep: string): (r: string)
    ensures IndexOf(s, pat).None? ==> r == s
    ensures IndexOf(s, pat).Some? ==>
              var k := IndexOf(s, pat).value;
              |r| == |s| - |pat| + |rep| && r[..k] == s[..k] &&
              OccursAt(r, rep, k) && r[k + |rep|..] == s[k + |pat|..]
  {
    match IndexOf(s, pat)
    case None => s
    case Some(k) => s[..k] + rep + s[k + |pat|..]
  }

  /** An occurrence with none before it is the one `IndexOf` reports. */
  lemma IsIndexOf(s: string, pat: string, k: int)
    requires OccursAt(s, pat, k)
    requires forall j :: 0 <= j < k ==> !OccursAt(s, pat, j)
    ensures IndexOf(s, pat) == Some(k)
  {
    var r := IndexOf(s, pat);
    assert r.Some?;
    assert !(r.value < k);
    assert !(r.value > k);
  }

  /** `replace` rewrites the first occurrence of the pattern, and only that one. */
  lemma ReplaceFirstAtFirstOccurrence(s: string, pat: string, rep: string, k: int)
    requires OccursAt(s, pat, k)
    requires forall j :: 0 <= j < k ==> !OccursAt(s, pat, j)
    ensures ReplaceFirst(s, pat, rep) == s[..k] + rep + s[k + |pat|..]
  {
    IsIndexOf(s, pat, k);
  }

  /** A string without an occurrence of the pattern is left unchanged. */
  lemma ReplaceFirstWithoutOccurrence(s: string, pat: string, rep: string)
    requires forall j :: !OccursAt(s, pat, j)
    ensures ReplaceFirst(s, pat, rep) == s
  {
  }

  /** An occurrence inside `s` is still an occurrence inside `s + t`, at the same index. */
  lemma OccursInPrefix(s: string, t: string, pat: string, k: int)
    requires k + |pat| <= |s|
    ensures OccursAt(s + t, pat, k) <==> OccursAt(s, pat, k)
  {
    if 0 <= k {
      assert (s + t)[k..k + |pat|] == s[k..k + |pat|];
    }
  }

  /** Appending to a string that already contains `pat` does not move the
      first occurrence of `pat`. */
  lemma FirstOccurrenceSurvivesAppend(s: string, t: string, pat: string)
    requires IndexOf(s, pat).Some?
    ensures IndexOf(s + t, pat) == IndexOf(s, pat)
  {
    var k := IndexOf(s, pat).value;
    OccursInPrefix(s, t, pat, k);
    forall j | 0 <= j < k
      ensures !OccursAt(s + t, pat, j)
    {
      OccursInPrefix(s, t, pat, j);
    }
    IsIndexOf(s + t, pat, k);
  }

  /** Replacing a slice that lies inside `s` commutes with appending `t`. */
  lemma SpliceAppend(s: string, t: string, k: nat, n: nat, rep: string)
    requires k + n <= |s|
    ensures (s + t)[..k] + rep + (s + t)[k + n..] == (s[..k] + rep + s[k + n..]) + t
  {
    assert (s + t)[..k] == s[..k];
    assert (s + t)[k + n..] == s[k + n..] + t;
  }

  /** When `pat` already occurs in `s`, `replace` on `s + t` rewrites inside
      `s` and keeps `t`. */
  lemma ReplaceFirstKeepsSuffix(s: string, t: string, pat: string, rep: string)
    requires IndexOf(s, pat).Some?
    ensures ReplaceFirst(s + t, pat, rep) == ReplaceFirst(s, pat, rep) + t
  {
    FirstOccurrenceSurvivesAppend(s, t, pat);
    SpliceAppend(s, t, IndexOf(s, pat).value, |pat|, rep);
  }
}

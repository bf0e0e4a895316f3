/** The string tests the plugin performs: suffix tests (a regex anchored by `$`)
    and substring tests (`String.prototype.includes`, or a regex that is one
    literal). */
module Text {

  /** `suffix` ends `s`. */
  predicate EndsWith(s: string, suffix: string) {
    |suffix| <= |s| && s[|s| - |suffix|..] == suffix
  }

  /** `pat` occurs in `text` starting at position `i`. */
  ghost predicate OccursAt(text: string, pat: string, i: int) {
    0 <= i && i + |pat| <= |text| && text[i..i + |pat|] == pat
  }

  /** Reference meaning of a substring test: some position holds `pat`. */
  ghost predicate Contains(text: string, pat: string) {
    exists i :: OccursAt(text, pat, i)
  }

  /** A failed match at the first position moves the search one place on. */
  lemma ContainsPastHead(text: string, pat: string)
    requires |text| > 0 && !OccursAt(text, pat, 0)
    ensures Contains(text, pat) <==> Contains(text[1..], pat)
  {
    if Contains(text, pat) {
      var i :| OccursAt(text, pat, i);
      assert i > 0;
      assert text[1..][i - 1..i - 1 + |pat|] == text[i..i + |pat|];
      assert OccursAt(text[1..], pat, i - 1);
    }
    if Contains(text[1..], pat) {
      var i :| OccursAt(text[1..], pat, i);
      assert text[i + 1..i + 1 + |pat|] == text[1..][i..i + |pat|];
      assert OccursAt(text, pat, i + 1);
    }
  }

  /** The substring search the plugin runs: `text.includes(pat)`, equivalently
      `/pat/.test(text)` for a pattern without metacharacters. */
  function Includes(text: string, pat: string): (found: bool)
    ensures found <==> Contains(text, pat)
    decreases |text|
  {
    if |text| < |pat| then
      false
    else if text[..|pat|] == pat then
      assert OccursAt(text, pat, 0);
      true
    else
      ContainsPastHead(text, pat);
      Includes(text[1..], pat)
  }

  /** An occurrence survives putting text around it. */
  lemma ContainsInContext(before: string, middle: string, after: string, pat: string)
    requires Contains(middle, pat)
    ensures Contains(before + middle + after, pat)
  {
    var i :| OccursAt(middle, pat, i);
    var whole := before + middle + after;
    assert whole[|before| + i..|before| + i + |pat|] == middle[i..i + |pat|];
    assert OccursAt(whole, pat, |before| + i);
  }

  /** Every string contains itself. */
  lemma ContainsSelf(pat: string)
    ensures Contains(pat, pat)
  {
    assert pat[0..|pat|] == pat;
    assert OccursAt(pat, pat, 0);
  }
}

/**
 * Case-insensitive substring search, as Kotlin's `String.contains(other, ignoreCase = true)`
 * is used by both repositories' filters. Characters are compared after an ASCII case fold.
 */
module Text {

  /** Folds an ASCII capital letter to its small letter; every other character is unchanged. */
  function Fold(c: char): (d: char)
    ensures 'A' <= c <= 'Z' ==> d != c && 'a' <= d <= 'z'
    ensures !('A' <= c <= 'Z') ==> d == c
  {
    if 'A' <= c <= 'Z' then (c as int - 'A' as int + 'a' as int) as char else c
  }

  /** Two characters are equal up to case. */
  predicate SameIgnoringCase(a: char, b: char) {
    Fold(a) == Fold(b)
  }

  /** `needle` occurs in `hay` at offset `i`, comparing characters up to case. */
  ghost predicate OccursAt(hay: string, needle: string, i: int) {
    0 <= i && i + |needle| <= |hay| &&
    forall k :: 0 <= k < |needle| ==> SameIgnoringCase(hay[i + k], needle[k])
  }

  /** `hay` starts with `prefix`, up to case. */
  function StartsWithIgnoreCase(hay: string, prefix: string): (r: bool)
    ensures r <==> OccursAt(hay, prefix, 0)
  {
    if prefix == [] then true
    else if hay == [] then false
    else
      assert forall k :: 1 <= k < |prefix| ==> prefix[1..][k - 1] == prefix[k];
      assert forall k :: 1 <= k < |hay| ==> hay[1..][k - 1] == hay[k];
      SameIgnoringCase(hay[0], prefix[0]) && StartsWithIgnoreCase(hay[1..], prefix[1..])
  }

  /**
   * `hay.contains(needle, ignoreCase = true)`: some offset of `hay` starts an occurrence of
   * `needle` up to case. The empty needle occurs everywhere.
   */
  function ContainsIgnoreCase(hay: string, needle: string): (r: bool)
    ensures r <==> exists i :: OccursAt(hay, needle, i)
    decreases |hay|
  {
    if |needle| > |hay| then
      assert forall i :: !OccursAt(hay, needle, i);
      false
    else if StartsWithIgnoreCase(hay, needle) then
      true
    else
      OccursAtTail(hay, needle);
      ContainsIgnoreCase(hay[1..], needle)
  }

  /** An occurrence in `hay` is one at offset 0 or one in its tail. */
  lemma OccursAtTail(hay: string, needle: string)
    requires hay != []
    ensures (exists i :: OccursAt(hay, needle, i)) <==>
            OccursAt(hay, needle, 0) || exists j :: OccursAt(hay[1..], needle, j)
  {
    var tail := hay[1..];
    assert forall j :: 1 <= j < |hay| ==> tail[j - 1] == hay[j];
    if i :| OccursAt(hay, needle, i) {
      if i != 0 {
        assert OccursAt(tail, needle, i - 1);
      }
    }
    if j :| OccursAt(tail, needle, j) {
      assert OccursAt(hay, needle, j + 1);
    }
  }

  /** The empty search string is contained in every string. */
  lemma ContainsEmpty(hay: string)
    ensures ContainsIgnoreCase(hay, "")
  {
    assert OccursAt(hay, "", 0);
  }

  /** Folding both sides first changes nothing: the test really ignores case. */
  lemma ContainsIgnoresCase(hay: string, needle: string)
    ensures ContainsIgnoreCase(FoldAll(hay), FoldAll(needle)) == ContainsIgnoreCase(hay, needle)
  {
    var h, n := FoldAll(hay), FoldAll(needle);
    if i :| OccursAt(hay, needle, i) {
      forall k | 0 <= k < |needle| ensures SameIgnoringCase(h[i + k], n[k]) {
        assert Fold(hay[i + k]) == Fold(needle[k]);
      }
      assert OccursAt(h, n, i);
    }
    if i :| OccursAt(h, n, i) {
      forall k | 0 <= k < |needle| ensures SameIgnoringCase(hay[i + k], needle[k]) {
        assert Fold(h[i + k]) == Fold(n[k]);
      }
      assert OccursAt(hay, needle, i);
    }
  }

  /** The string with every character folded. */
  function FoldAll(s: string): (t: string)
    ensures |t| == |s| && forall k :: 0 <= k < |s| ==> t[k] == Fold(s[k])
  {
    seq(|s|, k requires 0 <= k < |s| => Fold(s[k]))
  }
}

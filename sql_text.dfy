/**
 * SQLite's core function trim(X) with one argument, which removes the space character
 * (and no other white space) from both ends of X.
 */
module SqlText {

  predicate AllSpaces(s: string) {
    forall i :: 0 <= i < |s| ==> s[i] == ' '
  }

  /** Every character of `s` at an index in [lo, hi) is a space. */
  predicate SpacesBetween(s: string, lo: int, hi: int) {
    forall k :: 0 <= lo <= k < hi <= |s| ==> s[k] == ' '
  }

  /** The index of the first character at or after `i` that is not a space, or |s|. */
  function SkipSpaces(s: string, i: nat): (j: nat)
    requires i <= |s|
    ensures i <= j <= |s|
    ensures SpacesBetween(s, i, j)
    ensures j == |s| || s[j] != ' '
    decreases |s| - i
  {
    if i < |s| && s[i] == ' ' then SkipSpaces(s, i + 1) else i
  }

  /** The end of s[lo..hi] once its trailing spaces are cut off. */
  function SkipSpacesBack(s: string, lo: nat, hi: nat): (e: nat)
    requires lo <= hi <= |s|
    ensures lo <= e <= hi
    ensures SpacesBetween(s, e, hi)
    ensures e == lo || s[e - 1] != ' '
    decreases hi
  {
    if lo < hi && s[hi - 1] == ' ' then SkipSpacesBack(s, lo, hi - 1) else hi
  }

  /** trim(s): `s` without its leading and trailing spaces; empty exactly when `s` is all spaces. */
  function Trim(s: string): (r: string)
    ensures |r| <= |s|
    ensures r == [] <==> AllSpaces(s)
    ensures r == [] || (r[0] != ' ' && r[|r| - 1] != ' ')
  {
    var a := SkipSpaces(s, 0);
    var e := SkipSpacesBack(s, a, |s|);
    s[a..e]
  }

  /**
   * trim removes nothing but spaces, and only at the two ends: the result is the slice
   * s[i..i+|Trim(s)|] for some i, with spaces only before and after it.
   */
  lemma TrimStripsOnlyEdgeSpaces(s: string)
    ensures exists i :: (0 <= i <= |s| - |Trim(s)| && Trim(s) == s[i..i + |Trim(s)|] &&
                         AllSpaces(s[..i]) && AllSpaces(s[i + |Trim(s)|..]))
  {
    var a := SkipSpaces(s, 0);
    var e := SkipSpacesBack(s, a, |s|);
    assert Trim(s) == s[a..e];
    assert AllSpaces(s[..a]) by {
      forall k | 0 <= k < a ensures s[..a][k] == ' ' {
        assert s[..a][k] == s[k];
      }
    }
    assert AllSpaces(s[e..]) by {
      forall k | 0 <= k < |s| - e ensures s[e..][k] == ' ' {
        assert s[e..][k] == s[e + k];
      }
    }
  }
}

/**
 * Python's `str.strip()` with no arguments: remove every leading and trailing
 * character for which `str.isspace()` holds.
 */
module Text {

  /** The characters Python's `str.isspace()` accepts. */
  predicate IsSpace(c: char) {
    || ('\U{9}' <= c <= '\U{D}')
    || ('\U{1C}' <= c <= '\U{20}')
    || c == '\U{85}' || c == '\U{A0}' || c == '\U{1680}'
    || ('\U{2000}' <= c <= '\U{200A}')
    || c == '\U{2028}' || c == '\U{2029}' || c == '\U{202F}' || c == '\U{205F}' || c == '\U{3000}'
  }

  predicate AllSpace(s: string) {
    forall i :: 0 <= i < |s| ==> IsSpace(s[i])
  }

  /** A string `strip()` leaves as it is: empty, or with non-space ends. */
  predicate IsStripped(s: string) {
    s == [] || (!IsSpace(s[0]) && !IsSpace(s[|s| - 1]))
  }

  /** Index of the first non-space character at or after `i`, or `|s|`. */
  function SkipSpaces(s: string, i: nat): (k: nat)
    requires i <= |s|
    ensures i <= k <= |s|
    ensures forall j :: i <= j < k ==> IsSpace(s[j])
    ensures k < |s| ==> !IsSpace(s[k])
    decreases |s| - i
  {
    if i == |s| || !IsSpace(s[i]) then i else SkipSpaces(s, i + 1)
  }

  /** Index just past the last non-space character before `hi`, or 0. */
  function SkipSpacesBack(s: string, hi: nat): (k: nat)
    requires hi <= |s|
    ensures k <= hi
    ensures forall j :: k <= j < hi ==> IsSpace(s[j])
    ensures 0 < k ==> !IsSpace(s[k - 1])
  {
    if hi == 0 || !IsSpace(s[hi - 1]) then hi else SkipSpacesBack(s, hi - 1)
  }

  /** `s.strip()`. */
  function Strip(s: string): (r: string)
    ensures IsStripped(r)
    ensures |r| <= |s|
    ensures r == [] <==> AllSpace(s)
    ensures exists lo :: 0 <= lo <= |s| - |r| && s[lo..lo + |r|] == r
                          && AllSpace(s[..lo]) && AllSpace(s[lo + |r|..])
  {
    var lo := SkipSpaces(s, 0);
    var hi := if lo == |s| then lo else SkipSpacesBack(s, |s|);
    assert lo <= hi;
    assert AllSpace(s[..lo]) && AllSpace(s[hi..]) by {
      forall i | 0 <= i < lo ensures s[..lo][i] == s[i] { }
      forall i | hi <= i < |s| ensures s[hi..][i - hi] == s[i] { }
    }
    assert lo == |s| <==> AllSpace(s) by {
      if lo < |s| { assert !IsSpace(s[lo]); }
    }
    s[lo..hi]
  }

  /** Characterises where the leading white space ends. */
  lemma SkipSpacesAt(s: string, k: nat)
    requires k <= |s|
    requires forall j :: 0 <= j < k ==> IsSpace(s[j])
    requires k < |s| ==> !IsSpace(s[k])
    ensures SkipSpaces(s, 0) == k
  {
  }

  /** Characterises where the trailing white space starts. */
  lemma SkipSpacesBackAt(s: string, k: nat)
    requires 0 < k <= |s|
    requires forall j :: k <= j < |s| ==> IsSpace(s[j])
    requires !IsSpace(s[k - 1])
    ensures SkipSpacesBack(s, |s|) == k
  {
  }

  /**
   * `strip()` is determined by its characterisation: whatever surrounds a
   * stripped string with white space, stripping gives that string back.
   */
  lemma StripPadded(pre: string, t: string, post: string)
    requires AllSpace(pre) && AllSpace(post) && IsStripped(t)
    ensures Strip(pre + t + post) == t
  {
    var s := pre + t + post;
    if t == [] {
      assert AllSpace(s) by {
        forall i | 0 <= i < |s| ensures IsSpace(s[i]) {
          if i < |pre| { assert s[i] == pre[i]; } else { assert s[i] == post[i - |pre|]; }
        }
      }
    } else {
      var lo, hi := |pre|, |pre| + |t|;
      forall j | 0 <= j < lo ensures IsSpace(s[j]) { assert s[j] == pre[j]; }
      assert s[lo] == t[0];
      SkipSpacesAt(s, lo);
      forall j | hi <= j < |s| ensures IsSpace(s[j]) { assert s[j] == post[j - hi]; }
      assert s[hi - 1] == t[|t| - 1];
      SkipSpacesBackAt(s, hi);
      assert s[lo..hi] == t;
    }
  }

  /** Stripping twice is stripping once. */
  lemma StripIdempotent(s: string)
    ensures Strip(Strip(s)) == Strip(s)
  {
    StripPadded([], Strip(s), []);
    assert [] + Strip(s) + [] == Strip(s);
  }
}

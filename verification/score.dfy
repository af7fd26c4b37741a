/**
 * The critic's humor-score extraction: `re.search(r"(\b\d{1,2}\b)", text)`,
 * converted with `int(...)`, defaulting to 5 when nothing matches.
 * Digits are the ASCII digits and word characters are ASCII letters, digits
 * and `_`.
 */
module Score {
  import opened Wrappers

  /** The value the critic falls back to when the text holds no score. */
  const DefaultScore := 5

  predicate IsDigit(c: char) {
    '0' <= c <= '9'
  }

  /** A character `\w` matches. */
  predicate IsWordChar(c: char) {
    IsDigit(c) || ('a' <= c <= 'z') || ('A' <= c <= 'Z') || c == '_'
  }

  /** Whether position `i` holds a word character (false outside the text). */
  predicate WordAt(s: string, i: int) {
    0 <= i < |s| && IsWordChar(s[i])
  }

  /** `\b` at position `i`: a word character on exactly one side. */
  predicate IsBoundary(s: string, i: int) {
    WordAt(s, i - 1) != WordAt(s, i)
  }

  /** `\b\d{n}\b` matches `s[i..i + n]`, for the allowed run lengths 1 and 2. */
  predicate MatchesAt(s: string, i: int, n: int) {
    && 1 <= n <= 2
    && 0 <= i && i + n <= |s|
    && IsBoundary(s, i)
    && (forall k :: i <= k < i + n ==> IsDigit(s[k]))
    && IsBoundary(s, i + n)
  }

  /** The match `re.search` reports: the one that starts leftmost. */
  ghost predicate IsFirstMatch(s: string, i: int, n: int) {
    MatchesAt(s, i, n) && forall j, m :: j < i ==> !MatchesAt(s, j, m)
  }

  /** A digit run matched by the pattern. */
  datatype Run = Run(start: nat, len: nat)

  /**
   * At one position at most one run length matches, so the greedy `{1,2}`
   * never has to choose.
   */
  lemma MatchLengthUnique(s: string, i: int, n: int, m: int)
    requires MatchesAt(s, i, n) && MatchesAt(s, i, m)
    ensures n == m
  {
  }

  /** Scan from `from` for the leftmost match, trying two digits before one. */
  function FindRun(s: string, from: nat): (r: Option<Run>)
    requires from <= |s|
    ensures r.Some? ==> from <= r.value.start && MatchesAt(s, r.value.start, r.value.len)
    ensures r.Some? ==> forall j, m :: from <= j < r.value.start ==> !MatchesAt(s, j, m)
    ensures r.None? ==> forall j, m :: from <= j ==> !MatchesAt(s, j, m)
    decreases |s| - from
  {
    if from == |s| then None
    else if MatchesAt(s, from, 2) then Some(Run(from, 2))
    else if MatchesAt(s, from, 1) then Some(Run(from, 1))
    else FindRun(s, from + 1)
  }

  /** The value of one ASCII digit. */
  function DigitValue(c: char): (v: nat)
    requires IsDigit(c)
    ensures v <= 9
  {
    c as int - '0' as int
  }

  function Pow10(n: nat): (p: nat) {
    if n == 0 then 1 else 10 * Pow10(n - 1)
  }

  /** `int(digits)` for a string of ASCII digits: a number below 10^|digits|. */
  function DecimalValue(digits: string): (v: nat)
    requires forall k :: 0 <= k < |digits| ==> IsDigit(digits[k])
    ensures v < Pow10(|digits|)
  {
    if digits == [] then 0
    else DecimalValue(digits[..|digits| - 1]) * 10 + DigitValue(digits[|digits| - 1])
  }

  /** The number the matched run spells. */
  function RunValue(s: string, i: int, n: int): (v: nat)
    requires MatchesAt(s, i, n)
    ensures v <= 99
  {
    assert Pow10(n) <= 100;
    DecimalValue(s[i..i + n])
  }

  /** `humor_score` as the critic computes it from the critique text. */
  function HumorScore(text: string): (score: int)
    ensures 0 <= score <= 99
    ensures (forall i, n :: !MatchesAt(text, i, n)) ==> score == DefaultScore
    ensures forall i, n :: IsFirstMatch(text, i, n) ==> score == RunValue(text, i, n)
  {
    match FindRun(text, 0)
    case None => DefaultScore
    case Some(run) =>
      assert forall i, n :: IsFirstMatch(text, i, n) ==> i == run.start && n == run.len by {
        forall i, n | IsFirstMatch(text, i, n) ensures i == run.start && n == run.len {
          MatchLengthUnique(text, i, n, run.len);
        }
      }
      RunValue(text, run.start, run.len)
  }
}

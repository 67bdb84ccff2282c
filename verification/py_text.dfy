/** The two Python `str` methods the configuration validators call:
    `strip()` with no argument and `upper()`. */
module PyText {

  /** The characters Python's `str.isspace` accepts, which `strip()` removes. */
  predicate IsSpace(c: char) {
    || '\U{0009}' <= c <= '\U{000D}'
    || '\U{001C}' <= c <= '\U{0020}'
    || c == '\U{0085}' || c == '\U{00A0}' || c == '\U{1680}'
    || '\U{2000}' <= c <= '\U{200A}'
    || c == '\U{2028}' || c == '\U{2029}' || c == '\U{202F}' || c == '\U{205F}' || c == '\U{3000}'
  }

  /** Every character of `s` from index `lo` up to `hi` is whitespace. */
  predicate SpaceRun(s: string, lo: int, hi: int)
    requires 0 <= lo <= hi <= |s|
  {
    forall i :: lo <= i < hi ==> IsSpace(s[i])
  }

  /** `r` is the slice of `s` starting at `a`, and everything of `s` before
      and after it is whitespace. */
  predicate SpaceFramed(s: string, a: int, r: string) {
    0 <= a <= |s| - |r| && r == s[a..a + |r|] && SpaceRun(s, 0, a) && SpaceRun(s, a + |r|, |s|)
  }

  /** The index of the first non-whitespace character at or after `i`
      (`|s|` if there is none). */
  function FirstNonSpace(s: string, i: nat): (k: nat)
    requires i <= |s| && SpaceRun(s, 0, i)
    ensures i <= k <= |s| && SpaceRun(s, 0, k)
    ensures k == |s| || !IsSpace(s[k])
    decreases |s| - i
  {
    if i < |s| && IsSpace(s[i]) then FirstNonSpace(s, i + 1) else i
  }

  /** The index just past the last non-whitespace character before `j`, but
      not below `lo` (`lo` if there is none). */
  function EndOfNonSpace(s: string, lo: nat, j: nat): (k: nat)
    requires lo <= j <= |s| && SpaceRun(s, j, |s|)
    ensures lo <= k <= j && SpaceRun(s, k, |s|)
    ensures k == lo || !IsSpace(s[k - 1])
    decreases j
  {
    if j > lo && IsSpace(s[j - 1]) then EndOfNonSpace(s, lo, j - 1) else j
  }

  /** `s.strip()`: `s` with its leading and trailing whitespace removed. */
  function Strip(s: string): (r: string)
    ensures exists a :: SpaceFramed(s, a, r)
    ensures r == [] || (!IsSpace(r[0]) && !IsSpace(r[|r| - 1]))
  {
    var lo := FirstNonSpace(s, 0);
    var hi := EndOfNonSpace(s, lo, |s|);
    assert SpaceFramed(s, lo, s[lo..hi]);
    s[lo..hi]
  }

  /** `upper()` on one character; only the ASCII letters are modelled. */
  function UpperChar(c: char): char {
    if 'a' <= c <= 'z' then (c as int - 32) as char else c
  }

  /** `s.upper()`. */
  function Upper(s: string): (r: string)
    ensures |r| == |s|
    ensures forall i :: 0 <= i < |s| && 'a' <= s[i] <= 'z' ==> r[i] as int == s[i] as int - 32
    ensures forall i :: 0 <= i < |s| && !('a' <= s[i] <= 'z') ==> r[i] == s[i]
  {
    seq(|s|, i requires 0 <= i < |s| => UpperChar(s[i]))
  }

  /** The only strings whose upper-case form is the one letter `L`. */
  lemma UpperIsOneLetter(s: string, lower: char, upper: char)
    requires 'A' <= upper <= 'Z' && lower as int == upper as int + 32
    ensures Upper(s) == [upper] <==> s == [upper] || s == [lower]
  {
    if Upper(s) == [upper] {
      assert Upper(s)[0] == upper;
    }
  }
}

/** String helpers shared by the command router and the terminal: the
    JavaScript `trim`, `toLowerCase` and `\s` restricted to ASCII. */
module Text {

  /** ASCII whitespace: space, and tab through carriage return. */
  predicate IsSpace(c: char) {
    c == ' ' || ('\t' <= c <= '\r')
  }

  predicate AllSpace(s: string) {
    forall i :: 0 <= i < |s| ==> IsSpace(s[i])
  }

  /** Number of whitespace characters at the start of `s`. */
  function LeadingSpaces(s: string): (n: nat)
    ensures n <= |s|
    ensures AllSpace(s[..n])
    ensures n < |s| ==> !IsSpace(s[n])
  {
    if |s| == 0 || !IsSpace(s[0]) then 0
    else
      var n := 1 + LeadingSpaces(s[1..]);
      assert s[..n] == [s[0]] + s[1..][..n - 1];
      n
  }

  /** Index just past the last non-whitespace character of `s[a..j]`, or `a`
      when that stretch is all whitespace. */
  function SolidEnd(s: string, a: nat, j: nat): (k: nat)
    requires a <= j <= |s|
    ensures a <= k <= j
    ensures forall i :: k <= i < j ==> IsSpace(s[i])
    ensures k > a ==> !IsSpace(s[k - 1])
  {
    if j == a || !IsSpace(s[j - 1]) then j else SolidEnd(s, a, j - 1)
  }

  /** `String.prototype.trim`: drops leading and trailing whitespace, keeping
      everything in between. */
  function Trim(s: string): (r: string)
    ensures LeadingSpaces(s) + |r| <= |s|
    ensures r == s[LeadingSpaces(s)..LeadingSpaces(s) + |r|]
    ensures r == [] || (!IsSpace(r[0]) && !IsSpace(r[|r| - 1]))
    ensures forall i :: LeadingSpaces(s) + |r| <= i < |s| ==> IsSpace(s[i])
  {
    var a := LeadingSpaces(s);
    s[a..SolidEnd(s, a, |s|)]
  }

  /** Text with no whitespace at either end is its own trimmed form. */
  lemma TrimClean(s: string)
    requires s != [] && !IsSpace(s[0]) && !IsSpace(s[|s| - 1])
    ensures Trim(s) == s
  {
    assert LeadingSpaces(s) == 0;
    assert SolidEnd(s, 0, |s|) == |s|;
  }

  /** Lower-cases ASCII capitals and leaves every other character alone. */
  function LowerChar(c: char): char {
    if 'A' <= c <= 'Z' then (c as int - 'A' as int + 'a' as int) as char else c
  }

  function Lower(s: string): (r: string)
    ensures |r| == |s|
    ensures forall i :: 0 <= i < |s| ==> r[i] == LowerChar(s[i])
  {
    seq(|s|, i requires 0 <= i < |s| => LowerChar(s[i]))
  }

  /** A string with no capital letters is its own lower-case form. */
  predicate IsLower(s: string) {
    forall i :: 0 <= i < |s| ==> !('A' <= s[i] <= 'Z')
  }

  lemma LowerOfLower(s: string)
    requires IsLower(s)
    ensures Lower(s) == s
  {
  }
}

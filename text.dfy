/** Text operations the additive pipeline relies on: Python's `str.lower()`,
    Kotlin's `uppercase()`, Python's substring test `kw in s` and `str(n)`
    for a non-negative integer. Case mapping covers the ASCII letters only. */
module Text {

  function LowerChar(c: char): char {
    if 'A' <= c <= 'Z' then c - 'A' + 'a' else c
  }

  function UpperChar(c: char): char {
    if 'a' <= c <= 'z' then c - 'a' + 'A' else c
  }

  predicate IsLowerChar(c: char) {
    !('A' <= c <= 'Z')
  }

  /** `s.lower()`: every character mapped, length kept. */
  function Lower(s: string): (r: string)
    ensures |r| == |s|
    ensures forall i :: 0 <= i < |s| ==> r[i] == LowerChar(s[i])
  {
    seq(|s|, i requires 0 <= i < |s| => LowerChar(s[i]))
  }

  /** `s.uppercase()` in Kotlin. */
  function Upper(s: string): (r: string)
    ensures |r| == |s|
    ensures forall i :: 0 <= i < |s| ==> r[i] == UpperChar(s[i])
  {
    seq(|s|, i requires 0 <= i < |s| => UpperChar(s[i]))
  }

  predicate IsLower(s: string) {
    forall i :: 0 <= i < |s| ==> IsLowerChar(s[i])
  }

  /** Lower-casing leaves no upper-case letter and is idempotent. */
  lemma LowerIsLower(s: string)
    ensures IsLower(Lower(s))
    ensures Lower(Lower(s)) == Lower(s)
  {
  }

  /** Lower-casing forgets any earlier upper-casing: the classifier's
      comparisons are insensitive to the case of their input. */
  lemma LowerUpper(s: string)
    ensures Lower(Upper(s)) == Lower(s)
  {
  }

  /** `s.startswith(prefix)`. */
  predicate StartsWith(s: string, prefix: string) {
    |prefix| <= |s| && s[..|prefix|] == prefix
  }

  /** `sub in s` for Python strings: `sub` occurs at some position of `s`
      (the empty string occurs everywhere). */
  predicate Contains(s: string, sub: string) {
    exists i :: 0 <= i <= |s| - |sub| && OccursAt(s, sub, i)
  }

  predicate OccursAt(s: string, sub: string, i: int) {
    0 <= i <= |s| - |sub| && s[i..i + |sub|] == sub
  }

  /** `any(kw in s for kw in kws)`, trying the keywords in order. */
  predicate ContainsAny(s: string, kws: seq<string>)
    decreases |kws|
  {
    |kws| > 0 && (Contains(s, kws[0]) || ContainsAny(s, kws[1..]))
  }

  /** `any` over a list splits into its first keyword and the rest. */
  lemma ContainsAnyCons(s: string, kw: string, kws: seq<string>)
    ensures ContainsAny(s, [kw] + kws) <==> Contains(s, kw) || ContainsAny(s, kws)
  {
    assert ([kw] + kws)[1..] == kws;
  }

  /** `any` holds exactly when one of the keywords occurs. */
  lemma {:induction false} ContainsAnyExists(s: string, kws: seq<string>)
    ensures ContainsAny(s, kws) <==> exists k :: 0 <= k < |kws| && Contains(s, kws[k])
    decreases |kws|
  {
    if |kws| > 0 {
      ContainsAnyExists(s, kws[1..]);
      if ContainsAny(s, kws[1..]) {
        var k :| 0 <= k < |kws| - 1 && Contains(s, kws[1..][k]);
        assert Contains(s, kws[k + 1]);
      }
      if exists k :: 0 <= k < |kws| && Contains(s, kws[k]) {
        var k :| 0 <= k < |kws| && Contains(s, kws[k]);
        if k > 0 {
          assert kws[1..][k - 1] == kws[k];
        }
      }
    }
  }

  /** A witness position proves containment. */
  lemma ContainsAt(s: string, sub: string, i: nat)
    requires i + |sub| <= |s| && s[i..i + |sub|] == sub
    ensures Contains(s, sub)
  {
    assert OccursAt(s, sub, i);
  }

  /** A string contains each of its infixes. */
  lemma ContainsInfix(pre: string, sub: string, post: string)
    ensures Contains(pre + sub + post, sub)
  {
    assert (pre + sub + post)[|pre|..|pre| + |sub|] == sub;
    assert OccursAt(pre + sub + post, sub, |pre|);
  }

  /** A keyword with some letter that does not occur in `s` is not in `s`. */
  lemma NotContainsLetter(s: string, sub: string, j: nat)
    requires j < |sub| && sub[j] !in s
    ensures !Contains(s, sub)
  {
    forall i | 0 <= i <= |s| - |sub|
      ensures !OccursAt(s, sub, i)
    {
      assert s[i + j] != sub[j];
    }
  }

  function DigitChar(d: nat): char
    requires d < 10
  {
    ('0' as int + d) as char
  }

  /** `str(n)` for a non-negative integer: decimal digits, no leading zero. */
  function NatToString(n: nat): (r: string)
    ensures |r| >= 1
    ensures forall i :: 0 <= i < |r| ==> '0' <= r[i] <= '9'
    ensures |r| > 1 ==> r[0] != '0'
    decreases n
  {
    if n < 10 then [DigitChar(n)] else NatToString(n / 10) + [DigitChar(n % 10)]
  }

  /** Reads a string of decimal digits back as a number. */
  function ParseNat(s: string): nat
    requires forall i :: 0 <= i < |s| ==> '0' <= s[i] <= '9'
    decreases |s|
  {
    if s == [] then 0 else 10 * ParseNat(s[..|s| - 1]) + (s[|s| - 1] as int - '0' as int)
  }

  /** `str(n)` loses nothing: parsing it gives `n` back, so distinct counts
      give distinct stored texts. */
  lemma {:induction false} ParseNatToString(n: nat)
    ensures ParseNat(NatToString(n)) == n
    decreases n
  {
    var s := NatToString(n);
    if n >= 10 {
      ParseNatToString(n / 10);
      assert s[..|s| - 1] == NatToString(n / 10);
    }
  }

  lemma NatToStringInjective(m: nat, n: nat)
    requires NatToString(m) == NatToString(n)
    ensures m == n
  {
    ParseNatToString(m);
    ParseNatToString(n);
  }
}

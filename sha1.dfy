/**
 * SHA-1 validation (`is_valid_sha1`, identical in Git_lib.py and
 * Git_code_change.py): a length check followed by `re.match` of the pattern
 * `[0-9a-fA-F]{40}`, which anchors at the start of the string only.
 */
module Sha1 {

  /** One character of the class `[0-9a-fA-F]`. */
  predicate IsHexDigit(c: char) {
    ('0' <= c <= '9') || ('a' <= c <= 'f') || ('A' <= c <= 'F')
  }

  /**
   * Whether `re.match` of `[0-9a-fA-F]{n}` succeeds on `s`: the first `n`
   * characters are hex digits. Nothing is required of what follows them.
   */
  predicate MatchesHexRun(s: string, n: nat)
    decreases n
  {
    n == 0 || (|s| > 0 && IsHexDigit(s[0]) && MatchesHexRun(s[1..], n - 1))
  }

  /** `is_valid_sha1`: reject on length first, then on the regex. */
  predicate IsValidSha1(s: string) {
    if |s| != 40 then false
    else if !MatchesHexRun(s, 40) then false
    else true
  }

  /** The regex matches exactly when the string starts with `n` hex digits. */
  lemma {:induction false} MatchesHexRunMeans(s: string, n: nat)
    ensures MatchesHexRun(s, n) <==> n <= |s| && forall i :: 0 <= i < n ==> IsHexDigit(s[i])
    decreases n
  {
    if n > 0 && |s| > 0 {
      MatchesHexRunMeans(s[1..], n - 1);
      if IsHexDigit(s[0]) && n - 1 <= |s[1..]| && forall i :: 0 <= i < n - 1 ==> IsHexDigit(s[1..][i]) {
        forall i | 0 <= i < n ensures IsHexDigit(s[i]) {
          if i > 0 { assert s[i] == s[1..][i - 1]; }
        }
      }
      if n <= |s| && forall i :: 0 <= i < n ==> IsHexDigit(s[i]) {
        forall i | 0 <= i < n - 1 ensures IsHexDigit(s[1..][i]) {
          assert s[1..][i] == s[i + 1];
        }
      }
    }
  }

  /** A string is accepted iff it has exactly 40 characters, all hex digits, of either case. */
  lemma IsValidSha1Exactly(s: string)
    ensures IsValidSha1(s) <==> |s| == 40 && forall i :: 0 <= i < |s| ==> IsHexDigit(s[i])
  {
    MatchesHexRunMeans(s, 40);
  }

  /**
   * The regex alone is not anchored at the end: 41 characters led by 40 hex
   * digits match it, and only the length check rejects them.
   */
  lemma RegexAloneAcceptsLongerStrings(s: string)
    requires |s| == 41 && forall i :: 0 <= i < 40 ==> IsHexDigit(s[i])
    ensures MatchesHexRun(s, 40) && !IsValidSha1(s)
  {
    MatchesHexRunMeans(s, 40);
  }

  /** Every character of `s` is a hex digit. */
  predicate AllHex(s: string) {
    forall i :: 0 <= i < |s| ==> IsHexDigit(s[i])
  }

  lemma AllHexConcat(a: string, b: string)
    requires AllHex(a) && AllHex(b)
    ensures AllHex(a + b)
  {
    forall i | 0 <= i < |a + b| ensures IsHexDigit((a + b)[i]) {
      if i >= |a| { assert (a + b)[i] == b[i - |a|]; }
    }
  }

  /** The boundary cases: 39 and 41 characters, the empty string and a `g` are rejected. */
  lemma Sha1Rejections()
    ensures !IsValidSha1("0123456789abcdef0123456789abcdef0123456")
    ensures !IsValidSha1("0123456789abcdef0123456789abcdef012345678")
    ensures !IsValidSha1("")
    ensures !IsValidSha1("0123456789abcdef0123456789abcdef0123456g")
  {
    var bad := "0123456789abcdef0123456789abcdef0123456g";
    IsValidSha1Exactly(bad);
    assert !IsHexDigit(bad[39]);
  }

  /** Forty upper-case hex digits are accepted. */
  lemma Sha1AcceptsUpperCase()
    ensures IsValidSha1("0123456789ABCDEF0123456789ABCDEF01234567")
  {
    var block, tail := "0123456789ABCDEF", "01234567";
    assert AllHex(block);
    assert AllHex(tail);
    AllHexConcat(block, block);
    AllHexConcat(block + block, tail);
    assert block + block + tail == "0123456789ABCDEF0123456789ABCDEF01234567";
    IsValidSha1Exactly(block + block + tail);
  }
}

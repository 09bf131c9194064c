/**
 * The rules the browser forms share: JavaScript string length, and the
 * email pattern `^\S+@\S+$`.
 */
module FormRules {
  import opened Text

  /** No character of `s` is white space to a JavaScript regular expression (`\s`). */
  predicate NoWhiteSpace(s: string) {
    forall i :: 0 <= i < |s| ==> !IsJsWhiteSpace(s[i])
  }

  /**
   * `/^\S+@\S+$/.test(s)`: the text splits at an '@' into two non-empty runs
   * of non-space characters. Either run may itself contain '@'.
   */
  predicate MatchesEmailPattern(s: string) {
    exists k :: 0 < k < |s| - 1 && s[k] == '@' && NoWhiteSpace(s[..k]) && NoWhiteSpace(s[k + 1..])
  }

  /** The same rule said directly: no white space, and an '@' that is neither first nor last. */
  predicate PlausibleEmail(s: string) {
    NoWhiteSpace(s) && exists k :: 0 < k < |s| - 1 && s[k] == '@'
  }

  /** The pattern and the direct statement accept the same texts. */
  lemma EmailPatternIff(s: string)
    ensures MatchesEmailPattern(s) <==> PlausibleEmail(s)
  {
    if MatchesEmailPattern(s) {
      var k :| 0 < k < |s| - 1 && s[k] == '@' && NoWhiteSpace(s[..k]) && NoWhiteSpace(s[k + 1..]);
      forall i | 0 <= i < |s|
        ensures !IsJsWhiteSpace(s[i])
      {
        if i < k {
          assert s[i] == s[..k][i];
        } else if i > k {
          assert s[i] == s[k + 1..][i - k - 1];
        }
      }
    }
    if PlausibleEmail(s) {
      var k :| 0 < k < |s| - 1 && s[k] == '@';
      var before, after := s[..k], s[k + 1..];
      forall i | 0 <= i < |after|
        ensures !IsJsWhiteSpace(after[i])
      {
        assert after[i] == s[k + 1 + i];
      }
      assert NoWhiteSpace(before) && NoWhiteSpace(after);
    }
  }

  lemma EmailExamples()
    ensures MatchesEmailPattern("a@b")
    ensures !MatchesEmailPattern("@b") && !MatchesEmailPattern("a@") && !MatchesEmailPattern("ab")
    ensures !MatchesEmailPattern("a b@c")
    ensures MatchesEmailPattern("a@@b")
  {
    EmailPatternIff("a@b");
    assert "a@b"[1] == '@';
    EmailPatternIff("a b@c");
    assert "a b@c"[1] == ' ';
    assert "a@@b"[1] == '@' && NoWhiteSpace("a@@b"[..1]) && NoWhiteSpace("a@@b"[2..]);
  }

  /** `value.length < n`, with JavaScript's count of UTF-16 code units. */
  predicate ShorterThan(value: string, n: nat) {
    Utf16Length(value) < n
  }

  /** A text of at least `n` characters is never too short; one of fewer than `n / 2` always is. */
  lemma ShorterThanBounds(value: string, n: nat)
    ensures |value| >= n ==> !ShorterThan(value, n)
    ensures 2 * |value| < n ==> ShorterThan(value, n)
  {
  }

  /** One character outside the Basic Multilingual Plane already has length 2. */
  lemma AstralCharacterCountsTwice()
    ensures Utf16Length("\U{1F600}") == 2 && !ShorterThan("\U{1F600}", 2)
  {
  }
}

/**
 * What the account forms share: the address pattern `/^[^\s@]+@[^\s@]+\.[^\s@]+$/` used by
 * src/pages/auth/Register.tsx and src/pages/dashboard/components/UserProfile.tsx, and the
 * `err.response?.data?.message || fallback` reading of a rejected request.
 */
module Forms {

  import opened JsValues
  import opened Text

  /** A character of the class `[^\s@]`. */
  predicate Plain(c: char) {
    !IsWhitespace(c) && c != '@'
  }

  /** The position of the first `c` in `s`, `|s|` when there is none. */
  function IndexOf(s: string, c: char): (r: nat)
    ensures r <= |s|
    ensures r < |s| ==> s[r] == c
    ensures forall k :: 0 <= k < r ==> s[k] != c
  {
    if s == [] then 0
    else if s[0] == c then 0
    else 1 + IndexOf(s[1..], c)
  }

  /**
   * The address check, computed: no whitespace, exactly one "@" that is not first, and a "."
   * in the part after it that is neither that part's first nor its last character.
   */
  predicate IsValidEmail(s: string) {
    var at := IndexOf(s, '@');
    && (forall k :: 0 <= k < |s| ==> !IsWhitespace(s[k]))
    && 0 < at && at + 3 < |s|
    && '@' !in s[at + 1..]
    && '.' in s[at + 2..|s| - 1]
  }

  /**
   * The regular expression read literally: a run of `[^\s@]`, "@", a run, ".", a run, with
   * nothing before or after.
   */
  ghost predicate MatchesEmailPattern(s: string) {
    exists at, dot :: 0 < at && at + 1 < dot && dot + 1 < |s| && s[at] == '@' && s[dot] == '.'
      && forall k :: 0 <= k < |s| && k != at ==> Plain(s[k])
  }

  /** The computed check accepts exactly the strings the pattern matches. */
  lemma {:induction false} EmailCheckIsPattern(s: string)
    ensures IsValidEmail(s) <==> MatchesEmailPattern(s)
  {
    var at := IndexOf(s, '@');
    if IsValidEmail(s) {
      var tail := s[at + 2..|s| - 1];
      var d :| 0 <= d < |tail| && tail[d] == '.';
      var dot := at + 2 + d;
      assert s[dot] == '.';
      forall k | 0 <= k < |s| && k != at ensures Plain(s[k]) {
        if k > at {
          assert s[k] == s[at + 1..][k - at - 1];
        }
      }
      assert MatchesEmailPattern(s);
    }
    if MatchesEmailPattern(s) {
      var a, dot :| 0 < a && a + 1 < dot && dot + 1 < |s| && s[a] == '@' && s[dot] == '.'
        && forall k :: 0 <= k < |s| && k != a ==> Plain(s[k]);
      assert at <= a && s[at] == '@';
      assert at == a;
      var after := s[at + 1..];
      assert '@' !in after by {
        forall k | 0 <= k < |after| ensures after[k] != '@' {
          assert after[k] == s[at + 1 + k];
        }
      }
      assert s[at + 2..|s| - 1][dot - at - 2] == '.';
      assert IsValidEmail(s);
    }
  }

  /** A blank string is never an address, so asking for one first only changes the message. */
  lemma EmailIsNotBlank(s: string)
    requires IsValidEmail(s)
    ensures !IsBlank(s)
  {
    assert !IsWhitespace(s[0]);
  }

  /** The address is checked as typed: surrounding spaces reject it. */
  lemma PaddedEmailIsRejected()
    ensures !IsValidEmail(" ana@mail.com")
  {
    assert IsWhitespace(" ana@mail.com"[0]);
  }

  /** `response?.data?.message || fallback`, where `response` is `err.response` or undefined. */
  function ServerMessage(response: Json, fallback: string): (r: Json)
    ensures Truthy(OptMember(OptMember(response, "data"), "message")) ==> r == OptMember(OptMember(response, "data"), "message")
    ensures !Truthy(OptMember(OptMember(response, "data"), "message")) ==> r == Str(fallback)
  {
    Or(OptMember(OptMember(response, "data"), "message"), Str(fallback))
  }
}

/**
 * The curated pattern tables and the pattern scorer. Every pattern is a
 * lower-case literal compiled case-insensitively, so a pattern matches a text
 * exactly when it occurs in the text up to case.
 */
module Patterns {
  import opened Text

  const UsernamePatterns: seq<string> :=
    ["user", "login", "usr", "uname", "account", "acct", "signin", "sign-in", "session", "member", "alias"]

  const EmailPatterns: seq<string> := ["email", "e-mail", "mail"]

  const PasswordPatterns: seq<string> :=
    ["pass", "password", "pwd", "secret", "passphrase", "key", "credential"]

  /** Declared alongside the others; the extractor never scores against it. */
  const TotpPatterns: seq<string> :=
    ["totp", "otp", "2fa", "mfa", "two-factor", "twofactor", "authenticat", "verification", "code", "pin", "token"]

  /** The one-pattern list used for the name and id login scores. */
  const LoginPatterns: seq<string> := ["login"]

  /** The alternatives of the form-action expression `login|signin|auth|session`. */
  const AuthActionPatterns: seq<string> := ["login", "signin", "auth", "session"]

  function Min(x: real, y: real): real
  {
    if x <= y then x else y
  }

  /** Positions of the patterns that match `text`. */
  ghost function MatchingPatterns(text: string, patterns: seq<string>): set<int>
  {
    set i | 0 <= i < |patterns| && ContainsIgnoringCase(text, patterns[i])
  }

  /** Any pattern of the list matches `text`: the reading of an alternation of literals. */
  predicate AnyMatches(text: string, patterns: seq<string>)
  {
    exists i :: 0 <= i < |patterns| && ContainsIgnoringCase(text, patterns[i])
  }

  /** Number of patterns that match `text`, counted from the front of the list. */
  function CountMatches(text: string, patterns: seq<string>): (k: nat)
    ensures k <= |patterns|
  {
    if patterns == [] then 0
    else (if ContainsIgnoringCase(text, patterns[0]) then 1 else 0) + CountMatches(text, patterns[1..])
  }

  /** Appending a pattern adds one to the count exactly when it matches. */
  lemma {:induction false} CountMatchesSnoc(text: string, patterns: seq<string>, last: string)
    ensures CountMatches(text, patterns + [last]) ==
      CountMatches(text, patterns) + (if ContainsIgnoringCase(text, last) then 1 else 0)
  {
    if patterns != [] {
      assert (patterns + [last])[1..] == patterns[1..] + [last];
      CountMatchesSnoc(text, patterns[1..], last);
    }
  }

  /** The count is the number of distinct pattern positions that match. */
  lemma {:induction false} CountMatchesCardinality(text: string, patterns: seq<string>)
    ensures CountMatches(text, patterns) == |MatchingPatterns(text, patterns)|
    decreases |patterns|
  {
    if patterns == [] {
      assert MatchingPatterns(text, patterns) == {};
    } else {
      var n := |patterns| - 1;
      var pre := patterns[..n];
      CountMatchesCardinality(text, pre);
      assert patterns == pre + [patterns[n]];
      CountMatchesSnoc(text, pre, patterns[n]);
      var before := MatchingPatterns(text, pre);
      var all := MatchingPatterns(text, patterns);
      assert forall i :: 0 <= i < n ==> pre[i] == patterns[i];
      assert forall i :: i in all <==> i in before || (i == n && ContainsIgnoringCase(text, patterns[n]));
      assert n !in before;
      if ContainsIgnoringCase(text, patterns[n]) {
        assert all == before + {n};
      } else {
        assert all == before;
      }
    }
  }

  /**
   * The score of a text against a pattern list: zero for the empty text,
   * otherwise three times the fraction of matching patterns, capped at one.
   */
  function MatchScore(text: string, patterns: seq<string>): (r: real)
    ensures 0.0 <= r <= 1.0
    ensures text == "" ==> r == 0.0
  {
    if text == "" then 0.0
    else if patterns == [] then 0.0
    else
      var k := CountMatches(text, patterns);
      ScaledFraction(k, |patterns|);
      Min(k as real / |patterns| as real * 3.0, 1.0)
  }

  /** The score is zero exactly when the text is empty or no pattern matches it. */
  lemma ScoreZeroIffNoMatch(text: string, patterns: seq<string>)
    ensures MatchScore(text, patterns) == 0.0 <==> text == "" || MatchingPatterns(text, patterns) == {}
  {
    if text != "" && patterns != [] {
      var k := CountMatches(text, patterns);
      CountMatchesCardinality(text, patterns);
      assert k == 0 <==> MatchingPatterns(text, patterns) == {};
      ScaledFraction(k, |patterns|);
    } else if patterns == [] {
      assert MatchingPatterns(text, patterns) == {};
    }
  }

  /**
   * For a non-empty text and a non-empty list, the score is three times the
   * fraction of matching patterns, capped at one.
   */
  lemma MatchScoreFormula(text: string, patterns: seq<string>)
    requires text != "" && patterns != []
    ensures MatchScore(text, patterns) ==
      Min(3.0 * (|MatchingPatterns(text, patterns)| as real) / (|patterns| as real), 1.0)
  {
    CountMatchesCardinality(text, patterns);
    ScaledFraction(CountMatches(text, patterns), |patterns|);
  }

  /** Arithmetic facts about the scaled fraction k / n * 3. */
  lemma ScaledFraction(k: nat, n: nat)
    requires n > 0
    ensures k as real / n as real * 3.0 == 3.0 * (k as real) / (n as real)
    ensures k as real / n as real * 3.0 >= 0.0
    ensures k as real / n as real * 3.0 == 0.0 <==> k == 0
  {
    var q := k as real / n as real;
    assert q * (n as real) == k as real;
    if k > 0 {
      assert q > 0.0;
    }
  }

  /** Against the one-pattern login list, the score is 1 when the text contains "login" up to case and 0 otherwise. */
  lemma LoginScoreIsIndicator(text: string)
    ensures MatchScore(text, LoginPatterns) == if ContainsIgnoringCase(text, "login") then 1.0 else 0.0
  {
    var m := MatchingPatterns(text, LoginPatterns);
    if ContainsIgnoringCase(text, "login") {
      assert m == {0};
    } else {
      assert m == {};
    }
  }

  /** A text containing "email" or "e-mail" up to case also contains "mail" up to case. */
  lemma MailInsideEmailPatterns(text: string)
    ensures ContainsIgnoringCase(text, "email") ==> ContainsIgnoringCase(text, "mail")
    ensures ContainsIgnoringCase(text, "e-mail") ==> ContainsIgnoringCase(text, "mail")
  {
    var t := Lower(text);
    assert Lower("email") == "email" && Lower("e-mail") == "e-mail" && Lower("mail") == "mail";
    if ContainsIgnoringCase(text, "email") {
      var i :| OccursAt("email", t, i);
      assert t[i + 1..i + 5] == t[i..i + 5][1..];
      assert OccursAt("mail", t, i + 1);
    }
    if ContainsIgnoringCase(text, "e-mail") {
      var i :| OccursAt("e-mail", t, i);
      assert t[i + 2..i + 6] == t[i..i + 6][2..];
      assert OccursAt("mail", t, i + 2);
    }
  }

  /**
   * The email score is all or nothing: one matching pattern out of three already
   * saturates, and "mail" matches whenever any of the three does.
   */
  lemma EmailScoreIsIndicator(text: string)
    ensures MatchScore(text, EmailPatterns) == if text != "" && ContainsIgnoringCase(text, "mail") then 1.0 else 0.0
  {
    MailInsideEmailPatterns(text);
    var m := MatchingPatterns(text, EmailPatterns);
    ScoreZeroIffNoMatch(text, EmailPatterns);
    if text != "" && ContainsIgnoringCase(text, "mail") {
      assert 2 in m;
      assert |m| >= 1 by {
        assert {2} <= m;
      }
      ScoreSaturation(text, EmailPatterns);
    } else if text != "" {
      assert m == {};
    }
  }

  /** A score saturates at one exactly when at least a third of the patterns match. */
  lemma ScoreSaturation(text: string, patterns: seq<string>)
    requires text != "" && patterns != []
    ensures MatchScore(text, patterns) == 1.0 <==> 3 * |MatchingPatterns(text, patterns)| >= |patterns|
  {
    var k := |MatchingPatterns(text, patterns)|;
    MatchScoreFormula(text, patterns);
    CappedFraction(k, |patterns|);
  }

  /** Three k over n, capped at one, is one exactly when 3k >= n. */
  lemma CappedFraction(k: nat, n: nat)
    requires n > 0
    ensures Min(3.0 * (k as real) / (n as real), 1.0) == 1.0 <==> 3 * k >= n
  {
    AtLeastOneQuotient(3.0 * (k as real), n as real);
  }

  /** A quotient by a positive number is at least one exactly when the dividend is at least the divisor. */
  lemma AtLeastOneQuotient(a: real, b: real)
    requires b > 0.0
    ensures a / b >= 1.0 <==> a >= b
  {
  }
}

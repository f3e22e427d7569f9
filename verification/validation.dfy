/**
  Field validators applied by the forms before any change to the store:
  the email pattern `^[^\s@]+@[^\s@]+\.[^\s@]+$` and the SKU rule.
*/
module Validation {
  import opened Text

  /** One `[^\s@]+` run of the email pattern. */
  predicate EmailRun(s: string) {
    |s| > 0 && forall k | 0 <= k < |s| :: !IsSpace(s[k]) && s[k] != '@'
  }

  /** `validateEmail`: the whole string splits as run `@` run `.` run.
      A match is a choice of the `@` position `i` and the `.` position `j`. */
  predicate ValidateEmail(email: string) {
    exists i, j | 0 <= i < j < |email| ::
      && email[i] == '@' && email[j] == '.'
      && EmailRun(email[..i]) && EmailRun(email[i + 1..j]) && EmailRun(email[j + 1..])
  }

  /** What an accepted address looks like, stated without the pattern: no
      whitespace, exactly one `@` with text before it, and a `.` after the
      `@` with text on both of its sides. */
  ghost predicate EmailShape(s: string) {
    && NoSpace(s)
    && multiset(s)['@'] == 1
    && exists i, j | 0 < i && i + 1 < j < |s| - 1 :: s[i] == '@' && s[j] == '.'
  }

  /** `validateSKU`: at least three characters and no whitespace. */
  predicate ValidateSKU(sku: string) {
    |sku| >= 3 && NoSpace(sku)
  }

  /** A character that occurs at two positions occurs twice. */
  lemma TwoOccurrences(s: string, i: int, k: int)
    requires 0 <= i < k < |s| && s[i] == s[k]
    ensures multiset(s)[s[i]] >= 2
  {
    assert s == s[..k] + s[k..];
    assert s[i] == s[..k][i];
    assert s[k] == s[k..][0];
  }

  /** The pattern accepts exactly the addresses of the described shape. */
  lemma EmailAcceptance(s: string)
    ensures ValidateEmail(s) <==> EmailShape(s)
  {
    if ValidateEmail(s) {
      var i, j :| 0 <= i < j < |s| && s[i] == '@' && s[j] == '.'
        && EmailRun(s[..i]) && EmailRun(s[i + 1..j]) && EmailRun(s[j + 1..]);
      EmailPartsShape(s, i, j);
    }
    if EmailShape(s) {
      var i, j :| 0 < i && i + 1 < j < |s| - 1 && s[i] == '@' && s[j] == '.';
      ShapeParts(s, i, j);
    }
  }

  lemma EmailPartsShape(s: string, i: int, j: int)
    requires 0 <= i < j < |s| && s[i] == '@' && s[j] == '.'
    requires EmailRun(s[..i]) && EmailRun(s[i + 1..j]) && EmailRun(s[j + 1..])
    ensures EmailShape(s)
  {
    var a, b, c := s[..i], s[i + 1..j], s[j + 1..];
    assert s == a + [s[i]] + b + [s[j]] + c;
    PartsNoSpace(s, i, j);
    assert '@' !in a && '@' !in b && '@' !in c;
    assert multiset(s) == multiset(a) + multiset{'@'} + multiset(b) + multiset{'.'} + multiset(c);
  }

  /** The three runs and the two separators leave no room for whitespace. */
  lemma PartsNoSpace(s: string, i: int, j: int)
    requires 0 <= i < j < |s| && s[i] == '@' && s[j] == '.'
    requires EmailRun(s[..i]) && EmailRun(s[i + 1..j]) && EmailRun(s[j + 1..])
    ensures NoSpace(s)
  {
    forall k | 0 <= k < |s| ensures !IsSpace(s[k]) {
      if k < i { assert s[k] == s[..i][k]; }
      else if i < k < j { assert s[k] == s[i + 1..j][k - i - 1]; }
      else if j < k { assert s[k] == s[j + 1..][k - j - 1]; }
    }
  }

  /** An accepted address contains no whitespace. */
  lemma AcceptedEmailNoSpace(s: string)
    requires ValidateEmail(s)
    ensures NoSpace(s)
  {
    var i, j :| 0 <= i < j < |s| && s[i] == '@' && s[j] == '.'
      && EmailRun(s[..i]) && EmailRun(s[i + 1..j]) && EmailRun(s[j + 1..]);
    PartsNoSpace(s, i, j);
  }

  lemma ShapeParts(s: string, i: int, j: int)
    requires EmailShape(s)
    requires 0 < i && i + 1 < j < |s| - 1 && s[i] == '@' && s[j] == '.'
    ensures EmailRun(s[..i]) && EmailRun(s[i + 1..j]) && EmailRun(s[j + 1..])
  {
    forall k | 0 <= k < |s| && k != i ensures s[k] != '@' {
      if s[k] == '@' {
        if k < i { TwoOccurrences(s, k, i); } else { TwoOccurrences(s, i, k); }
        assert false;
      }
    }
  }

  /** Consequences named separately: an accepted address has no whitespace,
      a single `@` preceded by text, and a `.` after it with text on both
      sides. */
  lemma AcceptedEmail(s: string)
    requires ValidateEmail(s)
    ensures NoSpace(s)
    ensures multiset(s)['@'] == 1
    ensures exists i | 0 < i < |s| :: s[i] == '@' && exists j | i + 1 < j < |s| - 1 :: s[j] == '.'
  {
    EmailAcceptance(s);
  }

  /** The worked examples of the SKU rule. */
  lemma SkuExamples()
    ensures !ValidateSKU("AB")
    ensures !ValidateSKU("AB 1")
    ensures ValidateSKU("SKU001")
  {
    assert IsSpace("AB 1"[2]);
  }

  /** An address of the seed data is accepted. */
  lemma EmailAccepted(s: string)
    requires s == "contato@alpha.com"
    ensures ValidateEmail(s)
  {
    assert s[7] == '@' && s[13] == '.';
    assert s[..7] == "contato" && s[8..13] == "alpha" && s[14..] == "com";
  }

  /** An address without a dot is refused. */
  lemma EmailWithoutDotRefused(s: string)
    requires s == "contato@alpha"
    ensures !ValidateEmail(s)
  {
    assert '.' !in s;
  }

  /** An address with a second `@` is refused. */
  lemma EmailWithTwoAtsRefused(s: string)
    requires s == "a@b@c.com"
    ensures !ValidateEmail(s)
  {
    EmailAcceptance(s);
    TwoOccurrences(s, 1, 3);
  }

  /** An address with a space is refused. */
  lemma EmailWithSpaceRefused(s: string)
    requires s == "a b@c.com"
    ensures !ValidateEmail(s)
  {
    EmailAcceptance(s);
    assert IsSpace(s[1]);
  }
}

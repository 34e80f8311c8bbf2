/**
 * The invite form's e-mail check, `/^[^\s@]+@[^\s@]+\.[^\s@]+$/.test(email)`,
 * shared by the members page and the team settings page.
 */
module Email {
  import opened Strings

  /** A character of the class `[^\s@]`. */
  predicate PartChar(c: char) {
    !IsSpace(c) && c != '@'
  }

  /** A run `[^\s@]+`. */
  predicate Part(s: string) {
    s != [] && forall i :: 0 <= i < |s| ==> PartChar(s[i])
  }

  /**
   * The pattern read as written: a run, `@`, a run, a literal dot, a run,
   * filling the whole string. The dot may be any dot after the `@` that
   * leaves a non-empty run on each side.
   */
  ghost predicate MatchesEmailPattern(s: string) {
    exists i, j :: 0 < i && i + 1 < j < |s| - 1 && s[i] == '@' && s[j] == '.'
      && Part(s[..i]) && Part(s[i + 1..j]) && Part(s[j + 1..])
  }

  /**
   * The check as a scan: exactly one `@`, not first; no whitespace anywhere;
   * and a dot at least two places after the `@` and before the last character.
   */
  predicate IsValidEmail(s: string) {
    var at := IndexOfChar(s, '@');
    && 0 < at < |s|
    && (forall i :: 0 <= i < |s| ==> !IsSpace(s[i]))
    && (forall i :: at < i < |s| ==> s[i] != '@')
    && (exists j :: at + 1 < j < |s| - 1 && s[j] == '.')
  }

  /** A string the scan accepts matches the pattern. */
  lemma ScanAcceptsOnlyMatches(s: string)
    requires IsValidEmail(s)
    ensures MatchesEmailPattern(s)
  {
    var at := IndexOfChar(s, '@');
    var j :| at + 1 < j < |s| - 1 && s[j] == '.';
    assert s[at] == '@';
    forall k | 0 <= k < at ensures s[..at][k] != '@' {
      assert s[..at][k] == s[k];
    }
    assert Part(s[..at]);
    assert Part(s[at + 1..j]);
    assert Part(s[j + 1..]);
  }

  /** A string matching the pattern passes the scan. */
  lemma ScanAcceptsAllMatches(s: string)
    requires MatchesEmailPattern(s)
    ensures IsValidEmail(s)
  {
    var i, j :| 0 < i && i + 1 < j < |s| - 1 && s[i] == '@' && s[j] == '.'
      && Part(s[..i]) && Part(s[i + 1..j]) && Part(s[j + 1..]);
    forall k | 0 <= k < |s| && k != i ensures PartChar(s[k]) {
      if k < i {
        assert s[k] == s[..i][k];
      } else if k < j {
        assert s[k] == s[i + 1..j][k - i - 1];
      } else if k > j {
        assert s[k] == s[j + 1..][k - j - 1];
      }
    }
    assert IndexOfChar(s, '@') == i;
  }

  /** The scan and the pattern accept the same strings. */
  lemma IsValidEmailMatchesPattern(s: string)
    ensures IsValidEmail(s) <==> MatchesEmailPattern(s)
  {
    if IsValidEmail(s) {
      ScanAcceptsOnlyMatches(s);
    }
    if MatchesEmailPattern(s) {
      ScanAcceptsAllMatches(s);
    }
  }
}

/** The e-mail test that the register form and `authService.register` share: the
    regular expression `^[^\s@]+@[^\s@]+\.[^\s@]+$`. `MatchesPattern` states what
    the expression matches; `IsEmailFormat` is a direct test, proved equal to it. */
module EmailFormat {
  import opened Common

  /** A character of the class `[^\s@]`. */
  predicate IsPlain(c: char)
  {
    !IsWhitespace(c) && c != '@'
  }

  /** A match of `[^\s@]+`. */
  predicate IsPlainRun(s: string)
  {
    |s| > 0 && forall i :: 0 <= i < |s| ==> IsPlain(s[i])
  }

  /** `s` is a run, `@`, a run, `.`, a run (the second run may itself hold dots). */
  ghost predicate MatchesPattern(s: string)
    ensures MatchesPattern(s) ==> |s| >= 5 && '@' in s && '.' in s
    ensures MatchesPattern(s) ==> forall i :: 0 <= i < |s| ==> !IsWhitespace(s[i])
  {
    exists at, dot :: 0 <= at < dot < |s| && s[at] == '@' && s[dot] == '.'
      && IsPlainRun(s[..at]) && IsPlainRun(s[at + 1..dot]) && IsPlainRun(s[dot + 1..])
  }

  /** The position of the first `c` in `s`. */
  function IndexOf(s: string, c: char): (k: nat)
    requires c in s
    ensures k < |s| && s[k] == c
    ensures forall i :: 0 <= i < k ==> s[i] != c
  {
    if s[0] == c then 0 else 1 + IndexOf(s[1..], c)
  }

  /** No whitespace anywhere, exactly one `@` with text before it, and a `.` after
      the `@` with at least one character on each side. */
  predicate IsEmailFormat(s: string)
  {
    && '@' in s
    && (forall i :: 0 <= i < |s| ==> !IsWhitespace(s[i]))
    && var at := IndexOf(s, '@');
    && 0 < at
    && (forall j :: at < j < |s| ==> s[j] != '@')
    && (exists dot :: at + 1 < dot < |s| - 1 && s[dot] == '.')
  }

  lemma IsEmailFormatMatches(s: string)
    requires IsEmailFormat(s)
    ensures MatchesPattern(s)
  {
    var at := IndexOf(s, '@');
    var dot :| at + 1 < dot < |s| - 1 && s[dot] == '.';
    var local, domain, tld := s[..at], s[at + 1..dot], s[dot + 1..];
    forall i | 0 <= i < |local| ensures IsPlain(local[i]) { assert local[i] == s[i]; }
    forall i | 0 <= i < |domain| ensures IsPlain(domain[i]) { assert domain[i] == s[at + 1 + i]; }
    forall i | 0 <= i < |tld| ensures IsPlain(tld[i]) { assert tld[i] == s[dot + 1 + i]; }
    assert IsPlainRun(local) && IsPlainRun(domain) && IsPlainRun(tld);
  }

  lemma MatchesIsEmailFormat(s: string)
    requires MatchesPattern(s)
    ensures IsEmailFormat(s)
  {
    var at, dot :| 0 <= at < dot < |s| && s[at] == '@' && s[dot] == '.'
      && IsPlainRun(s[..at]) && IsPlainRun(s[at + 1..dot]) && IsPlainRun(s[dot + 1..]);
    forall i | 0 <= i < |s| ensures !IsWhitespace(s[i]) && (i != at ==> s[i] != '@') {
      if i < at {
        assert s[i] == s[..at][i];
      } else if at < i < dot {
        assert s[i] == s[at + 1..dot][i - at - 1];
      } else if dot < i {
        assert s[i] == s[dot + 1..][i - dot - 1];
      }
    }
    assert IndexOf(s, '@') == at;
  }

  /** The direct test and the regular expression accept exactly the same strings. */
  lemma EmailFormatIffPattern(s: string)
    ensures IsEmailFormat(s) <==> MatchesPattern(s)
  {
    if IsEmailFormat(s) { IsEmailFormatMatches(s); }
    if MatchesPattern(s) { MatchesIsEmailFormat(s); }
  }
}

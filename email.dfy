/** The share form's address check, the regular expression
    `^[^\s@]+@[^\s@]+\.[^\s@]+$`, written as a character-level test and
    proved equal to the pattern read as a decomposition. */
module Email {
  import opened Text

  /** A character of the class `[^\s@]`. */
  predicate IsAtomChar(c: char) {
    !IsWhitespace(c) && c != '@'
  }

  /** `s[lo..hi]` is a run of `[^\s@]` characters. */
  predicate AtomRun(s: string, lo: int, hi: int)
    requires 0 <= lo <= hi <= |s|
  {
    forall k :: lo <= k < hi ==> IsAtomChar(s[k])
  }

  /** The pattern: `s` is A + "@" + B + "." + C with A, B and C non-empty
      runs of `[^\s@]`. B and C may themselves hold dots; the regular
      expression's backtracking may split at any of them. */
  ghost predicate MatchesEmailPattern(s: string) {
    exists i, j :: 0 < i && i + 1 < j && j + 1 < |s| && s[i] == '@' && s[j] == '.'
      && AtomRun(s, 0, i) && AtomRun(s, i + 1, j) && AtomRun(s, j + 1, |s|)
  }

  /** Index of the first `c` in `s`. */
  function IndexOf(s: string, c: char): (k: nat)
    requires c in s
    ensures k < |s| && s[k] == c && c !in s[..k]
  {
    if s[0] == c then 0 else 1 + IndexOf(s[1..], c)
  }

  /** The domain has a '.' that is neither its first nor its last character. */
  predicate HasInnerDot(d: string) {
    exists p :: 0 < p < |d| - 1 && d[p] == '.'
  }

  /** The test as the page applies it: no whitespace anywhere, exactly one
      '@', a non-empty local part before it, and a domain after it with an
      inner '.'. */
  predicate IsValidEmail(s: string)
    ensures IsValidEmail(s) ==> 5 <= |s| && s[0] != '@' && '@' in s
  {
    && (forall k :: 0 <= k < |s| ==> !IsWhitespace(s[k]))
    && multiset(s)['@'] == 1
    && var at := IndexOf(s, '@'); at > 0 && HasInnerDot(s[at + 1..])
  }

  /** The character-level test accepts exactly the strings the regular
      expression matches. */
  lemma EmailPatternEquivalence(s: string)
    ensures IsValidEmail(s) <==> MatchesEmailPattern(s)
  {
    if IsValidEmail(s) {
      ValidMatches(s);
    }
    if MatchesEmailPattern(s) {
      var i, j :| 0 < i && i + 1 < j && j + 1 < |s| && s[i] == '@' && s[j] == '.'
        && AtomRun(s, 0, i) && AtomRun(s, i + 1, j) && AtomRun(s, j + 1, |s|);
      MatchesValid(s, i, j);
    }
  }

  lemma ValidMatches(s: string)
    requires IsValidEmail(s)
    ensures MatchesEmailPattern(s)
  {
    var at := IndexOf(s, '@');
    var d := s[at + 1..];
    var p :| 0 < p < |d| - 1 && d[p] == '.';
    var j := at + 1 + p;
    NoSecondAt(s, at);
    forall k | 0 <= k < |s| && k != at
      ensures IsAtomChar(s[k])
    {
      if k < at {
        assert s[k] == s[..at][k];
      } else {
        assert s[k] == d[k - at - 1];
      }
    }
    assert s[j] == d[p];
    assert AtomRun(s, 0, at) && AtomRun(s, at + 1, j) && AtomRun(s, j + 1, |s|);
  }

  /** With a single '@', none follows the first. */
  lemma NoSecondAt(s: string, at: nat)
    requires at < |s| && s[at] == '@' && multiset(s)['@'] == 1
    ensures '@' !in s[at + 1..]
  {
    var d := s[at + 1..];
    assert s == s[..at] + [s[at]] + d;
    assert multiset(s) == multiset(s[..at]) + multiset([s[at]]) + multiset(d);
    assert multiset(d)['@'] == 0;
  }

  lemma MatchesValid(s: string, i: nat, j: nat)
    requires 0 < i && i + 1 < j && j + 1 < |s| && s[i] == '@' && s[j] == '.'
    requires AtomRun(s, 0, i) && AtomRun(s, i + 1, j) && AtomRun(s, j + 1, |s|)
    ensures IsValidEmail(s)
  {
    forall k | 0 <= k < |s| ensures !IsWhitespace(s[k]) && (k != i ==> s[k] != '@') {
    }
    var a, d := s[..i], s[i + 1..];
    assert '@' !in a by {
      forall k | 0 <= k < |a| ensures a[k] != '@' { assert a[k] == s[k]; }
    }
    assert '@' !in d by {
      forall k | 0 <= k < |d| ensures d[k] != '@' { assert d[k] == s[i + 1 + k]; }
    }
    OneAt(s, i);
    IndexOfUnique(s, '@', i);
    assert d[j - i - 1] == '.';
  }

  lemma OneAt(s: string, i: nat)
    requires i < |s| && s[i] == '@' && '@' !in s[..i] && '@' !in s[i + 1..]
    ensures multiset(s)['@'] == 1
  {
    assert s == s[..i] + [s[i]] + s[i + 1..];
    assert multiset(s) == multiset(s[..i]) + multiset([s[i]]) + multiset(s[i + 1..]);
  }

  lemma IndexOfUnique(s: string, c: char, i: nat)
    requires i < |s| && s[i] == c && c !in s[..i]
    ensures IndexOf(s, c) == i
  {
    var at := IndexOf(s, c);
    assert forall k :: 0 <= k < at ==> s[..at][k] == s[k];
    assert forall k :: 0 <= k < i ==> s[..i][k] == s[k];
  }

  /** `emailList.filter(email => !isValidEmail(email))`: the rejected
      candidates, in input order. */
  function InvalidEmails(list: seq<string>): (r: seq<string>)
    ensures |r| <= |list|
    ensures forall e :: e in r <==> e in list && !IsValidEmail(e)
  {
    if list == [] then []
    else if IsValidEmail(list[0]) then InvalidEmails(list[1..])
    else [list[0]] + InvalidEmails(list[1..])
  }

  /** Candidates are reported in input order: the report for a
      concatenation is the concatenation of the reports. */
  lemma {:induction false} InvalidEmailsConcat(a: seq<string>, b: seq<string>)
    ensures InvalidEmails(a + b) == InvalidEmails(a) + InvalidEmails(b)
  {
    if a == [] {
      assert a + b == b;
    } else {
      assert (a + b)[0] == a[0];
      assert (a + b)[1..] == a[1..] + b;
      InvalidEmailsConcat(a[1..], b);
    }
  }
}

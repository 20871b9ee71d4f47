/** The three registration patterns. The server (backend/server.js) and the
    sign-up form (src/AuthForm.jsx) write the same regular expressions, so
    they are defined once here:

      name      /^[A-Za-z\s]+$/
      email     /^[^\s@]+@[^\s@]+\.[^\s@]+$/
      password  /^(?=.*[A-Za-z])(?=.*\d)(?=.*[@$!%*#?&])[A-Za-z\d@$!%*#?&]{8,}$/
*/
module Patterns {
  import opened Js

  predicate IsAsciiLetter(c: char) {
    ('A' <= c <= 'Z') || ('a' <= c <= 'z')
  }

  /** The symbol class `[@$!%*#?&]`. */
  predicate IsPasswordSymbol(c: char) {
    c in "@$!%*#?&"
  }

  /** One or more characters, each an ASCII letter or `\s`. */
  predicate NamePattern(s: string) {
    |s| > 0 && forall i :: 0 <= i < |s| ==> IsAsciiLetter(s[i]) || IsSpace(s[i])
  }

  /** A run of `[^\s@]+`: non-empty, no white space, no `@`. */
  predicate EmailPart(t: string) {
    |t| > 0 && forall k :: 0 <= k < |t| ==> !IsSpace(t[k]) && t[k] != '@'
  }

  /** What the e-mail expression matches: some `@` and some later `.` cut
      the string into three such runs. */
  ghost predicate EmailMatches(s: string) {
    exists i, j :: 0 <= i < j < |s| && s[i] == '@' && s[j] == '.'
      && EmailPart(s[..i]) && EmailPart(s[i + 1..j]) && EmailPart(s[j + 1..])
  }

  /** The index of the first occurrence of `c` in `s`. */
  function IndexOf(s: string, c: char): (r: Option<nat>)
    ensures r.None? <==> c !in s
    ensures r.Some? ==> r.value < |s| && s[r.value] == c && c !in s[..r.value]
  {
    if s == [] then None
    else if s[0] == c then Some(0)
    else
      match IndexOf(s[1..], c)
      case None => None
      case Some(k) => assert s[..k + 1] == [s[0]] + s[1..][..k]; Some(k + 1)
  }

  predicate NoSpace(s: string) {
    forall k :: 0 <= k < |s| ==> !IsSpace(s[k])
  }

  /** The part after the `@`: no further `@`, and a `.` strictly inside it. */
  predicate DomainFormat(d: string) {
    '@' !in d && |d| >= 3 && '.' in d[1..|d| - 1]
  }

  /** A single left-to-right reading of the e-mail expression: the first `@`
      splits the string, nothing is white space, and the part after the `@`
      has the domain format. */
  predicate EmailFormat(s: string) {
    match IndexOf(s, '@')
    case None => false
    case Some(i) => i > 0 && NoSpace(s) && DomainFormat(s[i + 1..])
  }

  lemma NoSpaceSlice(s: string, a: nat, b: nat)
    requires NoSpace(s) && a <= b <= |s|
    ensures NoSpace(s[a..b])
  {
    forall k | 0 <= k < b - a ensures !IsSpace(s[a..b][k]) {
      assert s[a..b][k] == s[a + k];
    }
  }

  lemma FormatGivesMatch(s: string)
    requires EmailFormat(s)
    ensures EmailMatches(s)
  {
    var i := IndexOf(s, '@').value;
    var d := s[i + 1..];
    var m :| 1 <= m < |d| - 1 && d[m] == '.';
    assert d[1..|d| - 1][m - 1] == '.';
    var j := i + 1 + m;
    assert s[j] == d[m];
    NoSpaceSlice(s, 0, i);
    NoSpaceSlice(s, i + 1, j);
    NoSpaceSlice(s, j + 1, |s|);
    assert s[i + 1..j] == d[..m] && s[j + 1..] == d[m + 1..];
    assert EmailPart(s[..i]) && EmailPart(s[i + 1..j]) && EmailPart(s[j + 1..]);
  }

  lemma PartHasNoAt(t: string)
    requires EmailPart(t)
    ensures '@' !in t && NoSpace(t)
  {
  }

  lemma FirstIndex(s: string, c: char, i: nat)
    requires i < |s| && s[i] == c && c !in s[..i]
    ensures IndexOf(s, c) == Some(i)
  {
  }

  lemma NoSpaceJoin(a: string, x: char, b: string)
    requires NoSpace(a) && !IsSpace(x) && NoSpace(b)
    ensures NoSpace(a + [x] + b)
  {
    var s := a + [x] + b;
    forall k | 0 <= k < |s| ensures !IsSpace(s[k]) {
      if k < |a| { assert s[k] == a[k]; }
      else if k > |a| { assert s[k] == b[k - |a| - 1]; }
    }
  }

  lemma CutGivesFormat(s: string, i: nat, j: nat)
    requires i < j < |s| && s[i] == '@' && s[j] == '.'
    requires EmailPart(s[..i]) && EmailPart(s[i + 1..j]) && EmailPart(s[j + 1..])
    ensures EmailFormat(s)
  {
    var a, b, c, d := s[..i], s[i + 1..j], s[j + 1..], s[i + 1..];
    PartHasNoAt(a);
    PartHasNoAt(b);
    PartHasNoAt(c);
    FirstIndex(s, '@', i);
    assert d == b + [s[j]] + c;
    NoSpaceJoin(b, s[j], c);
    assert s == a + [s[i]] + d;
    NoSpaceJoin(a, s[i], d);
    assert d[1..|d| - 1][j - i - 2] == '.';
    assert DomainFormat(d);
  }

  lemma MatchGivesFormat(s: string)
    requires EmailMatches(s)
    ensures EmailFormat(s)
  {
    var i, j :| 0 <= i < j < |s| && s[i] == '@' && s[j] == '.'
      && EmailPart(s[..i]) && EmailPart(s[i + 1..j]) && EmailPart(s[j + 1..]);
    CutGivesFormat(s, i, j);
  }

  /** `EmailFormat` decides exactly the strings the e-mail expression matches. */
  lemma EmailFormatMatchesPattern(s: string)
    ensures EmailFormat(s) <==> EmailMatches(s)
  {
    if EmailFormat(s) { FormatGivesMatch(s); }
    if EmailMatches(s) { MatchGivesFormat(s); }
  }

  /** Eight or more characters from `[A-Za-z\d@$!%*#?&]`, with at least one
      letter, one digit and one symbol. */
  predicate PasswordPattern(s: string) {
    && |s| >= 8
    && (forall i :: 0 <= i < |s| ==> IsAsciiLetter(s[i]) || IsDigit(s[i]) || IsPasswordSymbol(s[i]))
    && (exists i :: 0 <= i < |s| && IsAsciiLetter(s[i]))
    && (exists i :: 0 <= i < |s| && IsDigit(s[i]))
    && (exists i :: 0 <= i < |s| && IsPasswordSymbol(s[i]))
  }
}

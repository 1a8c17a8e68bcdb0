/** The email rule shared by the contact form and the intake form: the
    regular expression `^[^\s@]+@[^\s@]+\.[^\s@]+$`. */
module Email {
  import opened Text

  /** A character of the class `[^\s@]`. */
  predicate Plain(c: char) {
    !IsSpace(c) && c != '@'
  }

  /** `[^\s@]+`: one or more plain characters. */
  ghost predicate Atom(p: string) {
    |p| > 0 && forall k :: 0 <= k < |p| ==> Plain(p[k])
  }

  /** What the regular expression matches, read as a concatenation: a local
      part, "@", a domain, ".", and a last label. */
  ghost predicate MatchesEmailPattern(s: string) {
    exists local: string, domain: string, tld: string ::
      Atom(local) && Atom(domain) && Atom(tld) && s == local + "@" + domain + "." + tld
  }

  /** `isValidEmail`, computed by scanning: no whitespace anywhere, one "@"
      that is not the first character, and a "." after it that is neither
      next to the "@" nor the last character. */
  function IsValidEmail(email: string): bool {
    var at := IndexOf(email, '@');
    && 0 < at < |email|
    && (forall k | 0 <= k < |email| :: !IsSpace(email[k]))
    && (forall k | at < k < |email| :: email[k] != '@')
    && exists j | at + 1 < j < |email| - 1 :: email[j] == '.'
  }

  /** Every string the scan accepts splits as the pattern requires. */
  lemma ScanMatchesPattern(s: string)
    requires IsValidEmail(s)
    ensures MatchesEmailPattern(s)
  {
    var at := IndexOf(s, '@');
    var j :| at + 1 < j < |s| - 1 && s[j] == '.';
    var local, domain, tld := s[..at], s[at + 1..j], s[j + 1..];
    assert Atom(local);
    assert Atom(domain);
    assert Atom(tld);
    assert s == local + "@" + domain + "." + tld;
  }

  /** Every concatenation the pattern describes passes the scan. */
  lemma PatternPassesScan(local: string, domain: string, tld: string)
    requires Atom(local) && Atom(domain) && Atom(tld)
    ensures IsValidEmail(local + "@" + domain + "." + tld)
  {
    var s := local + "@" + domain + "." + tld;
    var at := |local|;
    var j := |local| + 1 + |domain|;
    assert s[at] == '@';
    assert forall k :: 0 <= k < at ==> s[k] == local[k];
    assert IndexOf(s, '@') == at;
    assert forall k :: at < k < j ==> s[k] == domain[k - at - 1];
    assert forall k :: j < k < |s| ==> s[k] == tld[k - j - 1];
    assert s[j] == '.';
  }

  /** The scan accepts exactly the strings the regular expression matches. */
  lemma EmailMatchesPattern(s: string)
    ensures IsValidEmail(s) <==> MatchesEmailPattern(s)
  {
    if IsValidEmail(s) {
      ScanMatchesPattern(s);
    }
    if MatchesEmailPattern(s) {
      var local: string, domain: string, tld: string :|
        Atom(local) && Atom(domain) && Atom(tld) && s == local + "@" + domain + "." + tld;
      PatternPassesScan(local, domain, tld);
    }
  }

  /** Two `@`, or none, is never a valid address. */
  lemma ValidEmailHasOneAt(s: string)
    requires IsValidEmail(s)
    ensures exists i :: 0 < i < |s| && s[i] == '@' && forall k :: 0 <= k < |s| && k != i ==> s[k] != '@'
  {
    var at := IndexOf(s, '@');
    assert forall k :: 0 <= k < |s| && k != at ==> s[k] != '@';
  }

  /** Lower-case letters and dots are plain characters. */
  lemma LowerCaseAtom(p: string)
    requires |p| > 0 && forall k :: 0 <= k < |p| ==> 'a' <= p[k] <= 'z' || p[k] == '.'
    ensures Atom(p)
  {
  }

  lemma EmailSample(s: string)
    requires s == "jane.doe@example.org"
    ensures IsValidEmail(s)
  {
    var local, domain, tld := "jane.doe", "example", "org";
    LowerCaseAtom(local);
    LowerCaseAtom(domain);
    LowerCaseAtom(tld);
    PatternPassesScan(local, domain, tld);
    assert s == local + "@" + domain + "." + tld;
  }

  lemma EmailWithoutDotSample(s: string)
    requires s == "jane@localhost"
    ensures !IsValidEmail(s)
  {
    assert s[4] == '@';
    assert forall k :: 0 <= k < 4 ==> s[k] != '@';
    assert IndexOf(s, '@') == 4;
    assert forall j :: 0 <= j < |s| ==> s[j] != '.';
  }
}

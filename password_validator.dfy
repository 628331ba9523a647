/** The Password constraint annotation (shared validation/PasswordValidator.java): the
    whole value must match `^(?=.*[a-z])(?=.*[A-Z])(?=.*\d)(?=.*[^\w\s]).{8,}$`.
    Each lookahead scans within the first line (Java's `.` stops at a line
    terminator), and `.{8,}` must then consume the whole value. */
module PasswordValidator {
  import opened Wrappers
  import opened Text

  /** `[^\w\s]`. */
  predicate IsSpecial(c: char) {
    !IsJavaWordChar(c) && !IsJavaRegexSpace(c)
  }

  /** No line terminator among the first `k` characters. */
  predicate OnFirstLine(s: string, k: nat)
    requires k <= |s|
  {
    forall j :: 0 <= j < k ==> !IsJavaLineTerminator(s[j])
  }

  /** `(?=.*[a-z])` and its siblings: a character of the class is reached
      without crossing a line terminator. */
  predicate LookaheadLower(s: string) {
    exists k :: 0 <= k < |s| && IsAsciiLower(s[k]) && OnFirstLine(s, k)
  }

  predicate LookaheadUpper(s: string) {
    exists k :: 0 <= k < |s| && IsAsciiUpper(s[k]) && OnFirstLine(s, k)
  }

  predicate LookaheadDigit(s: string) {
    exists k :: 0 <= k < |s| && IsAsciiDigit(s[k]) && OnFirstLine(s, k)
  }

  predicate LookaheadSpecial(s: string) {
    exists k :: 0 <= k < |s| && IsSpecial(s[k]) && OnFirstLine(s, k)
  }

  /** `.{8,}$` under `matches`: eight or more characters, none a line
      terminator. */
  predicate DotsToEnd(s: string) {
    |s| >= 8 && OnFirstLine(s, |s|)
  }

  /** `value.matches(REGEX)`. */
  predicate MatchesRegex(s: string) {
    LookaheadLower(s) && LookaheadUpper(s) && LookaheadDigit(s) && LookaheadSpecial(s) && DotsToEnd(s)
  }

  /** `isValid`. */
  predicate IsValid(value: Option<string>) {
    value.Some? && MatchesRegex(value.value)
  }

  /** The rule in plain words: at least eight characters on one line, with a
      lower-case letter, an upper-case letter, a digit and a character that
      is neither a word character nor a space. */
  predicate Strong(s: string) {
    |s| >= 8
    && (forall j :: 0 <= j < |s| ==> !IsJavaLineTerminator(s[j]))
    && (exists k :: 0 <= k < |s| && IsAsciiLower(s[k]))
    && (exists k :: 0 <= k < |s| && IsAsciiUpper(s[k]))
    && (exists k :: 0 <= k < |s| && IsAsciiDigit(s[k]))
    && (exists k :: 0 <= k < |s| && IsSpecial(s[k]))
  }

  /** The regular expression accepts exactly the strong passwords. */
  lemma RegexIsStrong(s: string)
    ensures MatchesRegex(s) <==> Strong(s)
  {
    if Strong(s) {
      var a :| 0 <= a < |s| && IsAsciiLower(s[a]);
      var b :| 0 <= b < |s| && IsAsciiUpper(s[b]);
      var c :| 0 <= c < |s| && IsAsciiDigit(s[c]);
      var d :| 0 <= d < |s| && IsSpecial(s[d]);
      assert OnFirstLine(s, a) && OnFirstLine(s, b) && OnFirstLine(s, c) && OnFirstLine(s, d);
    }
  }

  lemma NullIsInvalid()
    ensures !IsValid(None)
  {
  }

  /** A valid password has at least eight characters and one character of
      each of the four kinds. */
  lemma ValidIsStrong(value: Option<string>)
    requires IsValid(value)
    ensures Strong(value.value)
  {
    RegexIsStrong(value.value);
  }

  /** "Password123!" is valid. */
  lemma AcceptsExample(s: string)
    requires s == "Password123!"
    ensures IsValid(Some(s))
  {
    assert IsAsciiUpper(s[0]) && IsAsciiLower(s[1]) && IsAsciiDigit(s[8]) && IsSpecial(s[11]);
    assert OnFirstLine(s, |s|);
    RegexIsStrong(s);
  }

  /** "Pass1!" is too short, "Password123" has no special character and
      "password123!" no upper-case letter. */
  lemma RefusesExamples(short: string, plain: string, lower: string)
    requires short == "Pass1!" && plain == "Password123" && lower == "password123!"
    ensures !IsValid(Some(short)) && !IsValid(Some(plain)) && !IsValid(Some(lower))
  {
    RegexIsStrong(plain);
    RegexIsStrong(lower);
    assert forall k :: 0 <= k < |plain| ==> IsJavaWordChar(plain[k]);
    assert forall k :: 0 <= k < |lower| ==> !IsAsciiUpper(lower[k]);
  }

  /** Appending characters on the same line keeps a password valid. */
  lemma AppendKeepsValid(s: string, t: string)
    requires IsValid(Some(s))
    requires forall j :: 0 <= j < |t| ==> !IsJavaLineTerminator(t[j])
    ensures IsValid(Some(s + t))
  {
    RegexIsStrong(s);
    var u := s + t;
    assert forall k :: 0 <= k < |s| ==> u[k] == s[k];
    var a :| 0 <= a < |s| && IsAsciiLower(s[a]);
    var b :| 0 <= b < |s| && IsAsciiUpper(s[b]);
    var c :| 0 <= c < |s| && IsAsciiDigit(s[c]);
    var d :| 0 <= d < |s| && IsSpecial(s[d]);
    assert IsAsciiLower(u[a]) && IsAsciiUpper(u[b]) && IsAsciiDigit(u[c]) && IsSpecial(u[d]);
    RegexIsStrong(u);
  }

  /** A line terminator anywhere makes the value invalid, so appending one
      to a valid password breaks it. */
  lemma LineTerminatorBreaks(s: string, k: nat)
    requires k < |s| && IsJavaLineTerminator(s[k])
    ensures !IsValid(Some(s))
  {
  }
}

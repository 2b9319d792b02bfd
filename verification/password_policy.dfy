/** The password rule both DTOs apply: `@IsString()`, `@MinLength(8)` and
    `@Matches(/^(?=.*\d)(?=.*[a-z])(?=.*[A-Z])(?=.*\W).+$/)`.  The pattern is
    read with ECMAScript RegExp semantics (section 22.2 of ECMA-262) and no
    flags. */
module PasswordPolicy {
  import opened ClassValidator

  const MinPasswordLength: nat := 8

  /** LF, CR, LINE SEPARATOR and PARAGRAPH SEPARATOR, the characters `.`
      does not match without the `s` flag (section 12.3 of ECMA-262). */
  predicate IsLineTerminator(c: char)
  {
    c == '\n' || c == '\r' || c == '\U{2028}' || c == '\U{2029}'
  }

  /** The characters of `\w` without the `u` and `i` flags. */
  predicate IsWordChar(c: char)
  {
    ('0' <= c <= '9') || ('a' <= c <= 'z') || ('A' <= c <= 'Z') || c == '_'
  }

  /** The four character classes the lookaheads ask for. */
  datatype CharClass = Digit | Lower | Upper | NonWord

  /** Membership in `\d`, `[a-z]`, `[A-Z]` and `\W`.  A scalar value above
      U+FFFF is two surrogate code units to the RegExp engine, each of them
      in `\W`, so it belongs to `\W` here too. */
  predicate InClass(k: CharClass, c: char)
  {
    match k
    case Digit => '0' <= c <= '9'
    case Lower => 'a' <= c <= 'z'
    case Upper => 'A' <= c <= 'Z'
    case NonWord => !IsWordChar(c)
  }

  /** `(?=.*X)` tried at position 0: some character of class `k` is
      preceded only by characters `.` matches. */
  predicate LookaheadFinds(s: string, k: CharClass)
  {
    exists i :: 0 <= i < |s| && InClass(k, s[i]) && forall j :: 0 <= j < i ==> !IsLineTerminator(s[j])
  }

  /** `.+$` from position 0 with no `m` flag: at least one character, and
      `.` matches every character up to the end of the input. */
  predicate DotPlusToEnd(s: string)
  {
    |s| >= 1 && forall j :: 0 <= j < |s| ==> !IsLineTerminator(s[j])
  }

  /** The strength pattern matches.  `^` without the `m` flag only matches at
      position 0, so the whole pattern is tried there and nowhere else. */
  predicate StrengthPatternMatches(s: string)
  {
    && LookaheadFinds(s, Digit)
    && LookaheadFinds(s, Lower)
    && LookaheadFinds(s, Upper)
    && LookaheadFinds(s, NonWord)
    && DotPlusToEnd(s)
  }

  /** The password decorators all pass. */
  predicate PasswordValid(v: JsValue)
  {
    IsString(v) && MinLength(v, MinPasswordLength) && StrengthPatternMatches(v.text)
  }

  predicate ContainsClass(s: string, k: CharClass)
  {
    exists i :: 0 <= i < |s| && InClass(k, s[i])
  }

  predicate NoLineTerminator(s: string)
  {
    forall j :: 0 <= j < |s| ==> !IsLineTerminator(s[j])
  }

  /** The plain reading of the pattern: a non-empty single line holding a
      digit, a lower-case and an upper-case ASCII letter, and a character
      outside `[A-Za-z0-9_]`. */
  predicate StrongPassword(s: string)
  {
    && |s| >= 1
    && NoLineTerminator(s)
    && ContainsClass(s, Digit)
    && ContainsClass(s, Lower)
    && ContainsClass(s, Upper)
    && ContainsClass(s, NonWord)
  }

  lemma LookaheadOnSingleLine(s: string, k: CharClass)
    requires NoLineTerminator(s)
    ensures LookaheadFinds(s, k) <==> ContainsClass(s, k)
  {
    if ContainsClass(s, k) {
      var i :| 0 <= i < |s| && InClass(k, s[i]);
      assert forall j :: 0 <= j < i ==> !IsLineTerminator(s[j]);
    }
  }

  /** The pattern matches exactly the strong passwords. */
  lemma StrengthPatternCharacterised(s: string)
    ensures StrengthPatternMatches(s) <==> StrongPassword(s)
  {
    if NoLineTerminator(s) {
      LookaheadOnSingleLine(s, Digit);
      LookaheadOnSingleLine(s, Lower);
      LookaheadOnSingleLine(s, Upper);
      LookaheadOnSingleLine(s, NonWord);
    }
  }

  /** What an accepted password is, stated without the pattern. */
  lemma PasswordValidCharacterised(v: JsValue)
    ensures PasswordValid(v) <==> v.JsString? && ValidatorLength(v.text) >= MinPasswordLength && StrongPassword(v.text)
  {
    if v.JsString? {
      StrengthPatternCharacterised(v.text);
    }
  }

  /** A password with fewer than eight characters is rejected, whatever the
      pattern says. */
  lemma ShortPasswordRejected(s: string)
    requires |s| < MinPasswordLength
    ensures !PasswordValid(JsString(s))
  {
  }

  /** Only strings can be passwords. */
  lemma NonStringRejected()
    ensures !PasswordValid(JsOther)
  {
  }

  /** An underscore is a word character, so it is no "special" character. */
  lemma UnderscoreIsNotSpecial()
    ensures !InClass(NonWord, '_')
    ensures InClass(NonWord, ' ')
  {
  }

  /** "Abcdef1!" is accepted. */
  lemma AcceptsMixedWithBang()
    ensures PasswordValid(JsString("Abcdef1!"))
  {
    var s := "Abcdef1!";
    forall i | 0 <= i < |s| ensures !IsPresentationSelector(s[i]) && !IsLineTerminator(s[i]) {
    }
    PlainLength(s);
    assert InClass(Digit, s[6]) && InClass(Lower, s[1]) && InClass(Upper, s[0]) && InClass(NonWord, s[7]);
    StrengthPatternCharacterised(s);
  }

  /** "Abc 1efg" is accepted: a space is in `\W`. */
  lemma AcceptsSpaceAsSpecial()
    ensures PasswordValid(JsString("Abc 1efg"))
  {
    var s := "Abc 1efg";
    forall i | 0 <= i < |s| ensures !IsPresentationSelector(s[i]) && !IsLineTerminator(s[i]) {
    }
    PlainLength(s);
    assert InClass(Digit, s[4]) && InClass(Lower, s[1]) && InClass(Upper, s[0]) && InClass(NonWord, s[3]);
    StrengthPatternCharacterised(s);
  }

  /** "abcdef1!" has no upper-case letter. */
  lemma RejectsWithoutUpper()
    ensures !PasswordValid(JsString("abcdef1!"))
  {
    var s := "abcdef1!";
    forall i | 0 <= i < |s| ensures !InClass(Upper, s[i]) {
    }
    StrengthPatternCharacterised(s);
  }

  /** "Abcdefg!" has no digit. */
  lemma RejectsWithoutDigit()
    ensures !PasswordValid(JsString("Abcdefg!"))
  {
    var s := "Abcdefg!";
    forall i | 0 <= i < |s| ensures !InClass(Digit, s[i]) {
    }
    StrengthPatternCharacterised(s);
  }

  /** "Abcdef1_" has no character outside `[A-Za-z0-9_]`. */
  lemma RejectsUnderscoreAsOnlySpecial()
    ensures !PasswordValid(JsString("Abcdef1_"))
  {
    var s := "Abcdef1_";
    forall i | 0 <= i < |s| ensures !InClass(NonWord, s[i]) {
    }
    StrengthPatternCharacterised(s);
  }

  /** "Abc1!de" matches the pattern but is one character short. */
  lemma RejectsSevenCharacters()
    ensures StrengthPatternMatches("Abc1!de")
    ensures !PasswordValid(JsString("Abc1!de"))
  {
    var s := "Abc1!de";
    forall i | 0 <= i < |s| ensures !IsLineTerminator(s[i]) {
    }
    assert InClass(Digit, s[3]) && InClass(Lower, s[1]) && InClass(Upper, s[0]) && InClass(NonWord, s[4]);
    StrengthPatternCharacterised(s);
  }

  /** Some character among the first `n` of `s` is in class `k`. */
  predicate SeenBefore(s: string, n: nat, k: CharClass)
    requires n <= |s|
  {
    exists j :: 0 <= j < n && InClass(k, s[j])
  }

  /** A line terminator occurs among the first `n` characters of `s`. */
  predicate TerminatorBefore(s: string, n: nat)
    requires n <= |s|
  {
    exists j :: 0 <= j < n && IsLineTerminator(s[j])
  }

  /** Scanning one more character extends the flags by that character. */
  lemma ScanStep(s: string, i: nat)
    requires i < |s|
    ensures forall k :: SeenBefore(s, i + 1, k) == (SeenBefore(s, i, k) || InClass(k, s[i]))
    ensures TerminatorBefore(s, i + 1) == (TerminatorBefore(s, i) || IsLineTerminator(s[i]))
    ensures PresentationSelectorCount(s[..i + 1])
         == PresentationSelectorCount(s[..i]) + (if IsPresentationSelector(s[i]) then 1 else 0)
  {
    assert s[..i + 1][..i] == s[..i];
  }

  /** Having scanned the whole string, the scan flags are the plain rule's
      ingredients. */
  lemma ScannedWhole(s: string)
    ensures SeenBefore(s, |s|, Digit) == ContainsClass(s, Digit)
    ensures SeenBefore(s, |s|, Lower) == ContainsClass(s, Lower)
    ensures SeenBefore(s, |s|, Upper) == ContainsClass(s, Upper)
    ensures SeenBefore(s, |s|, NonWord) == ContainsClass(s, NonWord)
    ensures TerminatorBefore(s, |s|) == !NoLineTerminator(s)
  {
  }

  /** Decides the policy in one pass over the string. */
  method CheckPassword(v: JsValue) returns (ok: bool)
    ensures ok <==> PasswordValid(v)
  {
    if !v.JsString? {
      return false;
    }
    var s := v.text;
    var selectors := 0;
    var digit, lower, upper, special, terminator := false, false, false, false, false;
    var i := 0;
    while i < |s|
      invariant 0 <= i <= |s|
      invariant selectors == PresentationSelectorCount(s[..i])
      invariant digit == SeenBefore(s, i, Digit)
      invariant lower == SeenBefore(s, i, Lower)
      invariant upper == SeenBefore(s, i, Upper)
      invariant special == SeenBefore(s, i, NonWord)
      invariant terminator == TerminatorBefore(s, i)
    {
      var c := s[i];
      ScanStep(s, i);
      selectors := selectors + (if IsPresentationSelector(c) then 1 else 0);
      digit := digit || InClass(Digit, c);
      lower := lower || InClass(Lower, c);
      upper := upper || InClass(Upper, c);
      special := special || InClass(NonWord, c);
      terminator := terminator || IsLineTerminator(c);
      i := i + 1;
    }
    assert s[..|s|] == s;
    ScannedWhole(s);
    StrengthPatternCharacterised(s);
    ok := |s| - selectors >= MinPasswordLength && |s| >= 1 && !terminator && digit && lower && upper && special;
  }
}

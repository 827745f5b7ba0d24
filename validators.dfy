/** `UserValidator`: each method builds a Django `RegexValidator` around
    one of the patterns and applies it. The validator raises
    `ValidationError` with its message when `re.search` finds no match;
    for these `^...$` patterns `re.search` succeeds on the whole string or
    on the string without one final line break, because `$` also matches
    just before a trailing newline. The validators keep no state. */
module Validators {
  import opened Outcomes
  import opened Constants

  const EmailMessage := "Geçerli bir email adresi giriniz"
  const PhoneMessage := "Geçerli bir telefon numarası giriniz"
  const PasswordMessage := "Şifre en az 8 karakter uzunluğunda olmalı ve en az bir harf ve bir rakam içermelidir"

  predicate EndsInNewline(s: string) {
    s != [] && s[|s| - 1] == '\n'
  }

  /** `s` without one final line break. */
  function StripFinalNewline(s: string): (r: string)
    ensures EndsInNewline(s) ==> s == r + "\n"
    ensures !EndsInNewline(s) ==> r == s
  {
    if EndsInNewline(s) then s[..|s| - 1] else s
  }

  /** `re.search` with the phone pattern. */
  predicate PhoneSearch(s: string) {
    PhonePattern(s) || (EndsInNewline(s) && PhonePattern(s[..|s| - 1]))
  }

  /** `re.search` with the email pattern. */
  predicate EmailSearch(s: string) {
    EmailPattern(s) || (EndsInNewline(s) && EmailPattern(s[..|s| - 1]))
  }

  /** `re.search` with the password pattern. The look-aheads run from the
      start of the whole string; only the final `$` may stop before a
      trailing newline. */
  predicate PasswordSearch(s: string) {
    LetterAhead(s) && DigitAhead(s)
    && (AlnumRun(s, 8) || (EndsInNewline(s) && AlnumRun(s[..|s| - 1], 8)))
  }

  /** How a `RegexValidator` call ends: normally, or raising a
      `ValidationError` whose `message` attribute is `message` (its `str()`
      would be `['message']`; no caller in the core converts it). */
  function Apply(matched: bool, message: string): (r: Outcome<()>)
    ensures r.Ok? <==> matched
    ensures r.Raised? ==> r.message == message
  {
    if matched then Ok(()) else Raised(message)
  }

  /** `validate_email`: returns normally exactly for addresses with one
      `@`, a local part over `[A-Za-z0-9._%+-]` and a domain ending in a
      dot and two or more letters (a final newline aside). */
  function ValidateEmail(email: string): (r: Outcome<()>)
    ensures r.Ok? <==> EmailShape(StripFinalNewline(email))
    ensures r.Raised? ==> r.message == EmailMessage
  {
    EmailSearchExactly(email);
    Apply(EmailSearch(email), EmailMessage)
  }

  /** `validate_phone`: returns normally exactly for an optional `+` and
      then 9 to 15 digits, or 16 digits starting with `1`. */
  function ValidatePhone(phone: string): (r: Outcome<()>)
    ensures r.Ok? <==> PhoneShape(StripFinalNewline(phone))
    ensures r.Raised? ==> r.message == PhoneMessage
  {
    PhoneSearchExactly(phone);
    Apply(PhoneSearch(phone), PhoneMessage)
  }

  /** `validate_password`: returns normally exactly for 8 or more ASCII
      letters and digits with at least one of each. */
  function ValidatePassword(password: string): (r: Outcome<()>)
    ensures r.Ok? <==> PasswordShape(StripFinalNewline(password))
    ensures r.Raised? ==> r.message == PasswordMessage
    ensures r.Ok? ==> |password| >= 8
  {
    PasswordSearchExactly(password);
    Apply(PasswordSearch(password), PasswordMessage)
  }

  /** The email search accepts exactly the email shape, a final newline
      aside. */
  lemma EmailSearchExactly(s: string)
    ensures EmailSearch(s) <==> EmailShape(StripFinalNewline(s))
  {
    EmailPatternExactly(s);
    if EndsInNewline(s) {
      EmailPatternExactly(s[..|s| - 1]);
      EmailNeedsLetterAtEnd(s);
    }
  }

  /** The phone search accepts exactly the phone shape, a final newline
      aside. */
  lemma PhoneSearchExactly(s: string)
    ensures PhoneSearch(s) <==> PhoneShape(StripFinalNewline(s))
  {
    PhonePatternExactly(s);
    if EndsInNewline(s) {
      PhonePatternExactly(s[..|s| - 1]);
      PhoneNeedsDigitAtEnd(s);
    }
  }

  lemma EmailNeedsLetterAtEnd(s: string)
    requires EndsInNewline(s)
    ensures !EmailPattern(s)
  {
    if EmailPattern(s) {
      var k := EmailLocalSound(s, false);
      var t := EmailDomainSound(s[k + 1..], false);
      EndsInLetter(s, k, t);
    }
  }

  /** An address whose domain has a top-level dot ends in a letter. */
  lemma EndsInLetter(s: string, k: nat, t: nat)
    requires k < |s| && TopLevelDotAt(s[k + 1..], t, 1)
    ensures IsLetter(s[|s| - 1])
  {
    var d := s[k + 1..];
    assert d[|d| - 1] == s[|s| - 1];
  }

  lemma PhoneNeedsDigitAtEnd(s: string)
    requires EndsInNewline(s)
    ensures !PhonePattern(s)
  {
    PhonePatternExactly(s);
    if s[0] == '+' {
      assert s[1..][|s| - 2] == s[|s| - 1];
    }
  }

  /** The password search accepts exactly the password shape, a final
      newline aside. */
  lemma PasswordSearchExactly(s: string)
    ensures PasswordSearch(s) <==> PasswordShape(StripFinalNewline(s))
  {
    var body := StripFinalNewline(s);
    PasswordPatternExactly(body);
    AlnumRunExactly(s, 8);
    AlnumRunExactly(body, 8);
    if EndsInNewline(s) {
      assert !IsAlnum(s[|s| - 1]);
      if AllAlnum(body) {
        forall i | 0 <= i < |body| ensures body[i] != '\n' { assert IsAlnum(body[i]); }
        LetterAheadExactly(body);
        DigitAheadExactly(body);
        LetterAheadOfPrefix(body, "\n");
        DigitAheadOfPrefix(body, "\n");
      }
    }
  }

  /** A look-ahead that finds its letter in a prefix finds it in the whole
      string, and the other way round when the prefix has no line break. */
  lemma {:induction false} LetterAheadOfPrefix(s: string, rest: string)
    requires forall i :: 0 <= i < |s| ==> s[i] != '\n'
    ensures LetterAhead(s + rest) <==> LetterAhead(s) || LetterAhead(rest)
    decreases |s|
  {
    if s != [] {
      assert (s + rest)[1..] == s[1..] + rest;
      LetterAheadOfPrefix(s[1..], rest);
    } else {
      assert s + rest == rest;
    }
  }

  lemma {:induction false} DigitAheadOfPrefix(s: string, rest: string)
    requires forall i :: 0 <= i < |s| ==> s[i] != '\n'
    ensures DigitAhead(s + rest) <==> DigitAhead(s) || DigitAhead(rest)
    decreases |s|
  {
    if s != [] {
      assert (s + rest)[1..] == s[1..] + rest;
      DigitAheadOfPrefix(s[1..], rest);
    } else {
      assert s + rest == rest;
    }
  }

  /** However many letters and digits it has, a password with a space or
      a punctuation mark in it is refused. */
  lemma PasswordRejectsPunctuation(password: string, i: nat)
    requires i < |password| && !IsAlnum(password[i]) && password[i] != '\n'
    ensures ValidatePassword(password) == Raised(PasswordMessage)
  {
    var body := StripFinalNewline(password);
    assert i < |body| && body[i] == password[i];
  }

  /** Spaces, dashes and parentheses make a phone number invalid. */
  lemma PhoneRejectsSeparators(phone: string, i: nat)
    requires i < |phone| && (phone[i] == ' ' || phone[i] == '-' || phone[i] == '(' || phone[i] == ')')
    ensures ValidatePhone(phone) == Raised(PhoneMessage)
  {
    var body := StripFinalNewline(phone);
    assert i < |body| && body[i] == phone[i];
    PhoneRejectsPunctuation(body, i);
    PhonePatternExactly(body);
  }

  /** An accepted address has exactly one `@`. */
  lemma AcceptedEmailHasOneAt(email: string)
    requires ValidateEmail(email).Ok?
    ensures var body := StripFinalNewline(email);
            exists k :: 0 < k < |body| && body[k] == '@'
                        && forall j :: 0 <= j < |body| && body[j] == '@' ==> j == k
  {
    var body := StripFinalNewline(email);
    assert EmailShape(body);
    var k: nat :| AtSplit(body, k);
    assert 0 < k < |body| && body[k] == '@';
  }
}

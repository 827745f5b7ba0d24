/** The user-type names and the three validation patterns of
    `constants.py`. Each regular expression is a recursive predicate that
    follows the pattern token by token over the whole string, trying the
    alternatives a backtracking matcher tries; beside it stands a direct
    description of the strings it accepts, and a lemma that the two agree.
    Text is taken to be ASCII. */
module Constants {
  import opened Strings

  /** `USER_TYPES`. */
  const UserTypes: map<string, string> := map["ADMIN" := "admin", "STUDENT" := "student", "COMPANY" := "company"]

  /** `ERROR_MESSAGES`. No code of the core reads this map. */
  const ErrorMessages: map<string, string> := map[
    "USER_NOT_FOUND" := "Kullanıcı bulunamadı",
    "INVALID_INPUT" := "Geçersiz giriş",
    "AUTHENTICATION_REQUIRED" := "Lütfen giriş yapınız",
    "INVALID_USER_TYPE" := "Geçersiz kullanıcı tipi",
    "NO_UPDATE_FIELDS" := "Herhangi bir güncelleme yapılmadı. En az bir alan doldurulmalıdır",
    "ADMIN_UPDATE_FORBIDDEN" := "Admin kullanıcısı güncellenemez",
    "STUDENT_NOT_FOUND" := "Öğrenci bulunamadı",
    "COMPANY_NOT_FOUND" := "Şirket bulunamadı"]

  /** The keys and values of the map; each value is the lower-case form
      of its key and is left unchanged by `lower()`. */
  lemma UserTypeNames()
    ensures UserTypes.Keys == {"ADMIN", "STUDENT", "COMPANY"}
    ensures UserTypes.Values == {"admin", "student", "company"}
    ensures Lower("ADMIN") == UserTypes["ADMIN"] == Lower(UserTypes["ADMIN"])
    ensures Lower("STUDENT") == UserTypes["STUDENT"] == Lower(UserTypes["STUDENT"])
    ensures Lower("COMPANY") == UserTypes["COMPANY"] == Lower(UserTypes["COMPANY"])
  {
    UserTypeSets();
    LowerAdmin();
    LowerStudent();
    LowerCompany();
  }

  lemma UserTypeSets()
    ensures UserTypes.Keys == {"ADMIN", "STUDENT", "COMPANY"}
    ensures UserTypes.Values == {"admin", "student", "company"}
    ensures UserTypes["ADMIN"] == "admin" && UserTypes["STUDENT"] == "student" && UserTypes["COMPANY"] == "company"
  {
  }

  lemma LowerAdmin() ensures Lower("ADMIN") == "admin" == Lower("admin") { assert LowerChar('A') == 'a'; }
  lemma LowerStudent() ensures Lower("STUDENT") == "student" == Lower("student") { assert LowerChar('S') == 's'; }
  lemma LowerCompany() ensures Lower("COMPANY") == "company" == Lower("company") { assert LowerChar('C') == 'c'; }

  /** Character classes
      ----------------- */

  predicate IsDigit(c: char) { '0' <= c <= '9' }
  predicate IsLetter(c: char) { 'A' <= c <= 'Z' || 'a' <= c <= 'z' }
  predicate IsAlnum(c: char) { IsLetter(c) || IsDigit(c) }
  /** `[a-zA-Z0-9._%+-]` */
  predicate IsLocalChar(c: char) { IsAlnum(c) || c == '.' || c == '_' || c == '%' || c == '+' || c == '-' }
  /** `[a-zA-Z0-9.-]` */
  predicate IsDomainChar(c: char) { IsAlnum(c) || c == '.' || c == '-' }

  predicate AllDigits(s: string) { forall i :: 0 <= i < |s| ==> IsDigit(s[i]) }
  predicate AllLetters(s: string) { forall i :: 0 <= i < |s| ==> IsLetter(s[i]) }
  predicate AllAlnum(s: string) { forall i :: 0 <= i < |s| ==> IsAlnum(s[i]) }
  predicate AllDomainChars(s: string) { forall i :: 0 <= i < |s| ==> IsDomainChar(s[i]) }

  /** PHONE: `^\+?1?\d{9,15}$`
      ------------------------ */

  /** `\d{lo,hi}` on the whole of `s`. */
  predicate DigitRun(s: string, lo: nat, hi: nat)
    decreases |s|
  {
    if s == [] then lo == 0
    else hi > 0 && IsDigit(s[0]) && DigitRun(s[1..], if lo == 0 then 0 else lo - 1, hi - 1)
  }

  /** `1?\d{9,15}`: with the optional `1`, and then without it. */
  predicate PhoneAfterPlus(s: string) {
    (s != [] && s[0] == '1' && DigitRun(s[1..], 9, 15)) || DigitRun(s, 9, 15)
  }

  predicate PhonePattern(s: string) {
    (s != [] && s[0] == '+' && PhoneAfterPlus(s[1..])) || PhoneAfterPlus(s)
  }

  /** An optional `+` followed by 9 to 15 digits, or by 16 digits the first
      of which is `1`. */
  predicate PhoneShape(s: string) {
    var digits := if s != [] && s[0] == '+' then s[1..] else s;
    AllDigits(digits) && (9 <= |digits| <= 15 || (|digits| == 16 && digits[0] == '1'))
  }

  lemma {:induction false} DigitRunExactly(s: string, lo: nat, hi: nat)
    ensures DigitRun(s, lo, hi) <==> AllDigits(s) && lo <= |s| <= hi
    decreases |s|
  {
    if s != [] {
      DigitRunExactly(s[1..], if lo == 0 then 0 else lo - 1, if hi == 0 then 0 else hi - 1);
      if AllDigits(s) {
        assert AllDigits(s[1..]) by {
          forall i | 0 <= i < |s[1..]| ensures IsDigit(s[1..][i]) { assert s[1..][i] == s[i + 1]; }
        }
      }
      if IsDigit(s[0]) && AllDigits(s[1..]) {
        forall i | 0 <= i < |s| ensures IsDigit(s[i]) { if i > 0 { assert s[i] == s[1..][i - 1]; } }
      }
    }
  }

  lemma AllDigitsTail(s: string)
    requires s != [] && AllDigits(s)
    ensures AllDigits(s[1..])
  {
    forall i | 0 <= i < |s[1..]| ensures IsDigit(s[1..][i]) { assert s[1..][i] == s[i + 1]; }
  }

  lemma AllDigitsCons(s: string)
    requires s != [] && IsDigit(s[0]) && AllDigits(s[1..])
    ensures AllDigits(s)
  {
    forall i | 0 <= i < |s| ensures IsDigit(s[i]) { if i > 0 { assert s[i] == s[1..][i - 1]; } }
  }

  lemma PhoneAfterPlusExactly(s: string)
    ensures PhoneAfterPlus(s) <==> AllDigits(s) && (9 <= |s| <= 15 || (|s| == 16 && s[0] == '1'))
  {
    DigitRunExactly(s, 9, 15);
    if s != [] {
      DigitRunExactly(s[1..], 9, 15);
      if AllDigits(s) { AllDigitsTail(s); }
      if s[0] == '1' && AllDigits(s[1..]) { AllDigitsCons(s); }
    }
  }

  /** The phone pattern accepts exactly its shape. */
  lemma PhonePatternExactly(s: string)
    ensures PhonePattern(s) <==> PhoneShape(s)
  {
    PhoneAfterPlusExactly(s);
    if s != [] {
      PhoneAfterPlusExactly(s[1..]);
    }
  }

  /** Spaces, dashes and parentheses are never accepted. */
  lemma PhoneRejectsPunctuation(s: string, i: nat)
    requires i < |s| && (s[i] == ' ' || s[i] == '-' || s[i] == '(' || s[i] == ')')
    ensures !PhonePattern(s)
  {
    PhonePatternExactly(s);
    if s[0] == '+' {
      assert i > 0 && s[1..][i - 1] == s[i];
    }
  }

  /** EMAIL: `^[a-zA-Z0-9._%+-]+@[a-zA-Z0-9.-]+\.[a-zA-Z]{2,}$`
      ------------------------------------------------------- */

  /** `[a-zA-Z]{lo,}` on the whole of `s`. */
  predicate LetterRun(s: string, lo: nat)
    decreases |s|
  {
    if s == [] then lo == 0
    else IsLetter(s[0]) && LetterRun(s[1..], if lo == 0 then 0 else lo - 1)
  }

  /** `[a-zA-Z0-9.-]+\.[a-zA-Z]{2,}`; `seen` records that the `+` has
      matched once. At a `.` the matcher first tries to end the host part
      there, and then to take the dot into it. */
  predicate EmailDomain(s: string, seen: bool)
    decreases |s|
  {
    s != [] &&
    ((seen && s[0] == '.' && LetterRun(s[1..], 2)) || (IsDomainChar(s[0]) && EmailDomain(s[1..], true)))
  }

  /** `[a-zA-Z0-9._%+-]+@` followed by the domain. */
  predicate EmailLocal(s: string, seen: bool)
    decreases |s|
  {
    s != [] &&
    if s[0] == '@' then seen && EmailDomain(s[1..], false)
    else IsLocalChar(s[0]) && EmailLocal(s[1..], true)
  }

  predicate EmailPattern(s: string) {
    EmailLocal(s, false)
  }

  /** Position `t` of `d` is the dot before the top-level domain: at least
      `min` characters precede it, and at least two letters and nothing
      else follow it. */
  predicate TopLevelDotAt(d: string, t: nat, min: nat) {
    && min <= t && t + 2 < |d| && d[t] == '.'
    && forall j :: t < j < |d| ==> IsLetter(d[j])
  }

  /** A domain over `[A-Za-z0-9.-]` that ends in `.` and at least two
      letters, with at least one character before that dot. */
  ghost predicate DomainShape(d: string) {
    AllDomainChars(d) && exists t :: TopLevelDotAt(d, t, 1)
  }

  /** Position `k` of `s` is its only `@`, with a non-empty local part over
      `[A-Za-z0-9._%+-]` before it and a domain of the right shape after. */
  ghost predicate AtSplit(s: string, k: nat) {
    && 0 < k < |s| && s[k] == '@'
    && (forall j :: 0 <= j < |s| && j != k ==> s[j] != '@')
    && (forall j :: 0 <= j < k ==> IsLocalChar(s[j]))
    && DomainShape(s[k + 1..])
  }

  ghost predicate EmailShape(s: string) {
    exists k :: AtSplit(s, k)
  }

  lemma {:induction false} LetterRunExactly(s: string, lo: nat)
    ensures LetterRun(s, lo) <==> AllLetters(s) && lo <= |s|
    decreases |s|
  {
    if s != [] {
      LetterRunExactly(s[1..], if lo == 0 then 0 else lo - 1);
      if AllLetters(s) {
        forall i | 0 <= i < |s[1..]| ensures IsLetter(s[1..][i]) { assert s[1..][i] == s[i + 1]; }
      }
      if IsLetter(s[0]) && AllLetters(s[1..]) {
        forall i | 0 <= i < |s| ensures IsLetter(s[i]) { if i > 0 { assert s[i] == s[1..][i - 1]; } }
      }
    }
  }

  /** What the domain matcher accepts: domain characters throughout, with
      a top-level dot, not at the front unless the host part has already
      begun. */
  lemma {:induction false} EmailDomainSound(d: string, seen: bool) returns (t: nat)
    requires EmailDomain(d, seen)
    ensures AllDomainChars(d) && TopLevelDotAt(d, t, if seen then 0 else 1)
    decreases |d|
  {
    if seen && d[0] == '.' && LetterRun(d[1..], 2) {
      LetterRunExactly(d[1..], 2);
      t := 0;
      forall j | 0 < j < |d| ensures IsLetter(d[j]) { assert d[j] == d[1..][j - 1]; }
    } else {
      var u := EmailDomainSound(d[1..], true);
      t := u + 1;
      forall j | t < j < |d| ensures IsLetter(d[j]) { assert d[j] == d[1..][j - 1]; }
    }
    forall j | 0 <= j < |d| ensures IsDomainChar(d[j]) {
      if j > 0 { assert d[j] == d[1..][j - 1]; }
    }
  }

  lemma {:induction false} EmailDomainComplete(d: string, seen: bool, t: nat)
    requires AllDomainChars(d) && TopLevelDotAt(d, t, if seen then 0 else 1)
    ensures EmailDomain(d, seen)
    decreases t
  {
    if t == 0 {
      forall j | 0 <= j < |d[1..]| ensures IsLetter(d[1..][j]) { assert d[1..][j] == d[j + 1]; }
      LetterRunExactly(d[1..], 2);
    } else {
      forall j | 0 <= j < |d[1..]| ensures IsDomainChar(d[1..][j]) { assert d[1..][j] == d[j + 1]; }
      forall j | t - 1 < j < |d[1..]| ensures IsLetter(d[1..][j]) { assert d[1..][j] == d[j + 1]; }
      EmailDomainComplete(d[1..], true, t - 1);
    }
  }

  lemma DomainHasNoAt(d: string, j: nat)
    requires AllDomainChars(d) && j < |d|
    ensures d[j] != '@'
  {
    assert IsDomainChar(d[j]);
  }

  /** What the local-part matcher accepts: its first `@` at a position
      `k`, local characters before it (at least one unless the part has
      already begun), and an accepted domain after. */
  lemma {:induction false} EmailLocalSound(s: string, seen: bool) returns (k: nat)
    requires EmailLocal(s, seen)
    ensures k < |s| && s[k] == '@' && (seen || k > 0)
    ensures forall j :: 0 <= j < k ==> IsLocalChar(s[j])
    ensures EmailDomain(s[k + 1..], false)
    decreases |s|
  {
    if s[0] == '@' {
      k := 0;
    } else {
      var u := EmailLocalSound(s[1..], true);
      k := u + 1;
      assert s[k + 1..] == s[1..][u + 1..];
      forall j | 0 <= j < k ensures IsLocalChar(s[j]) {
        if j > 0 { assert s[j] == s[1..][j - 1]; }
      }
    }
  }

  lemma {:induction false} EmailLocalComplete(s: string, seen: bool, k: nat)
    requires k < |s| && s[k] == '@' && (seen || k > 0)
    requires forall j :: 0 <= j < k ==> IsLocalChar(s[j])
    requires EmailDomain(s[k + 1..], false)
    ensures EmailLocal(s, seen)
    decreases k
  {
    if k > 0 {
      assert IsLocalChar(s[0]);
      assert s[k + 1..] == s[1..][k..];
      forall j | 0 <= j < k - 1 ensures IsLocalChar(s[1..][j]) { assert s[1..][j] == s[j + 1]; }
      EmailLocalComplete(s[1..], true, k - 1);
    }
  }

  /** The email pattern accepts exactly its shape; in particular an
      accepted address has exactly one `@`. */
  lemma EmailPatternExactly(s: string)
    ensures EmailPattern(s) <==> EmailShape(s)
  {
    if EmailPattern(s) {
      var k := EmailLocalSound(s, false);
      var d := s[k + 1..];
      var t := EmailDomainSound(d, false);
      forall j | 0 <= j < |s| && j != k ensures s[j] != '@' {
        if j < k {
          assert IsLocalChar(s[j]);
        } else {
          assert s[j] == d[j - k - 1];
          DomainHasNoAt(d, j - k - 1);
        }
      }
      assert AtSplit(s, k);
    }
    if EmailShape(s) {
      var k :| AtSplit(s, k);
      var t :| TopLevelDotAt(s[k + 1..], t, 1);
      EmailDomainComplete(s[k + 1..], false, t);
      EmailLocalComplete(s, false, k);
    }
  }

  /** PASSWORD: `^(?=.*[A-Za-z])(?=.*\d)[A-Za-z\d]{8,}$`
      ---------------------------------------------------- */

  /** `(?=.*[A-Za-z])`: a letter occurs before the first line break. */
  predicate LetterAhead(s: string)
    decreases |s|
  {
    s != [] && (IsLetter(s[0]) || (s[0] != '\n' && LetterAhead(s[1..])))
  }

  /** `(?=.*\d)`: a digit occurs before the first line break. */
  predicate DigitAhead(s: string)
    decreases |s|
  {
    s != [] && (IsDigit(s[0]) || (s[0] != '\n' && DigitAhead(s[1..])))
  }

  /** `[A-Za-z\d]{lo,}` on the whole of `s`. */
  predicate AlnumRun(s: string, lo: nat)
    decreases |s|
  {
    if s == [] then lo == 0
    else IsAlnum(s[0]) && AlnumRun(s[1..], if lo == 0 then 0 else lo - 1)
  }

  predicate PasswordPattern(s: string) {
    LetterAhead(s) && DigitAhead(s) && AlnumRun(s, 8)
  }

  /** At least 8 characters, all ASCII letters and digits, with a letter
      and a digit among them. */
  ghost predicate PasswordShape(s: string) {
    && |s| >= 8 && AllAlnum(s)
    && (exists i :: 0 <= i < |s| && IsLetter(s[i]))
    && (exists i :: 0 <= i < |s| && IsDigit(s[i]))
  }

  lemma {:induction false} AlnumRunExactly(s: string, lo: nat)
    ensures AlnumRun(s, lo) <==> AllAlnum(s) && lo <= |s|
    decreases |s|
  {
    if s != [] {
      AlnumRunExactly(s[1..], if lo == 0 then 0 else lo - 1);
      if AllAlnum(s) {
        forall i | 0 <= i < |s[1..]| ensures IsAlnum(s[1..][i]) { assert s[1..][i] == s[i + 1]; }
      }
      if IsAlnum(s[0]) && AllAlnum(s[1..]) {
        forall i | 0 <= i < |s| ensures IsAlnum(s[i]) { if i > 0 { assert s[i] == s[1..][i - 1]; } }
      }
    }
  }

  /** On text without line breaks the letter look-ahead finds any letter. */
  lemma {:induction false} LetterAheadExactly(s: string)
    requires forall i :: 0 <= i < |s| ==> s[i] != '\n'
    ensures LetterAhead(s) <==> exists i :: 0 <= i < |s| && IsLetter(s[i])
    decreases |s|
  {
    if s != [] {
      LetterAheadExactly(s[1..]);
      if exists i :: 0 <= i < |s| && IsLetter(s[i]) {
        var i :| 0 <= i < |s| && IsLetter(s[i]);
        if i > 0 { assert IsLetter(s[1..][i - 1]); }
      }
      if exists i :: 0 <= i < |s[1..]| && IsLetter(s[1..][i]) {
        var i :| 0 <= i < |s[1..]| && IsLetter(s[1..][i]);
        assert IsLetter(s[i + 1]);
      }
    }
  }

  lemma {:induction false} DigitAheadExactly(s: string)
    requires forall i :: 0 <= i < |s| ==> s[i] != '\n'
    ensures DigitAhead(s) <==> exists i :: 0 <= i < |s| && IsDigit(s[i])
    decreases |s|
  {
    if s != [] {
      DigitAheadExactly(s[1..]);
      if exists i :: 0 <= i < |s| && IsDigit(s[i]) {
        var i :| 0 <= i < |s| && IsDigit(s[i]);
        if i > 0 { assert IsDigit(s[1..][i - 1]); }
      }
      if exists i :: 0 <= i < |s[1..]| && IsDigit(s[1..][i]) {
        var i :| 0 <= i < |s[1..]| && IsDigit(s[1..][i]);
        assert IsDigit(s[i + 1]);
      }
    }
  }

  /** The password pattern accepts exactly its shape. */
  lemma PasswordPatternExactly(s: string)
    ensures PasswordPattern(s) <==> PasswordShape(s)
  {
    AlnumRunExactly(s, 8);
    if AllAlnum(s) {
      forall i | 0 <= i < |s| ensures s[i] != '\n' { assert IsAlnum(s[i]); }
      LetterAheadExactly(s);
      DigitAheadExactly(s);
    }
  }
}

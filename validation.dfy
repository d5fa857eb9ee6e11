/**
 * The validation library of the front end (src/utils/validation.js): pure
 * predicates over form text and numbers. Every form handler of the portal is
 * built from these.
 */
module Validation {
  import opened Wrappers
  import opened Text
  import opened Seqs

  /** A JavaScript number, as far as the validators can tell them apart. */
  datatype Number = Finite(value: real) | NaN | Infinity(negative: bool)

  /** JavaScript `n >= x` for a finite right-hand side. */
  predicate AtLeast(n: Number, x: real) {
    match n
    case Finite(v) => v >= x
    case NaN => false
    case Infinity(negative) => !negative
  }

  /** JavaScript `n <= x` for a finite right-hand side. */
  predicate AtMost(n: Number, x: real) {
    match n
    case Finite(v) => v <= x
    case NaN => false
    case Infinity(negative) => negative
  }

  /** JavaScript `n < x` for a finite right-hand side. */
  predicate Below(n: Number, x: real) {
    match n
    case Finite(v) => v < x
    case NaN => false
    case Infinity(negative) => negative
  }

  /** The `{ valid, message }` object that the password and username validators return. */
  datatype Check = Check(valid: bool, message: string)

  // ---------------------------------------------------------------- email

  /** The states of a matcher for `^[^\s@]+@[^\s@]+\.[^\s@]+$`. */
  datatype EmailState =
    | Start     // nothing read
    | Local     // a non-empty local part
    | AfterAt   // the local part and the `@`
    | Domain    // at least one domain character, no usable `.` yet
    | Dot       // a `.` that has domain text before it
    | Tld       // a `.` with text on both sides: accepting

  /** A character allowed by `[^\s@]`. */
  predicate EmailChar(c: char) {
    !IsSpace(c) && c != '@'
  }

  function EmailStep(st: EmailState, c: char): Option<EmailState> {
    if IsSpace(c) then None
    else match st
      case Start => if c == '@' then None else Some(Local)
      case Local => if c == '@' then Some(AfterAt) else Some(Local)
      case AfterAt => if c == '@' then None else Some(Domain)
      case Domain => if c == '@' then None else if c == '.' then Some(Dot) else Some(Domain)
      case Dot => if c == '@' then None else Some(Tld)
      case Tld => if c == '@' then None else Some(Tld)
  }

  /** Runs the matcher from state st over s[pos..]. */
  function EmailRun(st: EmailState, s: string, pos: nat): Option<EmailState>
    requires pos <= |s|
    decreases |s| - pos
  {
    if pos == |s| then Some(st)
    else match EmailStep(st, s[pos])
      case None => None
      case Some(next) => EmailRun(next, s, pos + 1)
  }

  predicate EmailCharsFrom(s: string, lo: nat, hi: nat) {
    forall k :: lo <= k < hi && k < |s| ==> EmailChar(s[k])
  }

  /** What remains acceptable from each state: the suffixes s[pos..] that lead to Tld. */
  ghost predicate Accepts(st: EmailState, s: string, pos: nat)
    requires pos <= |s|
    decreases |s| - pos
  {
    match st
    case Tld => EmailCharsFrom(s, pos, |s|)
    case Dot => pos < |s| && EmailCharsFrom(s, pos, |s|)
    case Domain => EmailCharsFrom(s, pos, |s|) && exists j :: pos <= j < |s| - 1 && s[j] == '.'
    case AfterAt => pos < |s| && EmailChar(s[pos]) && Accepts(Domain, s, pos + 1)
    case Local =>
      exists i :: pos <= i < |s| && s[i] == '@' && EmailCharsFrom(s, pos, i) && Accepts(AfterAt, s, i + 1)
    case Start => pos < |s| && EmailChar(s[pos]) && Accepts(Local, s, pos + 1)
  }

  lemma {:induction false} EmailRunAccepts(st: EmailState, s: string, pos: nat)
    requires pos <= |s|
    ensures EmailRun(st, s, pos) == Some(Tld) <==> Accepts(st, s, pos)
    decreases |s| - pos
  {
    if pos < |s| {
      var c := s[pos];
      match EmailStep(st, c) {
        case None =>
        case Some(next) =>
          EmailRunAccepts(next, s, pos + 1);
          if st == Domain {
            if c == '.' {
              if pos + 1 < |s| { assert s[pos] == '.'; }
            } else if Accepts(Domain, s, pos) {
              var j :| pos <= j < |s| - 1 && s[j] == '.';
              assert j != pos;
            }
          } else if st == Local {
            if c == '@' {
              if Accepts(Local, s, pos) {
                var i :| pos <= i < |s| && s[i] == '@' && EmailCharsFrom(s, pos, i) && Accepts(AfterAt, s, i + 1);
                assert i == pos;
              }
            } else {
              if Accepts(Local, s, pos) {
                var i :| pos <= i < |s| && s[i] == '@' && EmailCharsFrom(s, pos, i) && Accepts(AfterAt, s, i + 1);
                assert i != pos;
                assert Accepts(Local, s, pos + 1);
              }
              if Accepts(Local, s, pos + 1) {
                var i :| pos + 1 <= i < |s| && s[i] == '@' && EmailCharsFrom(s, pos + 1, i) && Accepts(AfterAt, s, i + 1);
                assert EmailCharsFrom(s, pos, i);
              }
            }
          }
      }
    }
  }

  /** The only `@` of s is at index i. */
  predicate OnlyAtSignAt(s: string, i: nat) {
    i < |s| && s[i] == '@' && forall k :: 0 <= k < |s| && s[k] == '@' ==> k == i
  }

  predicate NoSpace(s: string) {
    forall k :: 0 <= k < |s| ==> !IsSpace(s[k])
  }

  /**
   * The shape the email pattern accepts: no white space, exactly one `@` with
   * text before it, and after it a `.` with text on both sides.
   */
  ghost predicate EmailShape(s: string) {
    NoSpace(s) && exists i, j :: 0 < i && i + 1 < j < |s| - 1 && OnlyAtSignAt(s, i) && s[j] == '.'
  }

  lemma EmailAcceptsIffShape(s: string)
    ensures Accepts(Start, s, 0) <==> EmailShape(s)
  {
    if Accepts(Start, s, 0) {
      assert EmailChar(s[0]) && Accepts(Local, s, 1);
      var i :| 1 <= i < |s| && s[i] == '@' && EmailCharsFrom(s, 1, i) && Accepts(AfterAt, s, i + 1);
      assert EmailChar(s[i + 1]) && Accepts(Domain, s, i + 2);
      var j :| i + 2 <= j < |s| - 1 && s[j] == '.';
      assert forall k :: 0 <= k < |s| && k != i ==> EmailChar(s[k]) by {
        forall k | 0 <= k < |s| && k != i ensures EmailChar(s[k]) {
          if k == 0 {
          } else if k < i {
            assert EmailCharsFrom(s, 1, i);
          } else if k == i + 1 {
          } else {
            assert EmailCharsFrom(s, i + 2, |s|);
          }
        }
      }
      assert OnlyAtSignAt(s, i);
      assert NoSpace(s);
    }
    if EmailShape(s) {
      var i, j :| 0 < i && i + 1 < j < |s| - 1 && OnlyAtSignAt(s, i) && s[j] == '.';
      assert forall k :: 0 <= k < |s| && k != i ==> EmailChar(s[k]);
      assert Accepts(Domain, s, i + 2);
      assert Accepts(AfterAt, s, i + 1);
      assert Accepts(Local, s, 1);
    }
  }

  /** validateEmail: the test of `^[^\s@]+@[^\s@]+\.[^\s@]+$`. */
  function ValidateEmail(s: string): (r: bool)
    ensures r <==> EmailShape(s)
  {
    EmailRunAccepts(Start, s, 0);
    EmailAcceptsIffShape(s);
    EmailRun(Start, s, 0) == Some(Tld)
  }

  // ---------------------------------------------------------------- password

  /** The password rules, in the order validatePassword tests them. */
  datatype PasswordRule = MinLength | HasUpper | HasLower | HasDigit | HasSpecial

  const PasswordRules: seq<PasswordRule> := [MinLength, HasUpper, HasLower, HasDigit, HasSpecial]

  predicate IsSpecial(c: char) {
    c == '@' || c == '$' || c == '!' || c == '%' || c == '*' || c == '?' || c == '&'
  }

  predicate Holds(rule: PasswordRule, s: string) {
    match rule
    case MinLength => JsLength(s) >= 8
    case HasUpper => exists i :: 0 <= i < |s| && IsUpper(s[i])
    case HasLower => exists i :: 0 <= i < |s| && IsLower(s[i])
    case HasDigit => exists i :: 0 <= i < |s| && IsDigit(s[i])
    case HasSpecial => exists i :: 0 <= i < |s| && IsSpecial(s[i])
  }

  function RuleMessage(rule: PasswordRule): string {
    match rule
    case MinLength => "Password must be at least 8 characters long"
    case HasUpper => "Password must contain at least one uppercase letter"
    case HasLower => "Password must contain at least one lowercase letter"
    case HasDigit => "Password must contain at least one number"
    case HasSpecial => "Password must contain at least one special character (@$!%*?&)"
  }

  /** validatePassword: the message of the first rule the password breaks. */
  function ValidatePassword(s: string): (r: Check)
    ensures r.valid <==> forall rule :: Holds(rule, s)
    ensures r.valid <==> r.message == ""
  {
    if !Holds(MinLength, s) then Check(false, RuleMessage(MinLength))
    else if !Holds(HasUpper, s) then Check(false, RuleMessage(HasUpper))
    else if !Holds(HasLower, s) then Check(false, RuleMessage(HasLower))
    else if !Holds(HasDigit, s) then Check(false, RuleMessage(HasDigit))
    else if !Holds(HasSpecial, s) then Check(false, RuleMessage(HasSpecial))
    else Check(true, "")
  }

  /** Reference reading of the rule order: find the first broken rule in PasswordRules. */
  function FirstBrokenRule(s: string): Option<nat> {
    FindFirst(PasswordRules, (rule: PasswordRule) => !Holds(rule, s))
  }

  /** validatePassword reports exactly the first broken rule of the fixed order. */
  lemma PasswordReportsFirstBrokenRule(s: string)
    ensures FirstBrokenRule(s).None? ==> ValidatePassword(s) == Check(true, "")
    ensures FirstBrokenRule(s).Some? ==>
      ValidatePassword(s) == Check(false, RuleMessage(PasswordRules[FirstBrokenRule(s).value]))
  {
    var k := FirstBrokenRule(s);
    if k.Some? {
      assert k.value < 5;
      if k.value >= 1 { assert Holds(PasswordRules[0], s); }
      if k.value >= 2 { assert Holds(PasswordRules[1], s); }
      if k.value >= 3 { assert Holds(PasswordRules[2], s); }
      if k.value >= 4 { assert Holds(PasswordRules[3], s); }
    } else {
      assert forall j :: 0 <= j < 5 ==> Holds(PasswordRules[j], s);
    }
  }

  /** A password shorter than 8 code units gets the length message whatever characters it holds. */
  lemma ShortPasswordGetsLengthMessage(s: string)
    requires JsLength(s) < 8
    ensures ValidatePassword(s) == Check(false, "Password must be at least 8 characters long")
  {
  }

  // ---------------------------------------------------------------- numbers

  /** validateAge: `Number.isFinite(age) && age >= 1 && age <= 150`. */
  function ValidateAge(n: Number): (r: bool)
    ensures r <==> n.Finite? && 1.0 <= n.value <= 150.0
  {
    !n.NaN? && !n.Infinity? && AtLeast(n, 1.0) && AtMost(n, 150.0)
  }

  /** validateBMI: `Number.isFinite(bmi) && bmi >= 10 && bmi <= 60`. */
  function ValidateBMI(n: Number): (r: bool)
    ensures r <==> n.Finite? && 10.0 <= n.value <= 60.0
  {
    !n.NaN? && !n.Infinity? && AtLeast(n, 10.0) && AtMost(n, 60.0)
  }

  // ---------------------------------------------------------------- text fields

  /** How many decimal digits open the string. */
  function LeadingDigits(s: string): (k: nat)
    ensures k <= |s|
    ensures forall i :: 0 <= i < k ==> IsDigit(s[i])
    ensures k < |s| ==> !IsDigit(s[k])
  {
    if s != [] && IsDigit(s[0]) then 1 + LeadingDigits(s[1..]) else 0
  }

  /** validatePhone: the test of `^[0-9]{10}$`. */
  function ValidatePhone(s: string): (r: bool)
    ensures r <==> |s| == 10 && forall i :: 0 <= i < |s| ==> IsDigit(s[i])
  {
    LeadingDigits(s) == 10 && |s| == 10
  }

  /** validateRequired: `value.trim().length > 0`. */
  function ValidateRequired(s: string): (r: bool)
    ensures r <==> exists i :: 0 <= i < |s| && !IsSpace(s[i])
  {
    TrimNonEmptyIff(s);
    |Trim(s)| > 0
  }

  predicate UsernameChar(c: char) {
    IsUpper(c) || IsLower(c) || IsDigit(c) || c == '.' || c == '_'
  }

  const UsernameTooShort := "Username must be at least 3 characters long"
  const UsernameBadChars := "Username can only contain letters, numbers, dots, and underscores"

  /** validateUsername: at least 3 code units long, all characters from `[a-zA-Z0-9._]`. */
  function ValidateUsername(s: string): (r: Check)
    ensures JsLength(s) < 3 ==> r == Check(false, UsernameTooShort)
    ensures JsLength(s) >= 3 ==> (r.valid <==> forall i :: 0 <= i < |s| ==> UsernameChar(s[i]))
    ensures r.valid <==> r.message == ""
  {
    if JsLength(s) < 3 then Check(false, UsernameTooShort)
    else if !(forall i :: 0 <= i < |s| ==> UsernameChar(s[i])) then Check(false, UsernameBadChars)
    else Check(true, "")
  }

  /** An address validateEmail accepts also passes validateRequired. */
  lemma ValidEmailIsRequired(s: string)
    ensures ValidateEmail(s) ==> ValidateRequired(s)
  {
    if ValidateEmail(s) {
      var i, j :| 0 < i && i + 1 < j < |s| - 1 && OnlyAtSignAt(s, i) && s[j] == '.';
      assert !IsSpace(s[0]);
    }
  }

  /** A password validatePassword accepts also passes validateRequired (it holds an upper-case letter). */
  lemma ValidPasswordIsRequired(s: string)
    ensures ValidatePassword(s).valid ==> ValidateRequired(s)
  {
    if ValidatePassword(s).valid {
      assert Holds(HasUpper, s);
      var i :| 0 <= i < |s| && IsUpper(s[i]);
      assert !IsSpace(s[i]);
    }
  }

  /**
   * The patient name rule shared by registration and profile editing:
   * `validateRequired(name) && 2 <= name.trim().length <= 100`, lengths in
   * UTF-16 code units.
   */
  function ValidateName(s: string): (r: bool)
    ensures r <==> 2 <= JsLength(Trim(s)) <= 100
  {
    TrimNonEmptyIff(s);
    ValidateRequired(s) && 2 <= JsLength(Trim(s)) && JsLength(Trim(s)) <= 100
  }

  /**
   * Two characters beyond the Basic Multilingual Plane count four code units:
   * with them a six-character password meets the length rule.
   */
  lemma AstralCharactersCountTwice()
    ensures JsLength("Aa1@\U{1F600}\U{1F600}") == 8
    ensures ValidatePassword("Aa1@\U{1F600}\U{1F600}").valid
  {
    var s := "Aa1@\U{1F600}\U{1F600}";
    assert s[..5] == "Aa1@\U{1F600}" && s[..4] == "Aa1@";
    JsLengthIsCountIffBmp(s[..4]);
    assert JsLength(s[..4]) == 4;
    assert s[..5][..4] == s[..4] && s[..6] == s;
    assert JsLength(s[..5]) == 6;
    assert IsUpper(s[0]) && IsLower(s[1]) && IsDigit(s[2]) && IsSpecial(s[3]);
  }
}

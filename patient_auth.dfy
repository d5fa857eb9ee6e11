/**
 * The patient sign-in page (src/pages/patient/PatientAuth.jsx): login by email
 * or username with the demo-credential fallback, registration, and password
 * reset through a one-time code.
 */
module PatientAuth {
  import opened Wrappers
  import opened Text
  import opened Seqs
  import opened Validation
  import opened Catalog
  import opened Records
  import opened Store
  import opened Accounts

  const InvalidLogin := "Invalid email or password. Try: patient1@example.com / Patient@123"
  const EmailExists := "Email already exists"
  const NoAccount := "No account found for this email"
  const InvalidOtp := "Invalid OTP. Please check your email."

  // ---------------------------------------------------------------- login

  datatype LoginForm = LoginForm(email: string, password: string)

  /** validateLoginForm: a valid email and a non-blank password. */
  function ValidateLoginForm(f: LoginForm): (errs: Errors)
    ensures errs.Keys <= {Email, Password}
    ensures Email in errs <==> !ValidateEmail(f.email)
    ensures Password in errs <==> !ValidateRequired(f.password)
    ensures Email in errs ==> errs[Email] == "Valid email is required"
    ensures Password in errs ==> errs[Password] == "Password is required"
  {
    ValidEmailIsRequired(f.email);
    var e := AddIf(map[], !ValidateRequired(f.email) || !ValidateEmail(f.email), Email, "Valid email is required");
    AddIf(e, !ValidateRequired(f.password), Password, "Password is required")
  }

  /** The record the login handler builds from a demo credential. */
  function DemoRecord(c: PatientCredential): Patient {
    Patient(
      c.username, c.email, c.password,
      if c.username == "patient1" then "John Doe" else "Jane Smith",
      "MALE", Num(Finite(35.0)), Num(Finite(24.5)), "123 Main Street, City",
      "O_POSITIVE", Num(Finite(50000.0)), "Christianity", "Software Engineer",
      "Diabetes", "Diabetes", [], [], [])
  }

  predicate DemoMatches(c: PatientCredential, ident: string) {
    LowerStr(c.email) == ident || LowerStr(c.username) == ident
  }

  /** The value written to `currentPatient`: `email || username`. */
  function SessionKey(p: Patient): string {
    if p.email != "" then p.email else p.username
  }

  function FindDemo(ident: string): Option<nat> {
    FindFirst(DemoPatients, (c: PatientCredential) => DemoMatches(c, ident))
  }

  ghost predicate FirstDemo(ident: string, k: nat) {
    k < |DemoPatients| && DemoMatches(DemoPatients[k], ident) &&
    forall j :: 0 <= j < k ==> !DemoMatches(DemoPatients[j], ident)
  }

  /** The first stored record the typed identifier selects carries exactly the typed password. */
  ghost predicate StoredLoginOk(ps: seq<Patient>, f: LoginForm) {
    exists i: nat :: FirstAccount(ps, LowerStr(f.email), i) && ps[i].password == f.password
  }

  ghost predicate DemoLoginOk(f: LoginForm) {
    exists k: nat :: FirstDemo(LowerStr(f.email), k) && DemoPatients[k].password == f.password
  }

  lemma FindDemoIsFirst(ident: string)
    ensures FindDemo(ident).Some? ==> FirstDemo(ident, FindDemo(ident).value)
    ensures forall k: nat :: FirstDemo(ident, k) ==> FindDemo(ident) == Some(k)
  {
    forall k: nat | FirstDemo(ident, k)
      ensures FindDemo(ident) == Some(k)
    {
      FindFirstIsFirst(DemoPatients, (c: PatientCredential) => DemoMatches(c, ident), k);
    }
  }

  /** Whom a login attempt signs in. */
  datatype Resolution = StoredMatch(patient: Patient) | DemoMatch(record: Patient) | NoMatch

  /**
   * handleLogin's lookup: the stored record takes precedence; the demo
   * credentials are tried only when the stored lookup fails.
   */
  function ResolveLogin(ps: seq<Patient>, f: LoginForm): (r: Resolution)
    ensures r.StoredMatch? <==> StoredLoginOk(ps, f)
    ensures r.StoredMatch? ==> exists i: nat :: FirstAccount(ps, LowerStr(f.email), i) && r.patient == ps[i]
    ensures r.DemoMatch? <==> !StoredLoginOk(ps, f) && DemoLoginOk(f)
    ensures r.DemoMatch? ==>
      exists k: nat :: FirstDemo(LowerStr(f.email), k) && r.record == DemoRecord(DemoPatients[k])
  {
    var ident := LowerStr(f.email);
    FindAccountIsFirst(ps, ident);
    FindDemoIsFirst(ident);
    var stored := FindAccount(ps, ident);
    var demo := FindDemo(ident);
    if stored.Some? && ps[stored.value].password == f.password then StoredMatch(ps[stored.value])
    else if demo.Some? && DemoPatients[demo.value].password == f.password then
      DemoMatch(DemoRecord(DemoPatients[demo.value]))
    else NoMatch
  }

  /** The demo path's write: every record the identifier selects is replaced by one record at the end. */
  function Materialize(ps: seq<Patient>, ident: string, rec: Patient): (r: seq<Patient>)
    ensures 1 <= |r| <= |ps| + 1 && r[|r| - 1] == rec
    ensures forall i :: 0 <= i < |r| - 1 ==> r[i] in ps && !MatchesIdentifier(r[i], ident)
    ensures forall i :: 0 <= i < |ps| && !MatchesIdentifier(ps[i], ident) ==> ps[i] in r
    ensures SelectsInOrder(r[..|r| - 1], ps, (p: Patient) => !MatchesIdentifier(p, ident))
  {
    var unselected := (p: Patient) => !MatchesIdentifier(p, ident);
    FilterInOrder(ps, unselected);
    assert (Filter(ps, unselected) + [rec])[..|Filter(ps, unselected)|] == Filter(ps, unselected);
    Filter(ps, unselected) + [rec]
  }

  /** The record the demo path stores is selected by the identifier it was found with. */
  lemma DemoRecordMatches(f: LoginForm)
    requires DemoLoginOk(f)
    ensures forall k: nat :: FirstDemo(LowerStr(f.email), k) ==>
      MatchesIdentifier(DemoRecord(DemoPatients[k]), LowerStr(f.email))
  {
  }

  /**
   * After a demo login the store holds exactly one record the identifier
   * selects, and logging in again with the same form finds it as a stored
   * match, so the second login writes nothing.
   */
  lemma {:induction false} DemoLoginThenStoredLogin(ps: seq<Patient>, f: LoginForm)
    requires ResolveLogin(ps, f).DemoMatch?
    ensures var rec := ResolveLogin(ps, f).record;
      var ps' := Materialize(ps, LowerStr(f.email), rec);
      && (forall i :: 0 <= i < |ps'| && MatchesIdentifier(ps'[i], LowerStr(f.email)) ==> i == |ps'| - 1)
      && ResolveLogin(ps', f) == StoredMatch(rec)
  {
    var ident := LowerStr(f.email);
    var rec := ResolveLogin(ps, f).record;
    var k: nat :| FirstDemo(ident, k) && rec == DemoRecord(DemoPatients[k]);
    var ps' := Materialize(ps, ident, rec);
    assert MatchesIdentifier(rec, ident);
    assert FirstAccount(ps', ident, |ps'| - 1);
    FindAccountIsFirst(ps', ident);
    assert rec.password == f.password;
  }

  /** Storing the demo record a second time leaves the collection as the first time. */
  lemma MaterializeIdempotent(ps: seq<Patient>, ident: string, rec: Patient)
    requires MatchesIdentifier(rec, ident)
    ensures Materialize(Materialize(ps, ident, rec), ident, rec) == Materialize(ps, ident, rec)
  {
    var keep := (p: Patient) => !MatchesIdentifier(p, ident);
    var once := Filter(ps, keep);
    FilterAppend(once, [rec], keep);
    FilterIdempotent(ps, keep);
    assert Filter([rec], keep) == [];
  }

  // ---------------------------------------------------------------- registration

  datatype RegisterForm = RegisterForm(
    name: string, email: string, gender: string, age: NumField, bmi: NumField,
    address: string, bloodGroup: string, income: NumField, religion: string,
    occupation: string, familyBackgroundDiseases: string,
    password: string, confirmPassword: string)

  /** `income === '' || Number(income) < 0`, with JavaScript's comparison (NaN is not below 0). */
  predicate IncomeRejected(x: NumField) {
    x.Blank? || Below(x.n, 0.0)
  }

  /** The fields validateRegisterForm checks. */
  const RegisterFields: set<Field> :=
    {Name, Email, Gender, Age, Bmi, Address, BloodGroup, Income, Religion, Occupation, Password, ConfirmPassword}

  /** Whether validateRegisterForm rejects field k of the form. */
  predicate RegisterBroken(f: RegisterForm, k: Field) {
    match k
    case Name => !ValidateName(f.name)
    case Email => !ValidateEmail(f.email)
    case Gender => f.gender == ""
    case Age => f.age.Blank? || !ValidateAge(f.age.n)
    case Bmi => f.bmi.Blank? || !ValidateBMI(f.bmi.n)
    case Address => !ValidateRequired(f.address)
    case BloodGroup => f.bloodGroup == ""
    case Income => IncomeRejected(f.income)
    case Religion => !ValidateRequired(f.religion)
    case Occupation => !ValidateRequired(f.occupation)
    case Password => !ValidatePassword(f.password).valid
    case ConfirmPassword => f.password != f.confirmPassword
    case _ => false
  }

  /** The message validateRegisterForm stores under field k. */
  function RegisterMessage(f: RegisterForm, k: Field): string {
    match k
    case Name => "Name must be between 2 and 100 characters"
    case Email => "Please enter a valid email address"
    case Gender => "Gender is required"
    case Age => "Please enter a valid age (1-150)"
    case Bmi => "BMI must be between 10.0 and 60.0"
    case Address => "Address is required"
    case BloodGroup => "Blood group is required"
    case Income => "Income must be 0 or greater"
    case Religion => "Religion is required"
    case Occupation => "Occupation is required"
    case Password => ValidatePassword(f.password).message
    case _ => "Passwords do not match"
  }

  /** validateRegisterForm: one error per broken field rule; the form is accepted when there is none. */
  function ValidateRegisterForm(f: RegisterForm): (errs: Errors)
    ensures errs.Keys <= RegisterFields
    ensures forall k :: k in errs <==> RegisterBroken(f, k)
    ensures forall k :: k in errs ==> errs[k] == RegisterMessage(f, k)
  {
    map k | k in RegisterFields && RegisterBroken(f, k) :: RegisterMessage(f, k)
  }

  /** What each of the personal-data rules of validateRegisterForm accepts. */
  lemma RegisterPersonalRules(f: RegisterForm)
    ensures Name in ValidateRegisterForm(f) <==> !(2 <= JsLength(Trim(f.name)) <= 100)
    ensures Email in ValidateRegisterForm(f) <==> !ValidateEmail(f.email)
    ensures Gender in ValidateRegisterForm(f) <==> f.gender == ""
    ensures Age in ValidateRegisterForm(f) <==>
      !(f.age.Num? && f.age.n.Finite? && 1.0 <= f.age.n.value <= 150.0)
    ensures Bmi in ValidateRegisterForm(f) <==>
      !(f.bmi.Num? && f.bmi.n.Finite? && 10.0 <= f.bmi.n.value <= 60.0)
    ensures Address in ValidateRegisterForm(f) <==> !ValidateRequired(f.address)
  {
    assert RegisterBroken(f, Name) <==> !ValidateName(f.name);
    assert RegisterBroken(f, Age) <==> f.age.Blank? || !ValidateAge(f.age.n);
    assert RegisterBroken(f, Bmi) <==> f.bmi.Blank? || !ValidateBMI(f.bmi.n);
  }

  /** What the remaining text rules of validateRegisterForm accept. */
  lemma RegisterAccountRules(f: RegisterForm)
    ensures BloodGroup in ValidateRegisterForm(f) <==> f.bloodGroup == ""
    ensures Religion in ValidateRegisterForm(f) <==> !ValidateRequired(f.religion)
    ensures Occupation in ValidateRegisterForm(f) <==> !ValidateRequired(f.occupation)
  {
    assert RegisterBroken(f, BloodGroup) <==> f.bloodGroup == "";
  }

  /** The income rule of validateRegisterForm: blank, negative or minus-infinite incomes are refused, NaN passes. */
  lemma RegisterIncomeRule(f: RegisterForm)
    ensures Income in ValidateRegisterForm(f) <==>
      f.income.Blank? || (f.income.n.Finite? && f.income.n.value < 0.0) || f.income.n == Infinity(true)
  {
    assert RegisterBroken(f, Income) <==> IncomeRejected(f.income);
  }

  /** The password rules of validateRegisterForm: the validator's own message, and a matching confirmation. */
  lemma RegisterPasswordRules(f: RegisterForm)
    ensures Password in ValidateRegisterForm(f) <==> !ValidatePassword(f.password).valid
    ensures Password in ValidateRegisterForm(f) ==>
      ValidateRegisterForm(f)[Password] == ValidatePassword(f.password).message
    ensures ConfirmPassword in ValidateRegisterForm(f) <==> f.password != f.confirmPassword
  {
  }

  /** `storedPatients.some(p => p.email?.toLowerCase() === email.toLowerCase())`. */
  function EmailTaken(ps: seq<Patient>, email: string): (r: bool)
    ensures r <==> exists i :: 0 <= i < |ps| && LowerStr(ps[i].email) == LowerStr(email)
  {
    Any(ps, (p: Patient) => LowerStr(p.email) == LowerStr(email))
  }

  /** The record registration appends: the email doubles as the username. */
  function NewPatient(f: RegisterForm): (p: Patient)
    ensures p.email == f.email && p.username == f.email && p.password == f.password
    ensures p.familyDiseases == f.familyBackgroundDiseases && p.familyBackgroundDiseases == f.familyBackgroundDiseases
    ensures p.documents == [] && p.appointments == [] && p.previousDetails == []
  {
    Patient(
      f.email, f.email, f.password, f.name, f.gender, f.age, f.bmi, f.address,
      f.bloodGroup, f.income, f.religion, f.occupation,
      f.familyBackgroundDiseases, f.familyBackgroundDiseases, [], [], [])
  }

  /** No two records share an email up to case. */
  ghost predicate EmailsUnique(ps: seq<Patient>) {
    forall i, j :: 0 <= i < j < |ps| ==> LowerStr(ps[i].email) != LowerStr(ps[j].email)
  }

  /** Registration's duplicate check keeps emails unique up to case. */
  lemma RegisterKeepsEmailsUnique(ps: seq<Patient>, f: RegisterForm)
    requires EmailsUnique(ps) && !EmailTaken(ps, f.email)
    ensures EmailsUnique(ps + [NewPatient(f)])
  {
    var ps' := ps + [NewPatient(f)];
    forall i, j | 0 <= i < j < |ps'|
      ensures LowerStr(ps'[i].email) != LowerStr(ps'[j].email)
    {
      if j == |ps| {
        assert ps'[i] == ps[i];
      } else {
        assert ps'[i] == ps[i] && ps'[j] == ps[j];
      }
    }
  }

  /** A form registration accepts also passes the login form's checks with the same email and password. */
  lemma RegisteredFormPassesLoginChecks(f: RegisterForm)
    requires ValidateRegisterForm(f) == map[]
    ensures ValidateLoginForm(LoginForm(f.email, f.password)) == map[]
  {
    RegisterPersonalRules(f);
    RegisterPasswordRules(f);
    LoginChecksAccept(LoginForm(f.email, f.password));
  }

  /** A valid email and an accepted password pass the login form's checks. */
  lemma LoginChecksAccept(lf: LoginForm)
    requires ValidateEmail(lf.email) && ValidatePassword(lf.password).valid
    ensures ValidateLoginForm(lf) == map[]
  {
    ValidPasswordIsRequired(lf.password);
    var errs := ValidateLoginForm(lf);
    assert Email !in errs && Password !in errs;
  }

  /**
   * A patient who has just registered logs in with the same email and
   * password, provided no earlier record's email or username already answers
   * to that email.
   */
  lemma RegisteredPatientCanLogIn(ps: seq<Patient>, f: RegisterForm)
    requires FindAccount(ps, LowerStr(f.email)).None?
    ensures ResolveLogin(ps + [NewPatient(f)], LoginForm(f.email, f.password)) == StoredMatch(NewPatient(f))
  {
    var ident := LowerStr(f.email);
    var ps' := ps + [NewPatient(f)];
    FindAccountIsFirst(ps, ident);
    assert FirstAccount(ps', ident, |ps|) by {
      forall j | 0 <= j < |ps| ensures !MatchesIdentifier(ps'[j], ident) {
        assert ps'[j] == ps[j];
      }
    }
    FindAccountIsFirst(ps', ident);
  }

  // ---------------------------------------------------------------- password reset

  /** A code handleSendOtp can issue: six decimal digits with a value in [100000, 999999]. */
  predicate IsOtp(code: string) {
    && |code| == 6
    && (forall i :: 0 <= i < |code| ==> IsDigit(code[i]))
    && 100000 <= DecimalValue(code) <= 999999
  }

  /** `Math.floor(100000 + random * 900000).toString()` for a draw `random` in [0, 1). */
  function OtpCode(random: real): (code: string)
    requires 0.0 <= random < 1.0
    ensures IsOtp(code)
  {
    var x := 100000.0 + random * 900000.0;
    assert 100000.0 <= x < 1000000.0;
    var n: nat := x.Floor;
    assert Pow10(5) == 100000 && Pow10(6) == 1000000;
    DecimalLength(n, 6);
    DecimalRoundTrip(n);
    DecimalString(n)
  }

  /** handleSendOtp's account check: some record's email or username equals the typed email up to case. */
  function AccountExists(ps: seq<Patient>, email: string): (r: bool)
    ensures r <==> exists i :: 0 <= i < |ps| && MatchesIdentifier(ps[i], LowerStr(email))
  {
    FindAccount(ps, LowerStr(email)).Some?
  }

  datatype ForgotForm = ForgotForm(email: string, newPassword: string, confirmPassword: string, otp: string)

  /** validateForgotPassword; the code field's message depends on whether a code was sent. */
  function ValidateForgotPassword(f: ForgotForm, otpSent: bool): (errs: Errors)
    ensures errs.Keys <= {Email, NewPassword, ConfirmPassword, Otp}
    ensures Email in errs <==> !ValidateEmail(f.email)
    ensures Email in errs ==> errs[Email] == "Please enter a valid email"
    ensures NewPassword in errs <==> !ValidatePassword(f.newPassword).valid
    ensures NewPassword in errs ==> errs[NewPassword] == ValidatePassword(f.newPassword).message
    ensures ConfirmPassword in errs <==> f.newPassword != f.confirmPassword
    ensures ConfirmPassword in errs ==> errs[ConfirmPassword] == "Passwords do not match"
    ensures !otpSent ==> Otp in errs && errs[Otp] == "Please request OTP first"
    ensures otpSent ==> (Otp in errs <==> f.otp == "")
    ensures otpSent && Otp in errs ==> errs[Otp] == "Enter the OTP sent to your email"
  {
    var pw := ValidatePassword(f.newPassword);
    var e := AddIf(map[], !ValidateEmail(f.email), Email, "Please enter a valid email");
    var e := AddIf(e, !pw.valid, NewPassword, pw.message);
    var e := AddIf(e, f.newPassword != f.confirmPassword, ConfirmPassword, "Passwords do not match");
    if !otpSent then e[Otp := "Please request OTP first"]
    else AddIf(e, f.otp == "", Otp, "Enter the OTP sent to your email")
  }

  /** The reset's write: every record the email selects gets the new password, and nothing else changes. */
  function ResetPasswords(ps: seq<Patient>, email: string, newPassword: string): (r: seq<Patient>)
    ensures |r| == |ps|
    ensures forall i :: 0 <= i < |ps| ==> r[i].(password := ps[i].password) == ps[i]
    ensures forall i :: 0 <= i < |ps| && MatchesIdentifier(ps[i], LowerStr(email)) ==> r[i].password == newPassword
    ensures forall i :: 0 <= i < |ps| && !MatchesIdentifier(ps[i], LowerStr(email)) ==> r[i] == ps[i]
  {
    var ident := LowerStr(email);
    ReplaceWhere(ps, (p: Patient) => MatchesIdentifier(p, ident), (p: Patient) => p.(password := newPassword))
  }

  /** After a reset, logging in with the reset email and the new password succeeds. */
  lemma ResetThenLogin(ps: seq<Patient>, email: string, newPassword: string)
    requires AccountExists(ps, email)
    ensures ResolveLogin(ResetPasswords(ps, email, newPassword), LoginForm(email, newPassword)).StoredMatch?
  {
    var ident := LowerStr(email);
    var ps' := ResetPasswords(ps, email, newPassword);
    var i := FindAccount(ps, ident).value;
    FindAccountIsFirst(ps, ident);
    assert FirstAccount(ps', ident, i) by {
      forall j | 0 <= j < i ensures !MatchesIdentifier(ps'[j], ident) {
        assert ps'[j].(password := ps[j].password) == ps[j];
      }
      assert ps'[i].(password := ps[i].password) == ps[i];
    }
  }

  // ---------------------------------------------------------------- the page

  /** The page's React state that outlives a single handler. */
  class AuthPage {
    var errors: Errors
    var otpSent: bool
    var generatedOtp: string

    /**
     * Once sent, a code is held; any code held is a six-digit code. Leaving the
     * reset form clears otpSent but keeps the last code.
     */
    ghost predicate Valid()
      reads this
    {
      (otpSent ==> IsOtp(generatedOtp)) && (generatedOtp == "" || IsOtp(generatedOtp))
    }

    constructor()
      ensures Valid()
      ensures errors == map[] && !otpSent && generatedOtp == ""
    {
      errors, otpSent, generatedOtp := map[], false, "";
    }

    /** handleLogin; `loggedIn` is the value passed to onLogin. */
    method HandleLogin(store: Store, f: LoginForm) returns (loggedIn: Option<string>)
      modifies this`errors, store`patients, store`currentPatient
      ensures ValidateLoginForm(f) != map[] ==>
        && errors == ValidateLoginForm(f) && loggedIn.None?
        && store.patients == old(store.patients) && store.currentPatient == old(store.currentPatient)
      ensures ValidateLoginForm(f) == map[] ==>
        match ResolveLogin(old(store.Patients()), f)
        case StoredMatch(p) =>
          && errors == map[] && store.patients == old(store.patients)
          && store.currentPatient == Some(SessionKey(p)) && loggedIn == Some(SessionKey(p))
        case DemoMatch(rec) =>
          && errors == map[]
          && store.patients == (if rec.email != "" then Some(Materialize(old(store.Patients()), LowerStr(f.email), rec))
                                else old(store.patients))
          && store.currentPatient == Some(SessionKey(rec)) && loggedIn == Some(SessionKey(rec))
        case NoMatch =>
          && errors == map[General := InvalidLogin] && loggedIn.None?
          && store.patients == old(store.patients) && store.currentPatient == old(store.currentPatient)
    {
      errors := ValidateLoginForm(f);
      if errors != map[] {
        return None;
      }
      var ps := store.Patients();
      var res := ResolveLogin(ps, f);
      match res {
        case StoredMatch(p) =>
          store.currentPatient := Some(SessionKey(p));
          loggedIn := Some(SessionKey(p));
        case DemoMatch(rec) =>
          if rec.email != "" {
            store.patients := Some(Materialize(ps, LowerStr(f.email), rec));
          }
          store.currentPatient := Some(SessionKey(rec));
          loggedIn := Some(SessionKey(rec));
        case NoMatch =>
          errors := map[General := InvalidLogin];
          loggedIn := None;
      }
    }

    /** handleRegister: appends the new record and signs it in, unless the email is taken. */
    method HandleRegister(store: Store, f: RegisterForm) returns (loggedIn: Option<string>)
      modifies this`errors, store`patients, store`currentPatient
      ensures ValidateRegisterForm(f) != map[] ==>
        && errors == ValidateRegisterForm(f) && loggedIn.None?
        && store.patients == old(store.patients) && store.currentPatient == old(store.currentPatient)
      ensures ValidateRegisterForm(f) == map[] && EmailTaken(old(store.Patients()), f.email) ==>
        && errors == map[Email := EmailExists] && loggedIn.None?
        && store.patients == old(store.patients) && store.currentPatient == old(store.currentPatient)
      ensures ValidateRegisterForm(f) == map[] && !EmailTaken(old(store.Patients()), f.email) ==>
        && errors == map[]
        && store.patients == Some(old(store.Patients()) + [NewPatient(f)])
        && store.currentPatient == Some(f.email) && loggedIn == Some(f.email)
    {
      errors := ValidateRegisterForm(f);
      if errors != map[] {
        return None;
      }
      var ps := store.Patients();
      if EmailTaken(ps, f.email) {
        errors := map[Email := EmailExists];
        return None;
      }
      var p := NewPatient(f);
      store.patients := Some(ps + [p]);
      store.currentPatient := Some(p.email);
      loggedIn := Some(p.email);
    }

    /** handleSendOtp; `random` is the `Math.random()` draw. */
    method SendOtp(store: Store, email: string, random: real)
      requires Valid() && 0.0 <= random < 1.0
      modifies this`errors, this`otpSent, this`generatedOtp
      ensures Valid()
      ensures AccountExists(store.Patients(), email) ==>
        otpSent && generatedOtp == OtpCode(random) && errors == old(errors)
      ensures !AccountExists(store.Patients(), email) ==>
        && errors == map[Email := NoAccount]
        && otpSent == old(otpSent) && generatedOtp == old(generatedOtp)
    {
      if !AccountExists(store.Patients(), email) {
        errors := map[Email := NoAccount];
        return;
      }
      generatedOtp := OtpCode(random);
      otpSent := true;
    }

    /** The "Back to login" button: clears the errors and otpSent, and keeps the last code. */
    method BackToLogin()
      requires Valid()
      modifies this`errors, this`otpSent
      ensures Valid()
      ensures errors == map[] && !otpSent && generatedOtp == old(generatedOtp)
    {
      errors := map[];
      otpSent := false;
    }

    /**
     * handleForgotPasswordSubmit; `reset` tells whether the passwords were
     * rewritten. A reset needs the code last sent, so the typed code is a
     * six-digit code.
     */
    method HandleForgotPasswordSubmit(store: Store, f: ForgotForm) returns (reset: bool)
      requires Valid()
      modifies this`errors, this`otpSent, this`generatedOtp, store`patients
      ensures Valid()
      ensures reset <==> ValidateForgotPassword(f, old(otpSent)) == map[] && f.otp == old(generatedOtp)
      ensures reset ==> old(otpSent) && IsOtp(f.otp)
      ensures ValidateForgotPassword(f, old(otpSent)) != map[] ==>
        errors == ValidateForgotPassword(f, old(otpSent))
      ensures ValidateForgotPassword(f, old(otpSent)) == map[] && !reset ==> errors == map[Otp := InvalidOtp]
      ensures !reset ==>
        && store.patients == old(store.patients)
        && otpSent == old(otpSent) && generatedOtp == old(generatedOtp)
      ensures reset ==>
        && errors == map[] && !otpSent && generatedOtp == ""
        && store.patients == Some(ResetPasswords(old(store.Patients()), f.email, f.newPassword))
    {
      errors := ValidateForgotPassword(f, otpSent);
      if errors != map[] {
        return false;
      }
      if f.otp != generatedOtp {
        errors := map[Otp := InvalidOtp];
        return false;
      }
      store.patients := Some(ResetPasswords(store.Patients(), f.email, f.newPassword));
      errors := map[];
      otpSent := false;
      generatedOtp := "";
      reset := true;
    }
  }
}

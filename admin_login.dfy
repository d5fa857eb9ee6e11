/** The hospital admin sign-in page (src/pages/admin/AdminLogin.jsx). */
module AdminLogin {
  import opened Wrappers
  import opened Text
  import opened Seqs
  import opened Validation
  import opened Records
  import opened Store
  import DeveloperRegister

  const InvalidAdminLogin := "Invalid username or password. Try: admin1 / Admin@123"

  datatype AdminLoginForm = AdminLoginForm(username: string, password: string)

  /** validateForm: a non-blank username and a non-blank password. */
  function ValidateAdminLoginForm(f: AdminLoginForm): (errs: Errors)
    ensures errs.Keys <= {Username, Password}
    ensures Username in errs <==> !ValidateRequired(f.username)
    ensures Password in errs <==> !ValidateRequired(f.password)
    ensures Username in errs ==> errs[Username] == "Username is required"
    ensures Password in errs ==> errs[Password] == "Password is required"
  {
    var e := AddIf(map[], !ValidateRequired(f.username), Username, "Username is required");
    AddIf(e, !ValidateRequired(f.password), Password, "Password is required")
  }

  /**
   * `storedAdmins.find(...)` found an admin: some stored admin has exactly this
   * username and this password (both case-sensitive).
   */
  function CredentialsMatch(admins: seq<Admin>, f: AdminLoginForm): (r: bool)
    ensures r <==> exists i :: 0 <= i < |admins| && admins[i].username == f.username && admins[i].password == f.password
  {
    FindFirst(admins, (a: Admin) => a.username == f.username && a.password == f.password).Some?
  }

  /** An admin the developer page has just provisioned can sign in with the same username and password. */
  lemma ProvisionedAdminCanLogIn(admins: seq<Admin>, f: DeveloperRegister.DeveloperForm)
    requires DeveloperRegister.ValidateDeveloperForm(f) == map[]
    ensures var login := AdminLoginForm(f.adminUsername, f.adminPassword);
      ValidateAdminLoginForm(login) == map[] &&
      CredentialsMatch(admins + [DeveloperRegister.NewAdmin(f)], login)
  {
    assert ValidateUsername(f.adminUsername).valid && ValidatePassword(f.adminPassword).valid;
    assert UsernameChar(f.adminUsername[0]);
    assert !IsSpace(f.adminUsername[0]);
    ValidPasswordIsRequired(f.adminPassword);
    var admins' := admins + [DeveloperRegister.NewAdmin(f)];
    assert admins'[|admins|] == DeveloperRegister.NewAdmin(f);
  }

  class LoginPage {
    var errors: Errors

    constructor()
      ensures errors == map[]
    {
      errors := map[];
    }

    /** handleLogin; `loggedIn` is the value passed to onLogin. The admins collection is never written. */
    method HandleLogin(store: Store, f: AdminLoginForm) returns (loggedIn: Option<string>)
      modifies this`errors, store`currentAdmin
      ensures loggedIn.Some? <==> ValidateAdminLoginForm(f) == map[] && CredentialsMatch(store.Admins(), f)
      ensures loggedIn.Some? ==> loggedIn.value == f.username && store.currentAdmin == Some(f.username) && errors == map[]
      ensures loggedIn.None? ==> store.currentAdmin == old(store.currentAdmin)
      ensures ValidateAdminLoginForm(f) != map[] ==> errors == ValidateAdminLoginForm(f)
      ensures ValidateAdminLoginForm(f) == map[] && loggedIn.None? ==> errors == map[General := InvalidAdminLogin]
    {
      errors := ValidateAdminLoginForm(f);
      if errors != map[] {
        return None;
      }
      if CredentialsMatch(store.Admins(), f) {
        store.currentAdmin := Some(f.username);
        loggedIn := Some(f.username);
      } else {
        errors := map[General := InvalidAdminLogin];
        loggedIn := None;
      }
    }
  }
}

/**
 * The developer page that provisions a hospital admin
 * (src/pages/developer/DeveloperRegister.jsx).
 */
module DeveloperRegister {
  import opened Wrappers
  import opened Validation
  import opened Records
  import opened Store

  datatype DeveloperForm = DeveloperForm(
    hospitalName: string, hospitalLocation: string, hospitalLogo: string,
    adminUsername: string, adminPassword: string, confirmPassword: string)

  /** validateForm: one error per broken rule; the logo is not checked. */
  function ValidateDeveloperForm(f: DeveloperForm): (errs: Errors)
    ensures errs.Keys <= {HospitalName, HospitalLocation, AdminUsername, AdminPassword, ConfirmPassword}
    ensures HospitalName in errs <==> !ValidateRequired(f.hospitalName)
    ensures HospitalName in errs ==> errs[HospitalName] == "Hospital name is required"
    ensures HospitalLocation in errs <==> !ValidateRequired(f.hospitalLocation)
    ensures HospitalLocation in errs ==> errs[HospitalLocation] == "Hospital location is required"
    ensures AdminUsername in errs <==> !ValidateUsername(f.adminUsername).valid
    ensures AdminUsername in errs ==> errs[AdminUsername] == ValidateUsername(f.adminUsername).message
    ensures AdminPassword in errs <==> !ValidatePassword(f.adminPassword).valid
    ensures AdminPassword in errs ==> errs[AdminPassword] == ValidatePassword(f.adminPassword).message
    ensures ConfirmPassword in errs <==> f.adminPassword != f.confirmPassword
    ensures ConfirmPassword in errs ==> errs[ConfirmPassword] == "Passwords do not match"
  {
    DeveloperErrors(f, ValidateRequired(f.hospitalName), ValidateRequired(f.hospitalLocation),
      ValidateUsername(f.adminUsername), ValidatePassword(f.adminPassword))
  }

  /** The error object the developer form's validate builds, given the outcomes of the shared validators. */
  function DeveloperErrors(f: DeveloperForm, named: bool, located: bool, user: Check, pw: Check): (errs: Errors)
    ensures errs.Keys <= {HospitalName, HospitalLocation, AdminUsername, AdminPassword, ConfirmPassword}
    ensures HospitalName in errs <==> !named
    ensures HospitalName in errs ==> errs[HospitalName] == "Hospital name is required"
    ensures HospitalLocation in errs <==> !located
    ensures HospitalLocation in errs ==> errs[HospitalLocation] == "Hospital location is required"
    ensures AdminUsername in errs <==> !user.valid
    ensures AdminUsername in errs ==> errs[AdminUsername] == user.message
    ensures AdminPassword in errs <==> !pw.valid
    ensures AdminPassword in errs ==> errs[AdminPassword] == pw.message
    ensures ConfirmPassword in errs <==> f.adminPassword != f.confirmPassword
    ensures ConfirmPassword in errs ==> errs[ConfirmPassword] == "Passwords do not match"
  {
    var e := AddIf(map[], !named, HospitalName, "Hospital name is required");
    var e := AddIf(e, !located, HospitalLocation, "Hospital location is required");
    var e := AddIf(e, !user.valid, AdminUsername, user.message);
    var e := AddIf(e, !pw.valid, AdminPassword, pw.message);
    AddIf(e, f.adminPassword != f.confirmPassword, ConfirmPassword, "Passwords do not match")
  }

  /** The logo never affects validation. */
  lemma LogoNotValidated(f: DeveloperForm, logo: string)
    ensures ValidateDeveloperForm(f.(hospitalLogo := logo)) == ValidateDeveloperForm(f)
  {
  }

  /** The admin handleRegister appends: the form's account and hospital, no statistics yet. */
  function NewAdmin(f: DeveloperForm): (a: Admin)
    ensures a.username == f.adminUsername && a.password == f.adminPassword
    ensures a.hospitalName == f.hospitalName && a.hospitalLocation == f.hospitalLocation
    ensures a.hospitalLogo == f.hospitalLogo && a.departments == []
  {
    Admin(f.adminUsername, f.adminPassword, f.hospitalName, f.hospitalLocation, f.hospitalLogo, [])
  }

  /** No two stored admins share a username. */
  ghost predicate AdminUsernamesUnique(admins: seq<Admin>) {
    forall i, j :: 0 <= i < j < |admins| ==> admins[i].username != admins[j].username
  }

  /** The duplicate check keeps admin usernames unique. */
  lemma RegisterAdminKeepsUsernamesUnique(admins: seq<Admin>, f: DeveloperForm)
    requires AdminUsernamesUnique(admins) && !UsernameTaken(admins, UsernameOfAdmin, f.adminUsername)
    ensures AdminUsernamesUnique(admins + [NewAdmin(f)])
  {
    var admins' := admins + [NewAdmin(f)];
    forall i, j | 0 <= i < j < |admins'|
      ensures admins'[i].username != admins'[j].username
    {
      assert admins'[i] == admins[i];
    }
  }

  class RegisterPage {
    var errors: Errors

    constructor()
      ensures errors == map[]
    {
      errors := map[];
    }

    /** handleRegister: writes only the admins collection, and no session slot. */
    method HandleRegister(store: Store, f: DeveloperForm) returns (registered: bool)
      modifies this`errors, store`admins
      ensures registered <==>
        ValidateDeveloperForm(f) == map[] && !UsernameTaken(old(store.Admins()), UsernameOfAdmin, f.adminUsername)
      ensures ValidateDeveloperForm(f) != map[] ==> errors == ValidateDeveloperForm(f)
      ensures ValidateDeveloperForm(f) == map[] && !registered ==>
        errors == map[AdminUsername := "Username already exists"]
      ensures !registered ==> store.admins == old(store.admins)
      ensures registered ==> errors == map[] && store.admins == Some(old(store.Admins()) + [NewAdmin(f)])
    {
      errors := ValidateDeveloperForm(f);
      if errors != map[] {
        return false;
      }
      var admins := store.Admins();
      if UsernameTaken(admins, UsernameOfAdmin, f.adminUsername) {
        errors := map[AdminUsername := "Username already exists"];
        return false;
      }
      store.admins := Some(admins + [NewAdmin(f)]);
      errors := map[];
      registered := true;
    }
  }
}

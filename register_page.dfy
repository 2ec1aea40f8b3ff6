/**
  The registration page (src/pages/RegisterPage.jsx): five form fields, the error
  map `validateForm` fills field by field, the input handler and the message shown
  when registration fails.
*/
module Register {
  import opened Wrappers
  import Text
  import FormState

  const Fields: set<string> := {"firstName", "lastName", "email", "password", "confirmPassword"}

  /** The first- and last-name check: required first, then at least two characters. */
  function NameError(what: string, name: string): (e: Option<string>)
    ensures e.None? <==> |name| >= 2
    ensures name == [] ==> e == Some(what + " is required")
  {
    if name == [] then Some(what + " is required")
    else if |name| < 2 then Some(what + " must be at least 2 characters")
    else None
  }

  function ConfirmError(password: string, confirmPassword: string): (e: Option<string>)
    ensures e.None? <==> confirmPassword != [] && confirmPassword == password
  {
    if confirmPassword == [] then Some("Please confirm your password")
    else if password != confirmPassword then Some("Passwords do not match")
    else None
  }

  /** An error map with an entry for each field that has a message, at most one per field. */
  function ErrorMap(firstName: Option<string>, lastName: Option<string>, email: Option<string>,
                    password: Option<string>, confirmPassword: Option<string>): (r: map<string, string>)
    ensures r.Keys <= Fields
    ensures "firstName" in r <==> firstName.Some?
    ensures "lastName" in r <==> lastName.Some?
    ensures "email" in r <==> email.Some?
    ensures "password" in r <==> password.Some?
    ensures "confirmPassword" in r <==> confirmPassword.Some?
  {
    var e := FormState.Put(map[], "firstName", firstName);
    var e := FormState.Put(e, "lastName", lastName);
    var e := FormState.Put(e, "email", email);
    var e := FormState.Put(e, "password", password);
    FormState.Put(e, "confirmPassword", confirmPassword)
  }

  /** The error map `validateForm` builds. */
  function FormErrors(f: map<string, string>): (r: map<string, string>)
    requires Fields <= f.Keys
    ensures r.Keys <= Fields
    ensures "firstName" in r <==> NameError("First name", f["firstName"]).Some?
    ensures "lastName" in r <==> NameError("Last name", f["lastName"]).Some?
    ensures "email" in r <==> FormState.EmailError(f["email"]).Some?
    ensures "password" in r <==> FormState.PasswordError(f["password"]).Some?
    ensures "confirmPassword" in r <==> ConfirmError(f["password"], f["confirmPassword"]).Some?
  {
    ErrorMap(NameError("First name", f["firstName"]), NameError("Last name", f["lastName"]), FormState.EmailError(f["email"]),
             FormState.PasswordError(f["password"]), ConfirmError(f["password"], f["confirmPassword"]))
  }

  /** The form passes exactly when both names have two characters, the e-mail matches, the password has six and is repeated. */
  lemma FormValid(f: map<string, string>)
    requires Fields <= f.Keys
    ensures FormErrors(f) == map[] <==>
      && |f["firstName"]| >= 2 && |f["lastName"]| >= 2
      && FormState.EmailLike(f["email"])
      && |f["password"]| >= 6 && f["confirmPassword"] == f["password"]
  {
    var r := FormErrors(f);
    if NameError("First name", f["firstName"]).Some? { assert "firstName" in r; }
    if NameError("Last name", f["lastName"]).Some? { assert "lastName" in r; }
    if FormState.EmailError(f["email"]).Some? { assert "email" in r; }
    if FormState.PasswordError(f["password"]).Some? { assert "password" in r; }
    if ConfirmError(f["password"], f["confirmPassword"]).Some? { assert "confirmPassword" in r; }
  }

  const DuplicateEmail := "An account with this email already exists."

  /** The text shown when registration fails: the error or a default, with duplicate-e-mail errors rephrased. */
  function FailureMessage(error: Option<string>): (d: string)
    ensures var shown := if error.Some? && error.value != [] then error.value else "Registration failed";
      && (Text.Occurs(Text.ToLower(shown), "email") && Text.Occurs(Text.ToLower(shown), "exist") ==> d == DuplicateEmail)
      && (!Text.Occurs(Text.ToLower(shown), "email") || !Text.Occurs(Text.ToLower(shown), "exist") ==> d == shown)
  {
    var shown := if error.Some? && error.value != [] then error.value else "Registration failed";
    if Text.Includes(Text.ToLower(shown), "email") && Text.Includes(Text.ToLower(shown), "exist")
    then DuplicateEmail
    else shown
  }

  class RegisterPage {
    var formData: map<string, string>
    var errors: map<string, string>

    ghost predicate Valid()
      reads this
    {
      Fields <= formData.Keys
    }

    constructor()
      ensures Valid()
      ensures formData == map["firstName" := "", "lastName" := "", "email" := "", "password" := "", "confirmPassword" := ""]
      ensures errors == map[]
    {
      formData := map["firstName" := "", "lastName" := "", "email" := "", "password" := "", "confirmPassword" := ""];
      errors := map[];
    }

    /** `handleInputChange`: the named field takes the value and only its error is cleared. */
    method HandleInputChange(name: string, value: string)
      requires Valid()
      modifies this`formData, this`errors
      ensures Valid()
      ensures formData == old(formData)[name := value]
      ensures errors == FormState.ClearError(old(errors), name)
    {
      formData := formData[name := value];
      errors := FormState.ClearError(errors, name);
    }

    /** `validateForm`: the error map is rebuilt field by field; the form passes when it is empty. */
    method ValidateForm() returns (ok: bool)
      requires Valid()
      modifies this`errors
      ensures errors == FormErrors(formData)
      ensures ok <==> FormState.NoErrors(errors)
    {
      var newErrors: map<string, string> := map[];
      newErrors := FormState.Put(newErrors, "firstName", NameError("First name", formData["firstName"]));
      newErrors := FormState.Put(newErrors, "lastName", NameError("Last name", formData["lastName"]));
      newErrors := FormState.Put(newErrors, "email", FormState.EmailError(formData["email"]));
      newErrors := FormState.Put(newErrors, "password", FormState.PasswordError(formData["password"]));
      newErrors := FormState.Put(newErrors, "confirmPassword", ConfirmError(formData["password"], formData["confirmPassword"]));
      errors := newErrors;
      ok := |newErrors| == 0;
    }
  }
}

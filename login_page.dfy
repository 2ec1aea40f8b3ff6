/**
  The login page (src/pages/LoginPage.jsx): the e-mail and password fields, the
  error map `validateForm` fills field by field, the input handler and the
  message shown when login fails.
*/
module Login {
  import opened Wrappers
  import Text
  import FormState

  const Fields: set<string> := {"email", "password"}

  /** An error map with an entry for each field that has a message. */
  function ErrorMap(email: Option<string>, password: Option<string>): (r: map<string, string>)
    ensures r.Keys <= Fields
    ensures "email" in r <==> email.Some?
    ensures "password" in r <==> password.Some?
  {
    FormState.Put(FormState.Put(map[], "email", email), "password", password)
  }

  /** The error map `validateForm` builds. */
  function FormErrors(f: map<string, string>): (r: map<string, string>)
    requires Fields <= f.Keys
    ensures r.Keys <= Fields
    ensures "email" in r <==> FormState.EmailError(f["email"]).Some?
    ensures "password" in r <==> FormState.PasswordError(f["password"]).Some?
  {
    ErrorMap(FormState.EmailError(f["email"]), FormState.PasswordError(f["password"]))
  }

  /** The form passes exactly when the e-mail matches the pattern and the password has six characters. */
  lemma FormValid(f: map<string, string>)
    requires Fields <= f.Keys
    ensures FormErrors(f) == map[] <==> FormState.EmailLike(f["email"]) && |f["password"]| >= 6
  {
    var r := FormErrors(f);
    if FormState.EmailError(f["email"]).Some? { assert "email" in r; }
    if FormState.PasswordError(f["password"]).Some? { assert "password" in r; }
  }

  const InvalidCredentials := "Invalid email or password."

  /** The text shown when login fails: the error or "Login failed", any mention of "invalid" rephrased. */
  function FailureMessage(error: Option<string>): (d: string)
    ensures var shown := if error.Some? && error.value != [] then error.value else "Login failed";
      && (Text.Occurs(Text.ToLower(shown), "invalid") ==> d == InvalidCredentials)
      && (!Text.Occurs(Text.ToLower(shown), "invalid") ==> d == shown)
  {
    var shown := if error.Some? && error.value != [] then error.value else "Login failed";
    if Text.Includes(Text.ToLower(shown), "invalid") then InvalidCredentials else shown
  }

  class LoginPage {
    var formData: map<string, string>
    var errors: map<string, string>

    ghost predicate Valid()
      reads this
    {
      Fields <= formData.Keys
    }

    constructor()
      ensures Valid()
      ensures formData == map["email" := "", "password" := ""] && errors == map[]
    {
      formData := map["email" := "", "password" := ""];
      errors := map[];
    }

    /** `handleInputChange`: the named field takes the value and only its error is cleared. */
    method HandleInputChange(name: string, value: string)
      requires Valid()
      modifies this`formData, this`errors
      ensures Valid()
      ensures formData == old(formData)[name := value]
      ensures errors == FormState.ClearError(old(errors), name)
    {
      formData := formData[name := value];
      errors := FormState.ClearError(errors, name);
    }

    /** `validateForm`: the error map is rebuilt field by field; the form passes when it is empty. */
    method ValidateForm() returns (ok: bool)
      requires Valid()
      modifies this`errors
      ensures errors == FormErrors(formData)
      ensures ok <==> FormState.NoErrors(errors)
    {
      var newErrors: map<string, string> := map[];
      newErrors := FormState.Put(newErrors, "email", FormState.EmailError(formData["email"]));
      newErrors := FormState.Put(newErrors, "password", FormState.PasswordError(formData["password"]));
      errors := newErrors;
      ok := |newErrors| == 0;
    }
  }
}

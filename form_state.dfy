/**
  Form helpers the client pages share (src/pages/AskQuestionPage.jsx,
  src/pages/RegisterPage.jsx, src/pages/LoginPage.jsx): the error map, whose
  entries show only when non-empty, and the `\S+@\S+\.\S+` e-mail test.
*/
module FormState {
  import opened Wrappers
  import Text

  /** `errors[name]` is truthy: present and non-empty. */
  predicate ErrorShown(errors: map<string, string>, name: string)
  {
    name in errors && errors[name] != []
  }

  /** The error-clearing step of `handleInputChange`: a shown error of `name` becomes "". */
  function ClearError(errors: map<string, string>, name: string): (r: map<string, string>)
    ensures r.Keys == errors.Keys
    ensures !ErrorShown(r, name)
    ensures forall k :: k in errors && k != name ==> r[k] == errors[k]
    ensures !ErrorShown(errors, name) ==> r == errors
  {
    if ErrorShown(errors, name) then errors[name := []] else errors
  }

  /** `newErrors.field = message` when the field has a message. */
  function Put(errors: map<string, string>, field: string, message: Option<string>): (r: map<string, string>)
    ensures message.None? ==> r == errors
    ensures message.Some? ==> r == errors[field := message.value]
  {
    if message.Some? then errors[field := message.value] else errors
  }

  /** A form is valid when `Object.keys(newErrors).length === 0`: the error map is empty. */
  predicate NoErrors(errors: map<string, string>): (b: bool)
    ensures b <==> errors == map[]
  {
    if errors != map[] then
      var k :| k in errors;
      assert k in errors.Keys;
      false
    else
      true
  }

  /** The e-mail check both the login and the registration form run: required first, then the pattern. */
  function EmailError(email: string): (e: Option<string>)
    ensures e.None? <==> EmailLike(email)
    ensures email == [] ==> e == Some("Email is required")
  {
    if email == [] then Some("Email is required")
    else if !EmailLike(email) then Some("Email is invalid")
    else None
  }

  /** The password check both forms run: required first, then at least six characters. */
  function PasswordError(password: string): (e: Option<string>)
    ensures e.None? <==> |password| >= 6
    ensures password == [] ==> e == Some("Password is required")
  {
    if password == [] then Some("Password is required")
    else if |password| < 6 then Some("Password must be at least 6 characters")
    else None
  }

  /** The characters at positions lo .. hi - 1 are all non-space. */
  predicate NonSpaceRun(s: string, lo: int, hi: int)
    requires 0 <= lo <= hi <= |s|
  {
    forall k :: lo <= k < hi ==> !Text.IsSpace(s[k])
  }

  /** A match of `\S+@\S+\.\S+` with its '@' at i and its '.' at j (each outer run cut to one character). */
  predicate MatchesAt(s: string, i: int, j: int)
  {
    && 1 <= i && i + 1 < j && j + 1 < |s|
    && s[i] == '@' && s[j] == '.'
    && !Text.IsSpace(s[i - 1]) && !Text.IsSpace(s[j + 1])
    && NonSpaceRun(s, i + 1, j)
  }

  /** `/\S+@\S+\.\S+/.test(s)`: the pattern occurs somewhere in `s`. */
  predicate EmailLike(s: string)
  {
    exists i, j | 0 <= i < |s| && 0 <= j < |s| :: MatchesAt(s, i, j)
  }

  /** An address that passes has an '@', a '.' after it and at least five characters. */
  lemma EmailLikeShape(s: string)
    requires EmailLike(s)
    ensures '@' in s && '.' in s && |s| >= 5
  {
    var i, j :| 0 <= i < |s| && 0 <= j < |s| && MatchesAt(s, i, j);
    assert s[i] == '@' && s[j] == '.';
  }

  /** The test is unanchored: text around a passing address passes too. */
  lemma EmailLikeInContext(p: string, s: string, q: string)
    requires EmailLike(s)
    ensures EmailLike(p + s + q)
  {
    var i, j :| 0 <= i < |s| && 0 <= j < |s| && MatchesAt(s, i, j);
    var t := p + s + q;
    assert forall k :: 0 <= k < |s| ==> t[|p| + k] == s[k];
    assert MatchesAt(t, |p| + i, |p| + j);
  }
}

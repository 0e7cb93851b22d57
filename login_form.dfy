/** The sign-in form's `validateForm`: an e-mail that matches the pattern and
    a non-empty password, with no length rule. */
module LoginForm {
  import opened AuthValidation

  datatype LoginData = LoginData(email: string, password: string, rememberMe: bool)

  function Errors(f: LoginData): map<string, Message>
  {
    var e1 := if f.email == "" then map["email" := Required]
              else if !IsEmail(f.email) then map["email" := InvalidEmail] else map[];
    if f.password == "" then e1["password" := Required] else e1
  }

  /** An empty e-mail is "required", a malformed one "invalid"; an empty
      password is "required", and any other password passes. */
  lemma ErrorsMeaning(f: LoginData)
    ensures var e := Errors(f);
            && e.Keys <= {"email", "password"}
            && ("email" in e <==> !MatchesPattern(f.email))
            && ("email" in e ==> e["email"] == if f.email == "" then Required else InvalidEmail)
            && ("password" in e <==> f.password == "")
            && ("password" in e ==> e["password"] == Required)
  {
    IsEmailMatchesPattern(f.email);
  }

  lemma NoErrorsIffValid(f: LoginData)
    ensures Errors(f) == map[] <==> MatchesPattern(f.email) && f.password != ""
  {
    ErrorsMeaning(f);
    if MatchesPattern(f.email) && f.password != "" {
      assert Errors(f).Keys == {};
    }
  }

  class Form {
    var formData: LoginData
    var errors: map<string, Message>

    constructor ()
      ensures formData == LoginData("", "", false) && errors == map[]
    {
      formData := LoginData("", "", false);
      errors := map[];
    }

    method ValidateForm() returns (ok: bool)
      modifies this
      ensures formData == old(formData)
      ensures errors == Errors(formData)
      ensures ok <==> MatchesPattern(formData.email) && formData.password != ""
    {
      var newErrors: map<string, Message> := map[];
      if formData.email == "" {
        newErrors := newErrors["email" := Required];
      } else if !IsEmail(formData.email) {
        newErrors := newErrors["email" := InvalidEmail];
      }
      if formData.password == "" {
        newErrors := newErrors["password" := Required];
      }
      errors := newErrors;
      NoErrorsIffValid(formData);
      ok := newErrors == map[];
    }
  }
}

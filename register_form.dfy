/** The shop owner's sign-up form and its `validateForm`, which fills an
    error per field check by check and accepts when none was filled. */
module RegisterForm {
  import opened AuthValidation

  datatype RegisterData = RegisterData(
    fullName: string,
    shopName: string,
    email: string,
    phone: string,
    password: string,
    confirmPassword: string,
    agreeTerms: bool)

  /** The errors the checks record, one entry per failing field, in the
      order the checks run. */
  function Errors(f: RegisterData): map<string, Message>
  {
    CheckAgreeTerms(f, CheckConfirm(f, CheckPassword(f, CheckEmail(f, CheckShopName(f, CheckFullName(f, map[]))))))
  }

  function CheckFullName(f: RegisterData, e: map<string, Message>): map<string, Message>
  {
    if f.fullName == "" then e["fullName" := Required] else e
  }

  function CheckShopName(f: RegisterData, e: map<string, Message>): map<string, Message>
  {
    if f.shopName == "" then e["shopName" := Required] else e
  }

  function CheckEmail(f: RegisterData, e: map<string, Message>): map<string, Message>
  {
    if f.email == "" then e["email" := Required]
    else if !IsEmail(f.email) then e["email" := InvalidEmail] else e
  }

  function CheckPassword(f: RegisterData, e: map<string, Message>): map<string, Message>
  {
    if f.password == "" then e["password" := Required]
    else if |f.password| < 8 then e["password" := PasswordMin] else e
  }

  function CheckConfirm(f: RegisterData, e: map<string, Message>): map<string, Message>
  {
    if f.confirmPassword == "" then e["confirmPassword" := Required]
    else if f.password != f.confirmPassword then e["confirmPassword" := PasswordMatch] else e
  }

  function CheckAgreeTerms(f: RegisterData, e: map<string, Message>): map<string, Message>
  {
    if !f.agreeTerms then e["agreeTerms" := Required] else e
  }

  // Each field's error, and its absence, as the checks decide them: a field
  // carries at most one message, "required" whenever it is empty.

  lemma FullNameError(f: RegisterData)
    ensures "fullName" in Errors(f) <==> f.fullName == ""
    ensures "fullName" in Errors(f) ==> Errors(f)["fullName"] == Required
  {
  }

  lemma ShopNameError(f: RegisterData)
    ensures "shopName" in Errors(f) <==> f.shopName == ""
    ensures "shopName" in Errors(f) ==> Errors(f)["shopName"] == Required
  {
  }

  lemma EmailError(f: RegisterData)
    ensures "email" in Errors(f) <==> !MatchesPattern(f.email)
    ensures "email" in Errors(f) ==> Errors(f)["email"] == if f.email == "" then Required else InvalidEmail
  {
    IsEmailMatchesPattern(f.email);
  }

  lemma PasswordError(f: RegisterData)
    ensures "password" in Errors(f) <==> |f.password| < 8
    ensures "password" in Errors(f) ==> Errors(f)["password"] == if f.password == "" then Required else PasswordMin
  {
  }

  lemma ConfirmPasswordError(f: RegisterData)
    ensures "confirmPassword" in Errors(f) <==> f.confirmPassword == "" || f.confirmPassword != f.password
    ensures "confirmPassword" in Errors(f) ==>
              Errors(f)["confirmPassword"] == if f.confirmPassword == "" then Required else PasswordMatch
  {
  }

  lemma AgreeTermsError(f: RegisterData)
    ensures "agreeTerms" in Errors(f) <==> !f.agreeTerms
    ensures "agreeTerms" in Errors(f) ==> Errors(f)["agreeTerms"] == Required
  {
  }

  /** No other field is ever reported. */
  lemma ErrorKeys(f: RegisterData)
    ensures Errors(f).Keys <= {"fullName", "shopName", "email", "password", "confirmPassword", "agreeTerms"}
  {
  }

  /** The form is accepted exactly when every field passes. */
  ghost predicate Acceptable(f: RegisterData)
  {
    && f.fullName != "" && f.shopName != "" && MatchesPattern(f.email)
    && |f.password| >= 8 && f.confirmPassword == f.password && f.agreeTerms
  }

  lemma NoErrorsIffAcceptable(f: RegisterData)
    ensures Errors(f) == map[] <==> Acceptable(f)
  {
    FullNameError(f);
    ShopNameError(f);
    EmailError(f);
    PasswordError(f);
    ConfirmPasswordError(f);
    AgreeTermsError(f);
    ErrorKeys(f);
    var e := Errors(f);
    if Acceptable(f) {
      assert e.Keys == {};
    }
    if e == map[] {
      assert "email" !in e && "password" !in e && "confirmPassword" !in e;
    }
  }

  class Form {
    var formData: RegisterData
    var errors: map<string, Message>

    constructor ()
      ensures formData == RegisterData("", "", "", "", "", "", false) && errors == map[]
    {
      formData := RegisterData("", "", "", "", "", "", false);
      errors := map[];
    }

    method ValidateForm() returns (ok: bool)
      modifies this
      ensures formData == old(formData)
      ensures errors == Errors(formData)
      ensures ok <==> Acceptable(formData)
    {
      var f := formData;
      var newErrors: map<string, Message> := map[];
      if f.fullName == "" {
        newErrors := newErrors["fullName" := Required];
      }
      assert newErrors == CheckFullName(f, map[]);
      ghost var e1 := newErrors;
      if f.shopName == "" {
        newErrors := newErrors["shopName" := Required];
      }
      assert newErrors == CheckShopName(f, e1);
      ghost var e2 := newErrors;
      if f.email == "" {
        newErrors := newErrors["email" := Required];
      } else if !IsEmail(f.email) {
        newErrors := newErrors["email" := InvalidEmail];
      }
      assert newErrors == CheckEmail(f, e2);
      ghost var e3 := newErrors;
      if f.password == "" {
        newErrors := newErrors["password" := Required];
      } else if |f.password| < 8 {
        newErrors := newErrors["password" := PasswordMin];
      }
      assert newErrors == CheckPassword(f, e3);
      ghost var e4 := newErrors;
      if f.confirmPassword == "" {
        newErrors := newErrors["confirmPassword" := Required];
      } else if f.password != f.confirmPassword {
        newErrors := newErrors["confirmPassword" := PasswordMatch];
      }
      assert newErrors == CheckConfirm(f, e4);
      ghost var e5 := newErrors;
      if !f.agreeTerms {
        newErrors := newErrors["agreeTerms" := Required];
      }
      assert newErrors == CheckAgreeTerms(f, e5);
      assert newErrors == Errors(f);
      errors := newErrors;
      NoErrorsIffAcceptable(f);
      ok := newErrors == map[];
    }
  }
}

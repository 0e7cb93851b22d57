/** The password-reset form's `validateForm`: early returns that set the one
    error line, and a cleared error when the e-mail passes. */
module ForgotPasswordForm {
  import opened AuthValidation
  import opened Seqs

  class Form {
    var email: string
    /** The error line; `None` is the empty string. */
    var error: Option<Message>

    constructor ()
      ensures email == "" && error.None?
    {
      email := "";
      error := None;
    }

    method ValidateForm() returns (ok: bool)
      modifies this
      ensures email == old(email)
      ensures ok <==> MatchesPattern(email)
      ensures email == "" ==> error == Some(Required)
      ensures email != "" && !MatchesPattern(email) ==> error == Some(InvalidEmail)
      ensures ok ==> error.None?
    {
      IsEmailMatchesPattern(email);
      if email == "" {
        error := Some(Required);
        return false;
      }
      if !IsEmail(email) {
        error := Some(InvalidEmail);
        return false;
      }
      error := None;
      return true;
    }
  }
}

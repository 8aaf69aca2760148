/** The submit handler of the password-reset form
    (frontend/src/components/auth/ResetPassword.jsx). */
module ResetPasswordForm {
  import opened Common
  import opened Primitives
  import opened PasswordPolicy
  import opened AuthServer
  import RegisterForm

  const WeakPasswordMessage: string :=
    "Password must be at least 8 characters and include uppercase, lowercase, numbers, and special characters"
  const MismatchMessage: string := "Passwords do not match"

  /** An error shown in the form, or the request that redeems the reset
      token from the link with the new password. */
  datatype SubmitOutcome = ShowError(message: string) | SubmitReset(token: string, password: string)

  /** `handleSubmit`: the same two checks in the same order as on the
      registration form. */
  function HandleSubmit(token: string, password: string, confirmPassword: string): (o: SubmitOutcome)
    ensures o.SubmitReset? <==> ValidatePassword(password) && password == confirmPassword
    ensures o.SubmitReset? ==> o == SubmitReset(token, password) && |o.password| >= MinLength
    ensures !ValidatePassword(password) ==> o == ShowError(WeakPasswordMessage)
    ensures ValidatePassword(password) && password != confirmPassword ==> o == ShowError(MismatchMessage)
  {
    if !ValidatePassword(password) then ShowError(WeakPasswordMessage)
    else if password != confirmPassword then ShowError(MismatchMessage)
    else SubmitReset(token, password)
  }

  /** The two forms refuse exactly the same password pairs, with the same
      message. */
  lemma FormsAgree(email: string, token: string, password: string, confirmPassword: string)
    ensures HandleSubmit(token, password, confirmPassword).ShowError? <==>
              RegisterForm.HandleSubmit(email, password, confirmPassword).ShowError?
    ensures HandleSubmit(token, password, confirmPassword).ShowError? ==>
              HandleSubmit(token, password, confirmPassword).message ==
              RegisterForm.HandleSubmit(email, password, confirmPassword).message
  {
  }

  /** A password the form lets through is never refused by the server's
      validation: the server answers a reset either as done or as an
      invalid or expired token. */
  lemma SubmittedPasswordPassesServer(st: State, token: string, password: string, confirmPassword: string,
                                      now: Time, salt: string, c: Crypto)
    requires HandleSubmit(token, password, confirmPassword).SubmitReset?
    ensures ResetPasswordSpec(st, token, password, now, salt, c).0 != ResetFailed
  {
  }
}

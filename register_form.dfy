/** The submit handler of the registration form
    (frontend/src/components/auth/Register.jsx). */
module RegisterForm {
  import opened PasswordPolicy

  const WeakPasswordMessage: string :=
    "Password must be at least 8 characters and include uppercase, lowercase, numbers, and special characters"
  const MismatchMessage: string := "Passwords do not match"

  /** What a submit leads to: an error shown in the form, or the request
      that asks the server to send a verification code. */
  datatype SubmitOutcome = ShowError(message: string) | RequestOtp(email: string, password: string)

  /** `handleSubmit` on the first step of the form. The strength check comes
      first, so a weak password is reported as weak even when the
      confirmation differs; only a strong password typed twice the same
      reaches the server. */
  function HandleSubmit(email: string, password: string, confirmPassword: string): (o: SubmitOutcome)
    ensures o.RequestOtp? <==> ValidatePassword(password) && password == confirmPassword
    ensures o.RequestOtp? ==> o == RequestOtp(email, password) && |o.password| >= MinLength
    ensures !ValidatePassword(password) ==> o == ShowError(WeakPasswordMessage)
    ensures ValidatePassword(password) && password != confirmPassword ==> o == ShowError(MismatchMessage)
  {
    if !ValidatePassword(password) then ShowError(WeakPasswordMessage)
    else if password != confirmPassword then ShowError(MismatchMessage)
    else RequestOtp(email, password)
  }
}

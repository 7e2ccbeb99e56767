/** `PasswordMatchesValidator`: the registration form's two passwords agree. */
module Passwords {
  import opened Wrappers

  /** `isValid`: `None` stands for a null field. */
  function IsValid(password: Option<string>, repeatPassword: Option<string>): (ok: bool)
    ensures ok <==> password.Some? && repeatPassword.Some? && password.value == repeatPassword.value
    ensures password.None? || repeatPassword.None? ==> !ok
  {
    match (password, repeatPassword)
    case (Some(p), Some(q)) => p == q
    case _ => false
  }
}

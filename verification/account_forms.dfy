/** The registration form of `account/forms.py` and its password check. */
module AccountForms {
  import opened Common

  /** The model fields the registration form edits, in declaration order. */
  const RegistrationFields: seq<string> := ["first_name", "last_name", "phone_number", "email", "password"]

  const PasswordMismatch := "Password does not match."

  datatype CleanResult = Cleaned | ValidationError(message: string)

  /** `RegistrationForm.clean`: the cleaned password and confirmation (either
      may be absent) must be equal, compared exactly. Its inputs are the values
      left after each field's own cleaning; `None` stands for a field that
      failed it and so is missing from the cleaned data. */
  function Clean(password: Option<string>, confirmPassword: Option<string>): (r: CleanResult)
    ensures r.ValidationError? <==> password != confirmPassword
    ensures r.ValidationError? ==> r.message == PasswordMismatch
  {
    if password != confirmPassword then ValidationError(PasswordMismatch) else Cleaned
  }

  /** On cleaned values the comparison does not fold case, a missing
      confirmation never matches a given password, and two fields missing
      from the cleaned data agree. */
  lemma CleanIsExact()
    ensures Clean(Some("Secret"), Some("secret")).ValidationError?
    ensures Clean(Some("secret"), None).ValidationError?
    ensures Clean(None, None) == Cleaned
    ensures Clean(Some("secret"), Some("secret")) == Cleaned
  {
  }
}

/** Shared result types: the optional value the source writes as `T | undefined`
    or `T | null`, the field error a form schema reports, and the outcome a user
    action produces besides its new state (a blocking toast, a form error list,
    or a navigation request). */
module Common {

  datatype Option<+T> = None | Some(value: T)

  /** One failed rule of a form schema: the field it is attached to and the
      translation key of its message. */
  datatype FieldError = FieldError(path: string, message: string)

  /** What an action signals to the surrounding application. `Ok` is a
      successful (possibly silent) state change; `Blocked` is a destructive
      toast raised by a guard; `Invalid` is a schema rejection shown next to
      the form fields; `Navigate` asks the router to go to `path`. */
  datatype Outcome =
    | Ok
    | Blocked(title: string, detail: string)
    | Invalid(errors: seq<FieldError>)
    | Navigate(path: string)

  /** The error list of a single schema rule: empty when the rule holds. */
  function Check(holds: bool, path: string, message: string): (r: seq<FieldError>)
    ensures holds <==> r == []
    ensures !holds ==> r == [FieldError(path, message)]
  {
    if holds then [] else [FieldError(path, message)]
  }

  /* ---------------- rules shared by the account schemas ---------------- */

  const MinPasswordLength := 8
  const PasswordLengthKey := "validation.passwordLength"
  const PasswordMatchKey := "validation.passwordMatch"

  /** `z.string().min(8)` on the `password` field. */
  function PasswordLengthErrors(password: string): (r: seq<FieldError>)
    ensures r == [] <==> |password| >= MinPasswordLength
    ensures r != [] ==> r == [FieldError("password", PasswordLengthKey)]
  {
    Check(|password| >= MinPasswordLength, "password", PasswordLengthKey)
  }

  /** The object-level `refine` comparing the two passwords, whose failure is
      attached to the `confirmPassword` path. */
  function ConfirmationErrors(password: string, confirmPassword: string): (r: seq<FieldError>)
    ensures r == [] <==> password == confirmPassword
    ensures r != [] ==> r == [FieldError("confirmPassword", PasswordMatchKey)]
  {
    Check(password == confirmPassword, "confirmPassword", PasswordMatchKey)
  }
}

/** The password recovery page of `src/pages/PasswordRecovery.tsx`: a
    three-stage machine (request a code, verify it with the one-time-code
    panel, set a new password) with one-stage go-back, the stored contact,
    and the request and reset schemas. */
module PasswordRecovery {
  import opened Common
  import Otp

  datatype Stage = RequestStage | VerifyStage | ResetStage

  /** `otp` is the state of the embedded code panel; the panel is mounted
      afresh whenever the page enters the verify stage. */
  datatype RecoveryState = RecoveryState(stage: Stage, contact: string, otp: Otp.OtpState)

  const RequiredKey := "validation.required"
  const LoginPath := "/login"

  function Initial(): (s: RecoveryState)
    ensures s.stage == RequestStage && s.contact == ""
  {
    RecoveryState(RequestStage, "", Otp.Initial())
  }

  /** `requestSchema`: the contact must be non-empty. */
  function RequestErrors(contact: string): (r: seq<FieldError>)
    ensures r == [] <==> contact != ""
    ensures r != [] ==> r == [FieldError("contact", RequiredKey)]
  {
    Check(|contact| >= 1, "contact", RequiredKey)
  }

  /** `resetSchema`: at least eight characters, and a confirmation equal to
      the password (reported on `confirmPassword`). */
  function ResetErrors(password: string, confirmPassword: string): (r: seq<FieldError>)
    ensures r == [] <==> |password| >= MinPasswordLength && password == confirmPassword
    ensures FieldError("password", PasswordLengthKey) in r <==> |password| < MinPasswordLength
    ensures FieldError("confirmPassword", PasswordMatchKey) in r <==> password != confirmPassword
  {
    PasswordLengthErrors(password) + ConfirmationErrors(password, confirmPassword)
  }

  /** `onSubmitRequest` behind the request form: a valid contact is stored and
      the page moves to the verify stage with a fresh code panel; an empty one
      is rejected and nothing changes. */
  function SubmitRequest(s: RecoveryState, contact: string): (r: (RecoveryState, Outcome))
    ensures contact != "" ==> r == (RecoveryState(VerifyStage, contact, Otp.Initial()), Ok)
    ensures contact == "" ==> r == (s, Invalid([FieldError("contact", RequiredKey)]))
  {
    var errors := RequestErrors(contact);
    if errors == [] then (RecoveryState(VerifyStage, contact, Otp.Initial()), Ok)
    else (s, Invalid(errors))
  }

  /** `handleVerificationComplete`: on to the reset stage, contact kept. */
  function VerificationComplete(s: RecoveryState): (r: RecoveryState)
    ensures r.stage == ResetStage && r.contact == s.contact
  {
    s.(stage := ResetStage)
  }

  /** `handleGoBack`: verify back to request, reset back to verify (which
      mounts a fresh code panel), a no-op in the request stage. The stored
      contact is never touched. */
  function GoBack(s: RecoveryState): (r: RecoveryState)
    ensures r.contact == s.contact
    ensures s.stage == VerifyStage ==> r.stage == RequestStage
    ensures s.stage == ResetStage ==> r.stage == VerifyStage && r.otp == Otp.Initial()
    ensures s.stage == RequestStage ==> r == s
  {
    match s.stage
    case VerifyStage => s.(stage := RequestStage)
    case ResetStage => s.(stage := VerifyStage, otp := Otp.Initial())
    case RequestStage => s
  }

  /** `onSubmitReset` behind the reset form: a valid new password leads to
      the login page; an invalid one reports the schema errors. The state
      itself is left as it is either way. */
  function SubmitReset(s: RecoveryState, password: string, confirmPassword: string): (r: (RecoveryState, Outcome))
    ensures r.0 == s
    ensures r.1 == Navigate(LoginPath) <==> |password| >= MinPasswordLength && password == confirmPassword
    ensures r.1 != Navigate(LoginPath) ==> r.1 == Invalid(ResetErrors(password, confirmPassword))
  {
    var errors := ResetErrors(password, confirmPassword);
    if errors == [] then (s, Navigate(LoginPath)) else (s, Invalid(errors))
  }

  /** An action on the code panel, which is only rendered in the verify
      stage. Completion moves to reset, cancel goes back, resend (whose
      handler only logs and toasts) leaves stage and contact alone. */
  function HandleOtp(s: RecoveryState, a: Otp.OtpAction): (r: (RecoveryState, Outcome))
    ensures r.0.contact == s.contact
    ensures s.stage != VerifyStage ==> r == (s, Ok)
    ensures s.stage == VerifyStage ==>
              (r.0.stage == ResetStage <==> a == Otp.PressVerify && |s.otp.code| == Otp.CodeLength)
    ensures s.stage == VerifyStage && a == Otp.PressCancel ==> r.0.stage == RequestStage
    ensures a == Otp.PressResend ==> r.0.stage == s.stage
    ensures s.stage == VerifyStage && a == Otp.PressResend ==> r.0.otp.countdown == Otp.ResendSeconds
    ensures s.stage == VerifyStage && a != Otp.PressCancel ==> r.0.otp == Otp.Step(s.otp, a).0
    ensures s.stage == VerifyStage && a != Otp.PressCancel
            && !(a == Otp.PressVerify && |s.otp.code| == Otp.CodeLength) ==>
              r.0.stage == VerifyStage
    ensures s.stage == VerifyStage && a == Otp.PressVerify && |s.otp.code| != Otp.CodeLength ==>
              r.1 == Blocked(Otp.InvalidOtpKey, "")
  {
    if s.stage != VerifyStage then (s, Ok)
    else
      var (o, event) := Otp.Step(s.otp, a);
      var s' := s.(otp := o);
      match event
      case VerificationComplete => (VerificationComplete(s'), Ok)
      case CancelVerification => (GoBack(s'), Ok)
      case CodeRejected => (s', Blocked(Otp.InvalidOtpKey, ""))
      case ResendCode => (s', Ok)
      case NoEvent => (s', Ok)
  }

  /* ---------------- reachable states ---------------- */

  datatype Action =
    | SubmitContact(contact: string)
    | Panel(action: Otp.OtpAction)
    | PressBack
    | SubmitPassword(password: string, confirmPassword: string)

  /** The request form is rendered only in the request stage, the code panel
      only in verify (with its disabled buttons), and the reset form with its
      back button only in reset. */
  predicate Enabled(s: RecoveryState, a: Action)
  {
    match a
    case SubmitContact(_) => s.stage == RequestStage
    case Panel(p) =>
      && s.stage == VerifyStage
      && (p == Otp.PressVerify ==> !Otp.VerifyDisabled(s.otp))
      && (p == Otp.PressResend ==> !Otp.ResendDisabled(s.otp))
      && (p == Otp.TimerTick ==> s.otp.countdown > 0)
    case PressBack => s.stage == ResetStage
    case SubmitPassword(_, _) => s.stage == ResetStage
  }

  function Apply(s: RecoveryState, a: Action): (RecoveryState, Outcome)
  {
    match a
    case SubmitContact(c) => SubmitRequest(s, c)
    case Panel(p) => HandleOtp(s, p)
    case PressBack => (GoBack(s), Ok)
    case SubmitPassword(p, c) => SubmitReset(s, p, c)
  }

  function Run(s: RecoveryState, trace: seq<Action>): RecoveryState
    decreases |trace|
  {
    if |trace| == 0 then s else Run(Apply(s, trace[0]).0, trace[1..])
  }

  ghost predicate EnabledTrace(s: RecoveryState, trace: seq<Action>)
    decreases |trace|
  {
    |trace| == 0 || (Enabled(s, trace[0]) && EnabledTrace(Apply(s, trace[0]).0, trace[1..]))
  }

  /** Past the request stage a non-empty contact is stored, and the code
      panel's countdown stays within 0..60 with at most six characters. */
  ghost predicate Inv(s: RecoveryState)
  {
    (s.stage != RequestStage ==> s.contact != "") && Otp.Valid(s.otp)
  }

  lemma {:induction false} InvAlongTrace(s: RecoveryState, trace: seq<Action>)
    requires Inv(s) && EnabledTrace(s, trace)
    ensures Inv(Run(s, trace))
    decreases |trace|
  {
    if |trace| > 0 {
      InvAlongTrace(Apply(s, trace[0]).0, trace[1..]);
    }
  }

  /** Every reachable state of the page satisfies `Inv`. */
  lemma {:induction false} ReachableInvariant(trace: seq<Action>)
    requires EnabledTrace(Initial(), trace)
    ensures Inv(Run(Initial(), trace))
  {
    InvAlongTrace(Initial(), trace);
  }

  /** The reset stage is entered only from verify, by pressing verify on a
      six-character code. */
  lemma ResetOnlyFromVerify(s: RecoveryState, a: Action)
    requires Enabled(s, a) && s.stage != ResetStage
    ensures Apply(s, a).0.stage == ResetStage ==>
              s.stage == VerifyStage && a == Panel(Otp.PressVerify) && |s.otp.code| == Otp.CodeLength
  {
  }
}

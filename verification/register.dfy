/** The registration page of `src/pages/Register.tsx`: two independent
    drafts (email and phone), their schemas, and the code-verification mode
    entered on a valid submit. Whether a string is an e-mail address (the
    schema library's `email()` check) is a parameter, `isEmail`. */
module Register {
  import opened Common
  import Otp

  datatype Method = EmailMethod | PhoneMethod

  datatype EmailDraft = EmailDraft(email: string, password: string, confirmPassword: string, acceptTerms: bool)

  datatype PhoneDraft = PhoneDraft(phone: string, password: string, confirmPassword: string, acceptTerms: bool)

  /** `tab` is the tab the page shows. The tab list is uncontrolled (it
      starts on e-mail) and is not rendered in code mode, so it shows the
      e-mail tab again whenever the page leaves code mode. `showOtp` and
      `contact` are `showOTP` and `verificationContact`; `otp` is the
      embedded code panel. */
  datatype RegisterState = RegisterState(
    tab: Method,
    emailDraft: EmailDraft,
    phoneDraft: PhoneDraft,
    showOtp: bool,
    contact: string,
    otp: Otp.OtpState)

  const MinPhoneLength := 8
  const ValidEmailKey := "validation.validEmail"
  const ValidPhoneKey := "validation.validPhone"
  const AcceptTermsKey := "validation.acceptTerms"
  const CreateProfilePath := "/create-profile"

  function Initial(): (s: RegisterState)
    ensures s.tab == EmailMethod && !s.showOtp && s.contact == ""
    ensures s.emailDraft == EmailDraft("", "", "", false) && s.phoneDraft == PhoneDraft("", "", "", false)
  {
    RegisterState(EmailMethod, EmailDraft("", "", "", false), PhoneDraft("", "", "", false), false, "", Otp.Initial())
  }

  /** `acceptTerms: z.boolean().refine(val => val === true)`. */
  function TermsErrors(acceptTerms: bool): (r: seq<FieldError>)
    ensures r == [] <==> acceptTerms
  {
    Check(acceptTerms, "acceptTerms", AcceptTermsKey)
  }

  /** `emailSchema`, rules in schema order: e-mail format, password length,
      accepted terms, then the password confirmation. */
  function EmailErrors(f: EmailDraft, isEmail: string -> bool): (r: seq<FieldError>)
    ensures r == [] <==>
              isEmail(f.email) && |f.password| >= MinPasswordLength && f.acceptTerms
              && f.password == f.confirmPassword
    ensures FieldError("email", ValidEmailKey) in r <==> !isEmail(f.email)
    ensures FieldError("password", PasswordLengthKey) in r <==> |f.password| < MinPasswordLength
    ensures FieldError("acceptTerms", AcceptTermsKey) in r <==> !f.acceptTerms
    ensures FieldError("confirmPassword", PasswordMatchKey) in r <==> f.password != f.confirmPassword
  {
    Check(isEmail(f.email), "email", ValidEmailKey)
    + PasswordLengthErrors(f.password)
    + TermsErrors(f.acceptTerms)
    + ConfirmationErrors(f.password, f.confirmPassword)
  }

  /** `phoneSchema`: as the e-mail schema, with a phone of at least eight
      characters instead of an e-mail address. */
  function PhoneErrors(f: PhoneDraft): (r: seq<FieldError>)
    ensures r == [] <==>
              |f.phone| >= MinPhoneLength && |f.password| >= MinPasswordLength && f.acceptTerms
              && f.password == f.confirmPassword
    ensures FieldError("phone", ValidPhoneKey) in r <==> |f.phone| < MinPhoneLength
    ensures FieldError("password", PasswordLengthKey) in r <==> |f.password| < MinPasswordLength
    ensures FieldError("acceptTerms", AcceptTermsKey) in r <==> !f.acceptTerms
    ensures FieldError("confirmPassword", PasswordMatchKey) in r <==> f.password != f.confirmPassword
  {
    Check(|f.phone| >= MinPhoneLength, "phone", ValidPhoneKey)
    + PasswordLengthErrors(f.password)
    + TermsErrors(f.acceptTerms)
    + ConfirmationErrors(f.password, f.confirmPassword)
  }

  /** Choosing a tab shows its form and resets neither draft. */
  function SwitchMethod(s: RegisterState, m: Method): (r: RegisterState)
    ensures r.tab == m
    ensures r.emailDraft == s.emailDraft && r.phoneDraft == s.phoneDraft
    ensures r.showOtp == s.showOtp && r.contact == s.contact
  {
    s.(tab := m)
  }

  /** Typing into the e-mail form changes only the e-mail draft. */
  function EditEmailDraft(s: RegisterState, f: EmailDraft): (r: RegisterState)
    ensures r.emailDraft == f && r.phoneDraft == s.phoneDraft && r.tab == s.tab
    ensures r.showOtp == s.showOtp && r.contact == s.contact && r.otp == s.otp
  {
    s.(emailDraft := f)
  }

  /** Typing into the phone form changes only the phone draft. */
  function EditPhoneDraft(s: RegisterState, f: PhoneDraft): (r: RegisterState)
    ensures r.phoneDraft == f && r.emailDraft == s.emailDraft && r.tab == s.tab
    ensures r.showOtp == s.showOtp && r.contact == s.contact && r.otp == s.otp
  {
    s.(phoneDraft := f)
  }

  /** Submitting the e-mail form: when the schema accepts it, the contact is
      exactly the e-mail and the page enters code-verification mode with a
      fresh panel; otherwise the errors are shown and nothing changes. */
  function SubmitEmail(s: RegisterState, isEmail: string -> bool): (r: (RegisterState, Outcome))
    ensures EmailErrors(s.emailDraft, isEmail) == [] ==>
              r == (s.(showOtp := true, contact := s.emailDraft.email, otp := Otp.Initial()), Ok)
    ensures EmailErrors(s.emailDraft, isEmail) != [] ==>
              r == (s, Invalid(EmailErrors(s.emailDraft, isEmail)))
  {
    var errors := EmailErrors(s.emailDraft, isEmail);
    if errors == [] then (s.(showOtp := true, contact := s.emailDraft.email, otp := Otp.Initial()), Ok)
    else (s, Invalid(errors))
  }

  /** Submitting the phone form, as `SubmitEmail` with the phone number as contact. */
  function SubmitPhone(s: RegisterState): (r: (RegisterState, Outcome))
    ensures PhoneErrors(s.phoneDraft) == [] ==>
              r == (s.(showOtp := true, contact := s.phoneDraft.phone, otp := Otp.Initial()), Ok)
    ensures PhoneErrors(s.phoneDraft) != [] ==> r == (s, Invalid(PhoneErrors(s.phoneDraft)))
  {
    var errors := PhoneErrors(s.phoneDraft);
    if errors == [] then (s.(showOtp := true, contact := s.phoneDraft.phone, otp := Otp.Initial()), Ok)
    else (s, Invalid(errors))
  }

  /** `handleCancelVerification`: leaves code mode. The re-rendered tab list
      starts on the e-mail tab again; both drafts and the contact are kept. */
  function CancelVerification(s: RegisterState): (r: RegisterState)
    ensures !r.showOtp && r.tab == EmailMethod
    ensures r.emailDraft == s.emailDraft && r.phoneDraft == s.phoneDraft && r.contact == s.contact
  {
    s.(showOtp := false, tab := EmailMethod)
  }

  /** `handleVerificationComplete`: leaves code mode and asks for the profile
      creation page. */
  function CompleteVerification(s: RegisterState): (r: (RegisterState, Outcome))
    ensures !r.0.showOtp && r.0.tab == EmailMethod && r.1 == Navigate(CreateProfilePath)
    ensures r.0.emailDraft == s.emailDraft && r.0.phoneDraft == s.phoneDraft && r.0.contact == s.contact
  {
    (s.(showOtp := false, tab := EmailMethod), Navigate(CreateProfilePath))
  }

  /** An action on the code panel, rendered only in code mode. Both cancel
      and completion leave code mode; only completion navigates. Resend
      (whose handler only logs) restarts the countdown and nothing else. */
  function HandleOtp(s: RegisterState, a: Otp.OtpAction): (r: (RegisterState, Outcome))
    ensures r.0.emailDraft == s.emailDraft && r.0.phoneDraft == s.phoneDraft && r.0.contact == s.contact
    ensures !s.showOtp ==> r == (s, Ok)
    ensures r.1 == Navigate(CreateProfilePath) <==>
              s.showOtp && a == Otp.PressVerify && |s.otp.code| == Otp.CodeLength
    ensures s.showOtp && a == Otp.PressCancel ==> !r.0.showOtp && r.1 == Ok
    ensures s.showOtp && (a == Otp.PressVerify || a == Otp.PressCancel) ==>
              (!r.0.showOtp <==> r.1.Navigate? || a == Otp.PressCancel)
    ensures a == Otp.PressResend ==> r.0.showOtp == s.showOtp
    ensures s.showOtp ==> r.0.otp == Otp.Step(s.otp, a).0
    ensures s.showOtp && a != Otp.PressCancel
            && !(a == Otp.PressVerify && |s.otp.code| == Otp.CodeLength) ==>
              r.0.showOtp && r.0.tab == s.tab
    ensures s.showOtp && a == Otp.PressVerify && |s.otp.code| != Otp.CodeLength ==>
              r.1 == Blocked(Otp.InvalidOtpKey, "")
  {
    if !s.showOtp then (s, Ok)
    else
      var (o, event) := Otp.Step(s.otp, a);
      var s' := s.(otp := o);
      match event
      case VerificationComplete => CompleteVerification(s')
      case CancelVerification => (CancelVerification(s'), Ok)
      case CodeRejected => (s', Blocked(Otp.InvalidOtpKey, ""))
      case ResendCode => (s', Ok)
      case NoEvent => (s', Ok)
  }

  /* ---------------- reachable states ---------------- */

  datatype Action =
    | SelectTab(m: Method)
    | TypeEmailForm(emailForm: EmailDraft)
    | TypePhoneForm(phoneForm: PhoneDraft)
    | PressSubmitEmail
    | PressSubmitPhone
    | Panel(action: Otp.OtpAction)

  /** Out of code mode the tabs are rendered, each with its own form, and a
      form can only be edited or submitted while its tab is selected. In
      code mode only the code panel is rendered, with its disabled buttons. */
  predicate Enabled(s: RegisterState, a: Action)
  {
    match a
    case SelectTab(_) => !s.showOtp
    case TypeEmailForm(_) => !s.showOtp && s.tab == EmailMethod
    case TypePhoneForm(_) => !s.showOtp && s.tab == PhoneMethod
    case PressSubmitEmail => !s.showOtp && s.tab == EmailMethod
    case PressSubmitPhone => !s.showOtp && s.tab == PhoneMethod
    case Panel(p) =>
      && s.showOtp
      && (p == Otp.PressVerify ==> !Otp.VerifyDisabled(s.otp))
      && (p == Otp.PressResend ==> !Otp.ResendDisabled(s.otp))
      && (p == Otp.TimerTick ==> s.otp.countdown > 0)
  }

  function Apply(s: RegisterState, a: Action, isEmail: string -> bool): (RegisterState, Outcome)
  {
    match a
    case SelectTab(m) => (SwitchMethod(s, m), Ok)
    case TypeEmailForm(f) => (EditEmailDraft(s, f), Ok)
    case TypePhoneForm(f) => (EditPhoneDraft(s, f), Ok)
    case PressSubmitEmail => SubmitEmail(s, isEmail)
    case PressSubmitPhone => SubmitPhone(s)
    case Panel(p) => HandleOtp(s, p)
  }

  function Run(s: RegisterState, trace: seq<Action>, isEmail: string -> bool): RegisterState
    decreases |trace|
  {
    if |trace| == 0 then s else Run(Apply(s, trace[0], isEmail).0, trace[1..], isEmail)
  }

  ghost predicate EnabledTrace(s: RegisterState, trace: seq<Action>, isEmail: string -> bool)
    decreases |trace|
  {
    |trace| == 0 || (Enabled(s, trace[0]) && EnabledTrace(Apply(s, trace[0], isEmail).0, trace[1..], isEmail))
  }

  /** In code mode the contact is the address or number of the form that was
      submitted, which is still on its tab and still passes its schema. */
  ghost predicate SubmittedContact(s: RegisterState, isEmail: string -> bool)
  {
    || (s.tab == EmailMethod && s.contact == s.emailDraft.email && EmailErrors(s.emailDraft, isEmail) == [])
    || (s.tab == PhoneMethod && s.contact == s.phoneDraft.phone && PhoneErrors(s.phoneDraft) == [])
  }

  ghost predicate Inv(s: RegisterState, isEmail: string -> bool)
  {
    (s.showOtp ==> SubmittedContact(s, isEmail)) && Otp.Valid(s.otp)
  }

  lemma InvStep(s: RegisterState, a: Action, isEmail: string -> bool)
    requires Inv(s, isEmail) && Enabled(s, a)
    ensures Inv(Apply(s, a, isEmail).0, isEmail)
  {
  }

  lemma {:induction false} InvAlongTrace(s: RegisterState, trace: seq<Action>, isEmail: string -> bool)
    requires Inv(s, isEmail) && EnabledTrace(s, trace, isEmail)
    ensures Inv(Run(s, trace, isEmail), isEmail)
    decreases |trace|
  {
    if |trace| > 0 {
      InvStep(s, trace[0], isEmail);
      InvAlongTrace(Apply(s, trace[0], isEmail).0, trace[1..], isEmail);
    }
  }

  /** Whatever the user does, whenever the page is in code mode the contact
      the code was sent to is exactly the e-mail or phone of the form last
      submitted, and that form is valid; the code panel stays within its
      bounds. */
  lemma {:induction false} ReachableInvariant(trace: seq<Action>, isEmail: string -> bool)
    requires EnabledTrace(Initial(), trace, isEmail)
    ensures var s := Run(Initial(), trace, isEmail);
            s.showOtp ==> SubmittedContact(s, isEmail)
    ensures Otp.Valid(Run(Initial(), trace, isEmail).otp)
  {
    InvAlongTrace(Initial(), trace, isEmail);
  }
}

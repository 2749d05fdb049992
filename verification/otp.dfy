/** The one-time-code panel of `src/components/auth/OTPVerification.tsx`: the
    entered code (capped at six characters), the resend countdown that a
    one-second timer ticks down to zero, and the events it reports to the
    page that embeds it (verification complete, resend, cancel). The
    one-second timer itself is not modelled: each timer firing is a `Tick`. */
module Otp {

  const CodeLength := 6
  const ResendSeconds := 60
  const InvalidOtpKey := "auth.invalidOtp"

  datatype OtpState = OtpState(code: string, countdown: int)

  /** The panel as it is mounted: empty code, countdown at 60. */
  function Initial(): (s: OtpState)
    ensures s.code == "" && s.countdown == ResendSeconds
  {
    OtpState("", ResendSeconds)
  }

  /** What every state of a mounted panel satisfies. */
  ghost predicate Valid(s: OtpState)
  {
    0 <= s.countdown <= ResendSeconds && |s.code| <= CodeLength
  }

  /** The countdown effect: while above zero a timer fires and decrements it
      by one; at zero no timer is armed and nothing changes. */
  function Tick(s: OtpState): (r: OtpState)
    ensures s.countdown > 0 ==> r.countdown == s.countdown - 1
    ensures s.countdown <= 0 ==> r == s
    ensures r.code == s.code
    ensures Valid(s) ==> Valid(r)
  {
    if s.countdown > 0 then s.(countdown := s.countdown - 1) else s
  }

  function Ticks(s: OtpState, n: nat): OtpState
    decreases n
  {
    if n == 0 then s else Ticks(Tick(s), n - 1)
  }

  /** `n` ticks take a non-negative countdown to `max(countdown - n, 0)` and
      never touch the code. */
  lemma {:induction false} TicksCountdown(s: OtpState, n: nat)
    requires s.countdown >= 0
    ensures Ticks(s, n).countdown == if n >= s.countdown then 0 else s.countdown - n
    ensures Ticks(s, n).code == s.code
    decreases n
  {
    if n > 0 {
      TicksCountdown(Tick(s), n - 1);
    }
  }

  /** `disabled={countdown > 0}` on the resend button: disabled exactly
      while the timer still has ticks to fire. */
  function ResendDisabled(s: OtpState): (b: bool)
    ensures b <==> Tick(s) != s
  {
    s.countdown > 0
  }

  /** `disabled={otp.length !== 6}` on the verify button: disabled exactly
      when `handleVerify` would reject the code. */
  function VerifyDisabled(s: OtpState): (b: bool)
    ensures b <==> Verify(s).Rejected?
  {
    |s.code| != CodeLength
  }

  /** From a fresh panel, resend stays disabled for the first 59 ticks and is
      enabled exactly after the 60th, when the countdown is 0. */
  lemma ResendEnabledExactlyAfterSixtyTicks(k: nat)
    ensures !ResendDisabled(Ticks(Initial(), ResendSeconds)) && Ticks(Initial(), ResendSeconds).countdown == 0
    ensures k < ResendSeconds ==> ResendDisabled(Ticks(Initial(), k))
  {
    TicksCountdown(Initial(), ResendSeconds);
    TicksCountdown(Initial(), k);
  }

  /** The code input with `maxLength={6}`: the value typed, cut to its first
      six characters. */
  function EnterCode(s: OtpState, value: string): (r: OtpState)
    ensures |r.code| <= CodeLength
    ensures |value| <= CodeLength ==> r.code == value
    ensures |value| > CodeLength ==> r.code == value[..CodeLength]
    ensures r.countdown == s.countdown
  {
    var code := if |value| <= CodeLength then value else value[..CodeLength];
    s.(code := code)
  }

  datatype VerifyResult = Verified | Rejected(message: string)

  /** `handleVerify`: the code is accepted iff it has exactly six characters;
      otherwise the invalid-code toast is raised and nothing completes. */
  function Verify(s: OtpState): (r: VerifyResult)
    ensures r.Verified? <==> |s.code| == CodeLength
    ensures r.Rejected? ==> r.message == InvalidOtpKey
  {
    if |s.code| == CodeLength then Verified else Rejected(InvalidOtpKey)
  }

  /** The verify button is enabled exactly when pressing it would succeed. */
  lemma VerifyEnabledIffAccepted(s: OtpState)
    ensures !VerifyDisabled(s) <==> Verify(s).Verified?
  {
  }

  /** The state part of `handleResend`: the countdown restarts at 60 and the
      entered code is kept. */
  function Resend(s: OtpState): (r: OtpState)
    ensures r.countdown == ResendSeconds && r.code == s.code
    ensures Valid(s) ==> Valid(r)
  {
    s.(countdown := ResendSeconds)
  }

  /* ---------------- the panel as a component ---------------- */

  datatype OtpAction = TypeCode(value: string) | TimerTick | PressVerify | PressResend | PressCancel

  /** The callbacks the panel invokes on its parent, and the rejection toast. */
  datatype OtpEvent = NoEvent | VerificationComplete | ResendCode | CancelVerification | CodeRejected

  /** A user or timer action on the panel: the new panel state and the event
      it reports. `onVerificationComplete` fires iff verify is pressed on a
      six-character code; `onResendCode` fires on every resend press; the
      cancel link only reports `onCancel`. */
  function Step(s: OtpState, a: OtpAction): (r: (OtpState, OtpEvent))
    ensures r.1 == VerificationComplete <==> a == PressVerify && |s.code| == CodeLength
    ensures r.1 == CodeRejected <==> a == PressVerify && |s.code| != CodeLength
    ensures r.1 == ResendCode <==> a == PressResend
    ensures r.1 == CancelVerification <==> a == PressCancel
    ensures a == PressResend ==> r.0.code == s.code && r.0.countdown == ResendSeconds
    ensures a.TypeCode? ==> r.0 == EnterCode(s, a.value)
    ensures a == TimerTick ==> r.0 == Tick(s)
    ensures a == PressVerify || a == PressCancel ==> r.0 == s
    ensures a.TypeCode? ==> r.0.countdown == s.countdown
    ensures Valid(s) ==> Valid(r.0)
  {
    match a
    case TypeCode(value) => (EnterCode(s, value), NoEvent)
    case TimerTick => (Tick(s), NoEvent)
    case PressVerify =>
      (s, if Verify(s).Verified? then VerificationComplete else CodeRejected)
    case PressResend => (Resend(s), ResendCode)
    case PressCancel => (s, CancelVerification)
  }
}

/** The booking wizard of `src/pages/Booking.tsx`: a draft that moves through
    four steps (date and time, patient information, payment, confirmation),
    the handlers that edit it, the guards on "Next", one-step "Back", the
    available-slot queries and the price shown to the patient. */
module Booking {
  import opened Common
  import opened Types
  import opened Resolver

  datatype Step = DateStep | InfoStep | PaymentStep | ConfirmationStep

  datatype PatientInfo = PatientInfo(name: string, email: string, phone: string, symptoms: string, notes: string)

  /** The `name` attribute of the five patient inputs. */
  datatype PatientField = NameField | EmailField | PhoneField | SymptomsField | NotesField

  /** The wizard state. An unset date or time is the empty string, as in the source. */
  datatype Draft = Draft(step: Step, date: string, time: string, kind: AppointmentType, patient: PatientInfo)

  const MissingInformation := "Missing information"
  const MissingDateTime := "Please select both date and time for your appointment."
  const MissingFields := "Please fill out all required fields."
  const DashboardPath := "/dashboard"
  const SearchPath := "/search"

  /** The flat platform fee added to video consultations. */
  const PlatformFee := 5

  /** The state a freshly mounted wizard starts from. */
  function Initial(): (d: Draft)
    ensures d.step == DateStep && d.date == "" && d.time == ""
    ensures d.kind == InPerson
    ensures d.patient.name == "" && d.patient.email == "" && d.patient.phone == ""
    ensures d.patient.symptoms == "" && d.patient.notes == ""
  {
    Draft(DateStep, "", "", InPerson, PatientInfo("", "", "", "", ""))
  }

  /* ---------------- handlers ---------------- */

  /** `handleDateSelect`: sets the date and always clears the time. */
  function SelectDate(d: Draft, date: string): (r: Draft)
    ensures r.date == date && r.time == ""
    ensures r.step == d.step && r.kind == d.kind && r.patient == d.patient
  {
    d.(date := date, time := "")
  }

  /** `handleTimeSelect`: sets the time and nothing else. */
  function SelectTime(d: Draft, time: string): (r: Draft)
    ensures r.time == time
    ensures r.step == d.step && r.date == d.date && r.kind == d.kind && r.patient == d.patient
  {
    d.(time := time)
  }

  /** `handleAppointmentTypeSelect`: sets the appointment type and nothing else. */
  function SelectType(d: Draft, kind: AppointmentType): (r: Draft)
    ensures r.kind == kind
    ensures r.step == d.step && r.date == d.date && r.time == d.time && r.patient == d.patient
  {
    d.(kind := kind)
  }

  function FieldValue(p: PatientInfo, f: PatientField): string
  {
    match f
    case NameField => p.name
    case EmailField => p.email
    case PhoneField => p.phone
    case SymptomsField => p.symptoms
    case NotesField => p.notes
  }

  /** `setPatientInfo(prev => ({ ...prev, [name]: value }))`. */
  function SetField(p: PatientInfo, f: PatientField, value: string): (r: PatientInfo)
    ensures FieldValue(r, f) == value
    ensures forall g :: g != f ==> FieldValue(r, g) == FieldValue(p, g)
  {
    match f
    case NameField => p.(name := value)
    case EmailField => p.(email := value)
    case PhoneField => p.(phone := value)
    case SymptomsField => p.(symptoms := value)
    case NotesField => p.(notes := value)
  }

  /** `handleInputChange`: edits one patient field and nothing else. */
  function EditPatient(d: Draft, f: PatientField, value: string): (r: Draft)
    ensures FieldValue(r.patient, f) == value
    ensures forall g :: g != f ==> FieldValue(r.patient, g) == FieldValue(d.patient, g)
    ensures r.step == d.step && r.date == d.date && r.time == d.time && r.kind == d.kind
  {
    d.(patient := SetField(d.patient, f, value))
  }

  predicate HasDateAndTime(d: Draft)
  {
    d.date != "" && d.time != ""
  }

  /** The three required patient fields; symptoms and notes are never checked. */
  predicate HasRequiredPatientInfo(p: PatientInfo)
  {
    p.name != "" && p.email != "" && p.phone != ""
  }

  /** `handleNextStep`. Only the step can change; a failed guard keeps the
      draft and raises the "Missing information" toast; from the
      confirmation step it only asks to navigate to the dashboard. */
  function Next(d: Draft): (r: (Draft, Outcome))
    ensures r.0 == d.(step := r.0.step)
    ensures d.step == DateStep ==>
              if HasDateAndTime(d) then r == (d.(step := InfoStep), Ok)
              else r == (d, Blocked(MissingInformation, MissingDateTime))
    ensures d.step == InfoStep ==>
              if HasRequiredPatientInfo(d.patient) then r == (d.(step := PaymentStep), Ok)
              else r == (d, Blocked(MissingInformation, MissingFields))
    ensures d.step == PaymentStep ==> r == (d.(step := ConfirmationStep), Ok)
    ensures d.step == ConfirmationStep ==> r == (d, Navigate(DashboardPath))
  {
    match d.step
    case DateStep =>
      if d.date == "" || d.time == "" then (d, Blocked(MissingInformation, MissingDateTime))
      else (d.(step := InfoStep), Ok)
    case InfoStep =>
      if d.patient.name == "" || d.patient.email == "" || d.patient.phone == "" then
        (d, Blocked(MissingInformation, MissingFields))
      else (d.(step := PaymentStep), Ok)
    case PaymentStep => (d.(step := ConfirmationStep), Ok)
    case ConfirmationStep => (d, Navigate(DashboardPath))
  }

  /** `handlePrevStep`: one step back from information or payment, a no-op
      elsewhere; selections and patient data are never touched. */
  function Back(d: Draft): (r: Draft)
    ensures r.date == d.date && r.time == d.time && r.kind == d.kind && r.patient == d.patient
    ensures d.step == InfoStep ==> r.step == DateStep
    ensures d.step == PaymentStep ==> r.step == InfoStep
    ensures d.step == DateStep || d.step == ConfirmationStep ==> r == d
  {
    match d.step
    case InfoStep => d.(step := DateStep)
    case PaymentStep => d.(step := InfoStep)
    case _ => d
  }

  /** Going forward from the date step and straight back restores the draft. */
  lemma NextThenBack(d: Draft)
    requires d.step == DateStep && HasDateAndTime(d)
    ensures Back(Next(d).0) == d
  {
  }

  /* ---------------- availability queries ---------------- */

  /** `getAvailableTimes`: nothing while no date is chosen, otherwise the
      doctor's slots for that date, and the empty list for an unknown date. */
  function AvailableTimes(av: Availability, d: Draft): (r: seq<string>)
    ensures d.date == "" ==> r == []
    ensures d.date != "" && d.date !in Days(av) ==> r == []
    ensures d.date != "" && DistinctDays(av) ==>
              forall i :: 0 <= i < |av| && av[i].0 == d.date ==> r == av[i].1
  {
    if d.date == "" then [] else TimesFor(av, d.date)
  }

  /* ---------------- pricing ---------------- */

  /** The price breakdown the payment step and the summary list: the
      consultation fee, and the platform fee for video only. */
  function FeeLines(fee: int, kind: AppointmentType): seq<(string, int)>
  {
    [("Consultation Fee", fee)] + (if kind == Video then [("Platform Fee", PlatformFee)] else [])
  }

  function SumAmounts(lines: seq<(string, int)>): int
  {
    if |lines| == 0 then 0 else lines[0].1 + SumAmounts(lines[1..])
  }

  /** `appointmentType === 'video' ? doctor.consultationFee + 5 : doctor.consultationFee`,
      the one expression behind the payment total, the confirmation's paid
      amount and the summary total. It is the sum of the displayed lines. */
  function Total(fee: int, kind: AppointmentType): (r: int)
    ensures r == SumAmounts(FeeLines(fee, kind))
    ensures r >= fee
  {
    var lines := FeeLines(fee, kind);
    if kind == Video then
      assert lines == [("Consultation Fee", fee), ("Platform Fee", PlatformFee)];
      assert lines[1..][1..] == [];
      assert SumAmounts(lines[1..]) == PlatformFee;
      fee + PlatformFee
    else
      assert lines == [("Consultation Fee", fee)];
      assert lines[1..] == [];
      fee
  }

  /** The pricing rule per appointment type. */
  lemma PricingRule(fee: int)
    ensures Total(fee, Video) == fee + 5
    ensures Total(fee, InPerson) == fee
    ensures Total(fee, Phone) == fee
  {
  }

  /* ---------------- the page and its reachable states ---------------- */

  /** The user actions the page offers. */
  datatype Action =
    | ChooseDate(date: string)
    | ChooseTime(time: string)
    | ChooseType(kind: AppointmentType)
    | Edit(field: PatientField, value: string)
    | PressNext
    | PressBack

  /** Which controls are rendered: the day, slot and type pickers only in the
      date step (slots only once a day is chosen, from that day's list), the
      patient inputs only in the information step, and "Back" only in the
      information and payment steps. */
  predicate Enabled(av: Availability, d: Draft, a: Action)
  {
    match a
    case ChooseDate(date) => d.step == DateStep && date in Days(av)
    case ChooseTime(time) => d.step == DateStep && d.date != "" && time in AvailableTimes(av, d)
    case ChooseType(_) => d.step == DateStep
    case Edit(_, _) => d.step == InfoStep
    case PressNext => true
    case PressBack => d.step == InfoStep || d.step == PaymentStep
  }

  function Apply(d: Draft, a: Action): (r: (Draft, Outcome))
  {
    match a
    case ChooseDate(date) => (SelectDate(d, date), Ok)
    case ChooseTime(time) => (SelectTime(d, time), Ok)
    case ChooseType(kind) => (SelectType(d, kind), Ok)
    case Edit(f, v) => (EditPatient(d, f, v), Ok)
    case PressNext => Next(d)
    case PressBack => (Back(d), Ok)
  }

  function Run(d: Draft, trace: seq<Action>): Draft
    decreases |trace|
  {
    if |trace| == 0 then d else Run(Apply(d, trace[0]).0, trace[1..])
  }

  /** Every action of `trace` is offered by the page when it is taken. */
  ghost predicate EnabledTrace(av: Availability, d: Draft, trace: seq<Action>)
    decreases |trace|
  {
    |trace| == 0 || (Enabled(av, d, trace[0]) && EnabledTrace(av, Apply(d, trace[0]).0, trace[1..]))
  }

  /** The invariant of every state the page can reach. */
  ghost predicate Inv(av: Availability, d: Draft)
  {
    && (d.step != DateStep ==> HasDateAndTime(d))
    && (d.step == PaymentStep || d.step == ConfirmationStep ==> HasRequiredPatientInfo(d.patient))
    && (d.date != "" ==> d.date in Days(av))
    && (d.time != "" ==> d.date != "" && d.time in AvailableTimes(av, d))
  }

  lemma InvStep(av: Availability, d: Draft, a: Action)
    requires Inv(av, d) && Enabled(av, d, a)
    ensures Inv(av, Apply(d, a).0)
  {
  }

  /** Reachable-state invariant: from the initial draft, along any sequence of
      offered actions, every step after the first has a date and a time (a
      day the doctor offers and one of its slots), and payment and
      confirmation have name, email and phone. */
  lemma {:induction false} ReachableInvariant(av: Availability, trace: seq<Action>)
    requires EnabledTrace(av, Initial(), trace)
    ensures Inv(av, Run(Initial(), trace))
  {
    InvAlongTrace(av, Initial(), trace);
  }

  lemma {:induction false} InvAlongTrace(av: Availability, d: Draft, trace: seq<Action>)
    requires Inv(av, d) && EnabledTrace(av, d, trace)
    ensures Inv(av, Run(d, trace))
    decreases |trace|
  {
    if |trace| > 0 {
      InvStep(av, d, trace[0]);
      InvAlongTrace(av, Apply(d, trace[0]).0, trace[1..]);
    }
  }

  /** The booking page: the doctor lookup either fails, showing "Doctor Not
      Found" with no draft, or starts the wizard on the initial draft. */
  datatype Page = DoctorNotFound | Wizard(doctor: Doctor, draft: Draft)

  function Open(doctors: seq<Doctor>, doctorId: string): (p: Page)
    ensures p.DoctorNotFound? <==> forall i :: 0 <= i < |doctors| ==> doctors[i].id != doctorId
    ensures p.Wizard? ==> p.doctor in doctors && p.doctor.id == doctorId && p.draft == Initial()
    ensures p.Wizard? ==> FindDoctor(doctors, doctorId) == Some(p.doctor)
    ensures p.Wizard? ==> exists k :: 0 <= k < |doctors| && doctors[k] == p.doctor
                                      && forall j :: 0 <= j < k ==> doctors[j].id != doctorId
  {
    match FindDoctor(doctors, doctorId)
    case Some(doctor) => Wizard(doctor, Initial())
    case None => DoctorNotFound
  }
}

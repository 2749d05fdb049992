# vitacare booking core in Dafny

vitacare is a web application for finding doctors and booking
consultations. Under its presentation layer sit a few pieces of
deterministic logic. This project models them as immutable datatypes and
pure transition functions:

- **Booking wizard** (`Booking`). A draft moves through the steps date and
  time, patient information, payment, and confirmation. It has guarded
  "Next", one-step "Back", and the rule that choosing a day clears the
  time. It also covers the slot queries over a doctor's weekly
  availability and the price: video adds a flat 5.
- **One-time-code panel** (`Otp`). It covers:
  - the six-character code input;
  - the resend countdown that a timer ticks from 60 down to 0;
  - the events the panel reports to its parent page.
- **Account pages**:
  - `PasswordRecovery`: the request, verify and reset stages with go-back.
  - `Register`: separate e-mail and phone drafts and the code-verification
    mode.
  - Their form schemas, built from the rules shared in `Common`.
- **Doctor search**:
  - `Search`: the three-stage filter pipeline.
  - `SearchFilters`: the filter bar. This covers field edits, the
    appointment-type check boxes, "Clear All", the chips with their remove
    buttons, and the availability chip label.
- **Doctor profile page** (`DoctorProfile`). It covers the lookup, the
  date buttons, the slot panel and the "days a week" count.
- **Dashboard** (`Dashboard`). It covers the status tab filter, the
  appointment cards, and the per-tab empty-state message.
- **Patient profile form** (`PatientProfile`). It covers the allergy,
  condition and medication lists, the profile schema, and the
  `UserProfile` record built on submit.

Shared pieces:

- `Types` holds the records of `src/types/index.ts`.
- `Resolver` holds the availability lookup and the directory lookup.
- `Text` holds the string primitives: ASCII case mapping, ECMAScript
  `trim`, `includes`, first-occurrence `replace`, and the word-start regular
  expression.
- `Seqs` holds `filter` and the order-preserving subsequence relation.

`Scenarios` states concrete consequences of the model for the first doctor of `src/data/doctors.ts` and
on the dashboard's sample appointments.

Conventions:

- Every action returns its new state together with an `Outcome`:
  - `Ok`;
  - `Blocked`, a destructive toast raised by a guard;
  - `Invalid`, a schema's error list;
  - `Navigate`, a router request.
- Which controls the page renders in which state is stated as an `Enabled`
  predicate. For the booking wizard, the recovery page and the filter bar,
  an invariant is proved for every state reachable from the initial one by
  enabled actions.
- Ratings are integer tenths of a star: 4.9 is 49.
- A doctor's availability is a sequence of (day, times) pairs, so that the
  key order of the source's object is kept.
- The rating select delivers the strings "0", "3", "4" and "4.5". The
  source compares them with numbers through JavaScript's numeric
  coercion, so the model stores the number they denote (0, 30, 40, 45).

## Model

| member | source | states |
|---|---|---|
| Common.PasswordLengthErrors | src/pages/PasswordRecovery.tsx:37-39 | A password is rejected, on the `password` field, exactly when it has fewer than 8 characters. |
| Common.ConfirmationErrors | src/pages/Register.tsx:39-42 | The confirmation is rejected exactly when it differs from the password, and the error is attached to `confirmPassword`. |
| Text.ToLower | src/pages/Search.tsx:30 | Lowercasing keeps the length and maps every character through ASCII lowercasing. |
| Text.ContainsIffOccurs | src/pages/Search.tsx:33-36 | `includes` answers true exactly when the needle occurs at some index of the haystack. |
| Text.TrimIsSlice | src/components/profile/PatientProfileForm.tsx:120-121 | `trim` returns a contiguous slice of its input. Only whitespace is removed around it, and no whitespace is left at either end. |
| Text.Trim | src/components/profile/PatientProfileForm.tsx:120-121 | `trim` never lengthens its input, and a non-empty result starts and ends with a non-whitespace character. |
| Text.TrimEmptyIff | src/components/profile/PatientProfileForm.tsx:120 | `item.trim()` is empty exactly when the item is all whitespace. |
| Text.ReplaceFirst | src/components/search/SearchFilters.tsx:218 | Replacing a one-character string pattern changes only its first occurrence. Without an occurrence the string is unchanged. |
| Text.CapitalizeWords | src/components/search/SearchFilters.tsx:218 | The `/\b\w/g` upper-casing changes exactly the word characters not preceded by a word character, and keeps the length. |
| Seqs.Filter | src/pages/Dashboard.tsx:64 | `filter` keeps, in their original order, exactly the elements satisfying the predicate. |
| Seqs.FilterFilter | src/pages/Search.tsx:26-52 | Filtering twice equals filtering once by the conjunction. |
| Seqs.FilterOutIndex | src/components/profile/PatientProfileForm.tsx:130 | Filtering on `i !== index` deletes exactly the element at `index` and keeps the rest in order. An index outside the list changes nothing. |
| Resolver.Days | src/pages/Booking.tsx:122-125 | The available dates are the day keys, in insertion order. |
| Resolver.Lookup | src/pages/Booking.tsx:118 | A day missing from the availability gives `undefined`. A present day gives the times of its first entry. |
| Resolver.TimesFor | src/pages/Booking.tsx:118 | `availability[day] \|\| []` gives the empty list for an unknown day and the stored times for a known one. It never fails. |
| Resolver.FindDoctor | src/pages/Booking.tsx:48 | `find` gives the first doctor with exactly the id, and nothing iff no doctor has it. |
| Booking.Initial | src/pages/Booking.tsx:31-42 | The wizard starts in the date step with no date or time, in-person type, and all five patient fields empty. |
| Booking.SelectDate | src/pages/Booking.tsx:55-58 | Choosing a day sets the date, always clears the time, and changes nothing else. |
| Booking.SelectTime | src/pages/Booking.tsx:61-63 | Choosing a slot sets the time only. |
| Booking.SelectType | src/pages/Booking.tsx:66-68 | Choosing the appointment type sets the type only. |
| Booking.EditPatient | src/pages/Booking.tsx:71-74 | Typing into a patient input changes that one field. Every other field and the rest of the draft are kept. |
| Booking.Next | src/pages/Booking.tsx:77-104 | The guards of each step:<br>- date moves to info iff date and time are set;<br>- info moves to payment iff name, email and phone are set, and symptoms and notes are never checked;<br>- a failed guard keeps the draft and raises the matching "Missing information" toast;<br>- payment always reaches confirmation;<br>- confirmation only requests `/dashboard`.<br>Only the step ever changes. |
| Booking.Back | src/pages/Booking.tsx:107-113 | Back moves info to date and payment to info, is a no-op in date and confirmation, and never touches date, time, type or patient data. |
| Booking.NextThenBack | src/pages/Booking.tsx:77-113 | From a complete date step, Next then Back returns exactly the original draft. |
| Booking.AvailableTimes | src/pages/Booking.tsx:116-119 | There are no slots while no date is chosen or for a day the doctor lacks. Otherwise the slots are that day's stored times. |
| Booking.Total | src/pages/Booking.tsx:430 | The total is the sum of the displayed fee lines and never less than the fee. The same expression is used at lines 574 and 688. |
| Booking.PricingRule | src/pages/Booking.tsx:428-431 | Video costs the fee plus 5. In-person and phone cost the fee. |
| Booking.ReachableInvariant | src/pages/Booking.tsx:31-125 | Along any sequence of actions the page offers (pickers only in the date step, inputs only in the info step, Back only in info and payment):<br>- every step past date has a date the doctor offers and one of its slots;<br>- payment and confirmation have name, email and phone. |
| Booking.Open | src/pages/Booking.tsx:44-52 | The page shows "Doctor Not Found" iff no doctor has the id. Otherwise it starts the wizard from the initial draft on the first doctor in the list with that id. |
| Otp.Initial | src/components/auth/OTPVerification.tsx:27-28 | The panel mounts with an empty code and the countdown at 60. |
| Otp.Tick | src/components/auth/OTPVerification.tsx:31-36 | A tick decrements a positive countdown by exactly one and does nothing at zero. It keeps the code and the panel's bounds. |
| Otp.TicksCountdown | src/components/auth/OTPVerification.tsx:31-36 | After `n` ticks the countdown is `max(countdown - n, 0)`, so it never goes negative, and the code is untouched. |
| Otp.ResendEnabledExactlyAfterSixtyTicks | src/components/auth/OTPVerification.tsx:95-97 | From a fresh panel, resend stays disabled for 59 ticks and is enabled after the 60th, when the countdown is 0. |
| Otp.EnterCode | src/components/auth/OTPVerification.tsx:66 | The code input holds at most six characters: the first six of what was typed. |
| Otp.Verify | src/components/auth/OTPVerification.tsx:38-47 | Verification succeeds iff the code has exactly six characters. Otherwise the invalid-code message is raised. |
| Otp.VerifyEnabledIffAccepted | src/components/auth/OTPVerification.tsx:79-85 | The verify button is enabled exactly when pressing it succeeds. |
| Otp.VerifyDisabled | src/components/auth/OTPVerification.tsx:82 | The verify button is disabled exactly when `handleVerify` would reject the code. |
| Otp.ResendDisabled | src/components/auth/OTPVerification.tsx:97-105 | The resend button is disabled exactly while the countdown timer still has ticks to fire. |
| Otp.Resend | src/components/auth/OTPVerification.tsx:49-53 | Resend restarts the countdown at 60 and keeps the entered code. |
| Otp.Step | src/components/auth/OTPVerification.tsx:38-97 | The panel reports:<br>- completion iff verify is pressed on a six-character code;<br>- a rejection iff verify is pressed on any other code;<br>- `onResendCode` iff resend is pressed;<br>- `onCancel` iff cancel is pressed.<br>Typing stores the code cut to six characters, a timer firing ticks the countdown, resend restarts it, and verify and cancel leave the panel as it is. Every action keeps the panel's bounds. |
| PasswordRecovery.Initial | src/pages/PasswordRecovery.tsx:26-27 | The page starts in the request stage with no stored contact. |
| PasswordRecovery.RequestErrors | src/pages/PasswordRecovery.tsx:31-33 | The request form is valid iff the contact is non-empty. |
| PasswordRecovery.ResetErrors | src/pages/PasswordRecovery.tsx:36-44 | A new password is accepted iff it has at least 8 characters and the confirmation equals it. Each failure is reported on its own field. |
| PasswordRecovery.SubmitRequest | src/pages/PasswordRecovery.tsx:64-68 | A non-empty contact is stored and the page moves to verify with a fresh code panel. An empty one is rejected and nothing changes. |
| PasswordRecovery.VerificationComplete | src/pages/PasswordRecovery.tsx:80-82 | Completion moves to the reset stage and keeps the contact. |
| PasswordRecovery.GoBack | src/pages/PasswordRecovery.tsx:89-95 | Go-back maps verify to request and reset to verify. It is a no-op in request and never touches the contact. |
| PasswordRecovery.SubmitReset | src/pages/PasswordRecovery.tsx:70-78 | A valid new password requests `/login`. An invalid one reports the schema errors. |
| PasswordRecovery.HandleOtp | src/pages/PasswordRecovery.tsx:97-108 | On the panel in the verify stage:<br>- the page reaches reset iff verify is pressed on a six-character code;<br>- cancel goes back to request;<br>- resend keeps the stage and the contact and restarts the countdown;<br>- typing, a timer firing, resend and a rejected verify stay in the verify stage, a rejected verify raises the invalid-code toast, and the panel moves as on its own. |
| PasswordRecovery.ReachableInvariant | src/pages/PasswordRecovery.tsx:26-108 | Every reachable state past the request stage holds a non-empty contact, and the code panel stays within its bounds. |
| PasswordRecovery.ResetOnlyFromVerify | src/pages/PasswordRecovery.tsx:80-82 | The reset stage is entered only from verify, by pressing verify on a six-character code. |
| Register.Initial | src/pages/Register.tsx:25-79 | The page starts on the e-mail tab, out of code mode, with both drafts empty and terms unaccepted. |
| Register.TermsErrors | src/pages/Register.tsx:36-38 | The terms rule fails iff the box is unchecked. |
| Register.EmailErrors | src/pages/Register.tsx:30-42 | The e-mail form is valid iff the address is valid, the password has at least 8 characters, the terms are accepted and the confirmation matches. Each failure is reported on its own field. |
| Register.PhoneErrors | src/pages/Register.tsx:44-56 | The phone form is valid iff the phone has at least 8 characters, the password has at least 8, the terms are accepted and the confirmation matches. Each failure is reported on its own field. |
| Register.SwitchMethod | src/pages/Register.tsx:138 | Switching tabs resets neither draft. |
| Register.EditEmailDraft | src/pages/Register.tsx:61-69 | Editing the e-mail form leaves the phone draft, the shown tab, code mode, the stored contact and the code panel alone. |
| Register.EditPhoneDraft | src/pages/Register.tsx:71-79 | Editing the phone form leaves the e-mail draft, the shown tab, code mode, the stored contact and the code panel alone. |
| Register.SubmitEmail | src/pages/Register.tsx:81-86 | A valid e-mail form sets the verification contact to exactly the e-mail and enters code mode. An invalid one shows the errors and changes nothing. |
| Register.SubmitPhone | src/pages/Register.tsx:88-93 | A valid phone form sets the verification contact to exactly the phone and enters code mode. An invalid one shows the errors and changes nothing. |
| Register.CancelVerification | src/pages/Register.tsx:111-138 | Cancel leaves code mode and keeps the drafts and the contact. The tabs are mounted afresh, so the e-mail tab shows. |
| Register.CompleteVerification | src/pages/Register.tsx:95-138 | Completion leaves code mode, shows the e-mail tab again and requests `/create-profile`. |
| Register.HandleOtp | src/pages/Register.tsx:95-127 | In code mode, both cancel and completion leave code mode. `/create-profile` is requested iff verify is pressed on a six-character code. Typing, a timer firing, resend and a rejected verify stay in code mode on the same tab, a rejected verify raises the invalid-code toast, and the panel moves as on its own. |
| Register.ReachableInvariant | src/pages/Register.tsx:61-138 | After any sequence of enabled user actions from the opening state, code mode shows the contact of the form last submitted, which was valid and is on the shown tab. The code panel stays well formed. |
| Search.SearchIsSingleFilter | src/pages/Search.tsx:26-52 | The three successive filters equal one filter by the conjunction of the active conditions. |
| Search.HandleSearch | src/pages/Search.tsx:26-52 | The search returns at most the whole directory, only directory doctors, and only doctors at or above an active rating threshold. |
| Search.SearchResult | src/pages/Search.tsx:26-54 | The result is an order-preserving subsequence of all doctors. It holds every doctor that all active filters accept, and only such doctors. |
| Search.EmptyFiltersKeepAll | src/pages/Search.tsx:26-52 | With no query, no specialty and rating 0, the result is every doctor, in order. |
| Search.IgnoredFilters | src/pages/Search.tsx:14-52 | The availability and appointment-type fields never change the result. |
| Search.QueryFilterMeaning | src/pages/Search.tsx:29-38 | A non-empty query keeps a doctor iff the lowercased query occurs in the lowercased name, specialty, city or country. |
| SearchFilters.Initial | src/components/search/SearchFilters.tsx:17-23 | The bar starts with empty text fields, all three appointment types and rating 0. |
| SearchFilters.HandleClear | src/components/search/SearchFilters.tsx:49-57 | "Clear All" returns the bar to its initial record, whatever it held. |
| SearchFilters.HandleInputChange | src/components/search/SearchFilters.tsx:27-30 | The named field takes the new value and every other field is kept. |
| SearchFilters.HandleCheckboxChange | src/components/search/SearchFilters.tsx:32-42 | Checking appends the type at the end. Unchecking removes every copy of the type and keeps the other types in order, each as often as before. Nothing else changes. |
| SearchFilters.ChipRowIffSomeChip | src/components/search/SearchFilters.tsx:202-228 | The chip row is shown exactly when at least one chip is. |
| SearchFilters.RemoveChip | src/components/search/SearchFilters.tsx:202-236 | A chip's remove button resets only its own filter: specialty and availability to the empty string, rating to 0. That chip is hidden, and every other filter keeps its value, so the other chips stay as they were. |
| SearchFilters.ClearResetsSearch | src/components/search/SearchFilters.tsx:49-57 | After "Clear All" no chip is shown, and searching returns the whole directory. |
| SearchFilters.RemovingAllChipsLeavesQuery | src/components/search/SearchFilters.tsx:202-236 | With every chip removed only the text query still filters. |
| SearchFilters.AvailabilityLabel | src/components/search/SearchFilters.tsx:218 | The chip text has the option's length, equals the option with its first hyphen turned into a space up to case, and upper-cases exactly the word starts. |
| SearchFilters.TodayLabel | src/components/search/SearchFilters.tsx:122 | The chip of "today" reads "Today", the option's own text. |
| SearchFilters.TomorrowLabel | src/components/search/SearchFilters.tsx:123 | The chip of "tomorrow" reads "Tomorrow". |
| SearchFilters.ThisWeekLabel | src/components/search/SearchFilters.tsx:124 | The chip of "this-week" reads "This Week". |
| SearchFilters.NextWeekLabel | src/components/search/SearchFilters.tsx:125 | The chip of "next-week" reads "Next Week". |
| SearchFilters.ReachableInvariant | src/components/search/SearchFilters.tsx:32-42 | Whatever the user does on the bar, the type list holds each of the three types at most once, and the rating is one of the select's options. |
| DoctorProfile.Open | src/pages/DoctorProfile.tsx:28-36 | The page is not-found iff no doctor has the id. Otherwise it shows the first doctor in the list with that id, with no date and no slots. |
| DoctorProfile.AvailableDates | src/pages/DoctorProfile.tsx:50-53 | The date buttons are the day keys in insertion order, and there are none without a doctor. |
| DoctorProfile.SelectDate | src/pages/DoctorProfile.tsx:39-47 | A date button selects its date and shows that day's stored times, or none for a day without an entry. The doctor is kept. |
| DoctorProfile.DaysCount | src/pages/DoctorProfile.tsx:185 | "N days a week" counts the availability keys. |
| DoctorProfile.DaysCountIsNumberOfDays | src/pages/DoctorProfile.tsx:185 | With distinct day keys the count equals the number of different days. |
| DoctorProfile.Panel | src/pages/DoctorProfile.tsx:346-363 | The slot area shows:<br>- the prompt iff no date is selected;<br>- "No available slots" iff a date is selected and has no times;<br>- the times otherwise. |
| DoctorProfile.DateButtonShowsItsDay | src/pages/DoctorProfile.tsx:326-363 | Pressing a listed day's button shows exactly that day's times, or the no-slots note when it has none. |
| DoctorProfile.BookLinkOpensSameDoctor | src/pages/DoctorProfile.tsx:366-367 | "Book Appointment" opens the booking wizard on the very doctor the profile shows, at its first step. |
| Dashboard.Filtered | src/pages/Dashboard.tsx:62-64 | The all tab shows every appointment. A status tab shows exactly the appointments with that status, in order. |
| Dashboard.InitialTab | src/pages/Dashboard.tsx:58 | The page opens on the all tab. |
| Dashboard.InitialTabShowsAll | src/pages/Dashboard.tsx:58-64 | The page opens showing every appointment, in order. |
| Dashboard.StatusTabsPartition | src/pages/Dashboard.tsx:61-64 | The three status tabs together hold every appointment exactly once. |
| Dashboard.Cards | src/pages/Dashboard.tsx:237-248 | The cards are, one for one and in order, the appointments whose `doctorId` the directory resolves. Each card carries the doctor the directory finds for that id. |
| Dashboard.CardsCoverResolvable | src/pages/Dashboard.tsx:237-248 | Each card pairs an appointment with a directory doctor of its `doctorId`. Every resolvable appointment gets its card, and an appointment whose doctor is missing renders nothing. When every appointment resolves there is one card per appointment. |
| Dashboard.EmptyMessagesDistinct | src/pages/Dashboard.tsx:257-263 | Each tab has its own empty-state message. |
| Dashboard.Render | src/pages/Dashboard.tsx:235-263 | The empty state, with the tab's message, is shown iff the tab has no appointments. Otherwise the card grid is shown. |
| Dashboard.UnresolvedTabShowsEmptyGrid | src/pages/Dashboard.tsx:235-248 | A tab whose appointments all lack a doctor shows an empty grid, not the empty state. |
| PatientProfile.ParseBloodType | src/components/profile/PatientProfileForm.tsx:61 | The enum accepts exactly the eight labels, and each accepted label names the type it parses to. Any other string is rejected. |
| PatientProfile.BloodTypeRoundTrip | src/components/profile/PatientProfileForm.tsx:41 | Every option of the blood-type select parses back to its own type. |
| PatientProfile.ParseGender | src/components/profile/PatientProfileForm.tsx:58-60 | The enum accepts exactly male, female and other, and rejects any other string. |
| PatientProfile.GenderRoundTrip | src/components/profile/PatientProfileForm.tsx:214-216 | Every option of the gender select parses back to its own gender. |
| PatientProfile.AddItem | src/components/profile/PatientProfileForm.tsx:115-124 | A non-blank input is appended trimmed and the input is cleared. A blank one changes neither. |
| PatientProfile.RemoveItem | src/components/profile/PatientProfileForm.tsx:126-131 | Remove deletes exactly the entry at the index and keeps the rest in order. |
| PatientProfile.RemoveUndoesAdd | src/components/profile/PatientProfileForm.tsx:115-131 | Removing the entry just added restores the list. |
| PatientProfile.EditsKeepClean | src/components/profile/PatientProfileForm.tsx:115-131 | Along any sequence of add and remove presses, every entry stays non-empty with no whitespace at either end. |
| PatientProfile.DefaultValues | src/components/profile/PatientProfileForm.tsx:76-79 | The form mounts with an empty name, gender male, and no date or blood type. |
| PatientProfile.ProfileErrors | src/components/profile/PatientProfileForm.tsx:53-70 | The form is valid iff the name is non-empty and a date of birth and a gender are given. Each missing one is reported on its own field. |
| PatientProfile.DefaultFormNeedsNameAndDate | src/components/profile/PatientProfileForm.tsx:53-79 | The untouched form is rejected for its name and date of birth, and not for gender. |
| PatientProfile.ListField | src/components/profile/PatientProfileForm.tsx:89-91 | A list enters the profile iff it has entries, and then unchanged. |
| PatientProfile.BuildProfile | src/components/profile/PatientProfileForm.tsx:82-104 | The profile contents:<br>- the lists are absent iff empty;<br>- the emergency contact is present iff name and phone are both given;<br>- the address is present iff any of its five fields is;<br>- present records carry the typed values. |
| PatientProfile.Submit | src/components/profile/PatientProfileForm.tsx:82-112 | A valid form yields the profile built from the form values and the three lists, and requests `/dashboard`. An invalid one yields no profile and the schema errors. |
| PatientProfile.ProfileReadsBack | src/components/profile/PatientProfileForm.tsx:84-104 | Reading the profile back gives the form's three lists and its address fields. Nothing typed is lost. |
| Scenarios.BookingHappyPath | src/pages/Booking.tsx:77-104 | For doctor 1, the path Monday 10:00, then patient details, then payment (150), then confirmation, ends with a request for `/dashboard`. |
| Scenarios.VideoCostsMore | src/pages/Booking.tsx:430 | A video consultation with doctor 1 costs 155. |
| Scenarios.TimeRequired | src/pages/Booking.tsx:78-86 | A date without a time is blocked with the date-and-time message. |
| Scenarios.NewDateClearsTime | src/pages/Booking.tsx:55-58 | Picking another day after a time discards the time. |
| Scenarios.UnknownDoctor | src/pages/Booking.tsx:142-152 | An unknown id gives the not-found page on the booking and profile pages. |
| Scenarios.ShortCodeRejected | src/components/auth/OTPVerification.tsx:38-47 | A five-digit code is rejected and a six-digit one completes. |
| Scenarios.FridaySlots | src/pages/DoctorProfile.tsx:39-47 | Doctor 1's Friday button lists 09:00, 10:00 and 11:00, and the doctor has 5 days a week. |
| Scenarios.SearchByCity | src/pages/Search.tsx:29-52 | "bos" with a 4.5-star minimum finds doctor 1 by city. A Dermatology filter drops the doctor. |
| Scenarios.SampleUpcoming | src/pages/Dashboard.tsx:20-64 | On the sample data the all tab shows all four appointments and the upcoming tab the first two. |
| Scenarios.SampleUpcomingCards | src/pages/Dashboard.tsx:235-248 | With only doctor 1 in the directory, the upcoming tab renders one card. The doctor-3 appointment renders nothing. |

## Left out

- Timers and delays: the one-second countdown timer is an explicit `Otp.Tick`. The simulated 500 ms lookups and the 1.5 s delays before navigating are not modelled. `Open` on each page is the state after the lookup has run, and the loading placeholders are absent.
- Rendering, toasts and logging: JSX is left out, and so are success toasts and `console.log`. A blocking toast or a router call is represented only by the returned `Outcome`.
- The schema library: `z.string().email()` is opaque. It is the parameter `isEmail` of `Register.EmailErrors` and `Register.SubmitEmail`. Only the rule outcomes are modelled, not the library's error-merging order.
- Dates: the calendar widget and the `yyyy-MM-dd` formatting of the date of birth are not modelled (the value arrives formatted), and neither is the date-range check against today. All of these need a calendar and a clock.
- Ratings: floating-point ratings are integer tenths, so the comparisons are exact. The rating chip's "N+ Stars" text is not modelled.
- Case mapping and lengths: `toLowerCase` and `toUpperCase` are ASCII only. Lengths count code points, not UTF-16 units.
- Object keys: `Object.keys` ordering of integer-like keys and lookups of inherited keys such as `constructor` are not modelled. Day labels are plain names.
- Booking.AvailableTimes: a day's exact stored times are promised only when no day label occurs twice (`DistinctDays`). A JavaScript object cannot hold a key twice, so this excludes no real availability. For repeated labels only the missing-day case is promised.
- Resolver.TimesFor: promises a day's exact stored times only under `DistinctDays`, for the same reason.
- DoctorProfile.SelectDate: promises a day's exact stored times only under `DistinctDays`, for the same reason.
- DoctorProfile.DateButtonShowsItsDay: requires `DistinctDays`, for the same reason.
- DoctorProfile.DaysCount: counts entries. It equals the number of different days only under `DistinctDays` (`DoctorProfile.DaysCountIsNumberOfDays`).
- The filter bar's `handleSubmit` hands its record to `onSearch` unchanged, so it has no member. The record the bar holds is the argument of `Search.HandleSearch`.
- Booking controls not modelled:
  - "Back to Profile" in the date step, which navigates away;
  - the doctor sidebar.
- Dashboard presentation not modelled: the sidebar toggle and the appointment card's date formatting.
- The profile page's quick-book button only raises a toast and is not modelled.
- Other pages: Login, Contact, language selection, settings, the landing pages, navigation bar and footer carry no logic beyond what is modelled here, or only do local storage and translation I/O.
- Password recovery has three stages: request, verify and reset.
- Cancelling verification keeps the stored contact.
- Confirming a booking only navigates; no booking record is created.
- Picking a time is restricted only by which slots are rendered, not by a check in the handler.
- Register's `method` state is written when a tab is chosen but never read, so it has no field. The shown tab is the `tab` field of `Register.RegisterState`.

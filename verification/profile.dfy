/** The patient profile form of `src/components/profile/PatientProfileForm.tsx`:
    the three free-text lists (allergies, chronic conditions, medications)
    with their add and remove buttons, the profile schema, and the
    `UserProfile` record built on submit. The calendar widget and the
    `yyyy-MM-dd` formatting of the chosen date are not modelled: the date
    of birth arrives already formatted, or is absent. An optional text field
    left undefined is the empty string, which the built record cannot tell
    apart (both are falsy and both become ""). */
module PatientProfile {
  import opened Common
  import opened Types
  import opened Text
  import opened Seqs

  const RequiredKey := "validation.required"
  const DashboardPath := "/dashboard"

  /** The blood-type select, in its display order. */
  const BloodTypeLabels: seq<string> := ["A+", "A-", "B+", "B-", "AB+", "AB-", "O+", "O-"]

  function BloodTypeLabel(b: BloodType): string
  {
    match b
    case APos => "A+"
    case ANeg => "A-"
    case BPos => "B+"
    case BNeg => "B-"
    case ABPos => "AB+"
    case ABNeg => "AB-"
    case OPos => "O+"
    case ONeg => "O-"
  }

  /** The enum rule of `bloodType` on a string the select delivers: the
      blood type the label names, or None when the enum rejects the string.
      An unchosen blood type is not a string at all; it is the `None` of
      `FormValues.bloodType`. */
  function ParseBloodType(s: string): (r: Option<BloodType>)
    ensures r.Some? ==> BloodTypeLabel(r.value) == s
    ensures r.None? <==> s !in BloodTypeLabels
  {
    if s == "A+" then Some(APos)
    else if s == "A-" then Some(ANeg)
    else if s == "B+" then Some(BPos)
    else if s == "B-" then Some(BNeg)
    else if s == "AB+" then Some(ABPos)
    else if s == "AB-" then Some(ABNeg)
    else if s == "O+" then Some(OPos)
    else if s == "O-" then Some(ONeg)
    else None
  }

  /** Each option's label parses back to its blood type, and the options are
      exactly the eight labels. */
  lemma BloodTypeRoundTrip(b: BloodType)
    ensures ParseBloodType(BloodTypeLabel(b)) == Some(b)
    ensures BloodTypeLabel(b) in BloodTypeLabels
  {
  }

  function GenderLabel(g: Gender): string
  {
    match g
    case Male => "male"
    case Female => "female"
    case Other => "other"
  }

  /** The enum rule of `gender`: the gender the value names, or None when
      the enum rejects the string. */
  function ParseGender(s: string): (r: Option<Gender>)
    ensures r.Some? ==> GenderLabel(r.value) == s
    ensures r.None? <==> s != "male" && s != "female" && s != "other"
  {
    if s == "male" then Some(Male)
    else if s == "female" then Some(Female)
    else if s == "other" then Some(Other)
    else None
  }

  /** The gender values of the select parse back to the gender they name. */
  lemma GenderRoundTrip(g: Gender)
    ensures ParseGender(GenderLabel(g)) == Some(g)
  {
  }

  /* ---------------- the item lists ---------------- */

  /** `addItem`: a non-blank input is trimmed and appended, and the input is
      cleared; a blank (empty or all-whitespace) input changes neither. */
  function AddItem(items: seq<string>, input: string): (r: (seq<string>, string))
    ensures !AllWhitespace(input) ==> r == (items + [Trim(input)], "")
    ensures AllWhitespace(input) ==> r == (items, input)
  {
    TrimEmptyIff(input);
    var trimmed := Trim(input);
    if trimmed != [] then (items + [trimmed], "") else (items, input)
  }

  /** `removeItem`: drops the entry at `index` and keeps the rest in order;
      an index outside the list changes nothing. */
  function RemoveItem(items: seq<string>, index: int): (r: seq<string>)
    ensures 0 <= index < |items| ==> r == items[..index] + items[index + 1..]
    ensures !(0 <= index < |items|) ==> r == items
  {
    FilterOutIndex(items, index, 0)
  }

  /** Removing the entry just added restores the list. */
  lemma RemoveUndoesAdd(items: seq<string>, input: string)
    requires !AllWhitespace(input)
    ensures RemoveItem(AddItem(items, input).0, |items|) == items
  {
    var added := AddItem(items, input).0;
    assert added[..|items|] == items;
  }

  /** An entry as the add button stores it: non-empty, and neither first nor
      last character is whitespace. */
  predicate Clean(item: string)
  {
    item != [] && !IsWhitespace(item[0]) && !IsWhitespace(item[|item| - 1])
  }

  ghost predicate AllClean(items: seq<string>)
  {
    forall i :: 0 <= i < |items| ==> Clean(items[i])
  }

  /** Adding keeps every entry clean. */
  lemma AddKeepsClean(items: seq<string>, input: string)
    requires AllClean(items)
    ensures AllClean(AddItem(items, input).0)
  {
    TrimEmptyIff(input);
    TrimIsSlice(input);
  }

  /** Removing keeps every entry clean. */
  lemma RemoveKeepsClean(items: seq<string>, index: int)
    requires AllClean(items)
    ensures AllClean(RemoveItem(items, index))
  {
    var r := RemoveItem(items, index);
    if 0 <= index < |items| {
      forall k | 0 <= k < |r|
        ensures Clean(r[k])
      {
        if k < index {
          assert r[k] == items[k];
        } else {
          assert r[k] == items[k + 1];
        }
      }
    }
  }

  datatype ListEdit = Add(input: string) | Remove(index: int)

  function ApplyEdits(items: seq<string>, edits: seq<ListEdit>): seq<string>
    decreases |edits|
  {
    if |edits| == 0 then items
    else
      var next := match edits[0]
        case Add(input) => AddItem(items, input).0
        case Remove(index) => RemoveItem(items, index);
      ApplyEdits(next, edits[1..])
  }

  /** Starting from the empty list, any sequence of add and remove presses
      leaves only clean entries. */
  lemma {:induction false} EditsKeepClean(items: seq<string>, edits: seq<ListEdit>)
    requires AllClean(items)
    ensures AllClean(ApplyEdits(items, edits))
    decreases |edits|
  {
    if |edits| > 0 {
      match edits[0]
      case Add(input) =>
        AddKeepsClean(items, input);
        EditsKeepClean(AddItem(items, input).0, edits[1..]);
      case Remove(index) =>
        RemoveKeepsClean(items, index);
        EditsKeepClean(RemoveItem(items, index), edits[1..]);
    }
  }

  /* ---------------- schema and submit ---------------- */

  /** The form values as the schema sees them. `dateOfBirth` is the already
      formatted date, None while none is picked. */
  datatype FormValues = FormValues(
    fullName: string,
    dateOfBirth: Option<string>,
    gender: Option<Gender>,
    bloodType: Option<BloodType>,
    emergencyContactName: string,
    emergencyContactRelationship: string,
    emergencyContactPhone: string,
    street: string,
    city: string,
    state: string,
    postalCode: string,
    country: string)

  /** The form as mounted: empty name, gender preset to male, nothing else. */
  function DefaultValues(): (v: FormValues)
    ensures v.fullName == "" && v.gender == Some(Male) && v.dateOfBirth == None && v.bloodType == None
  {
    FormValues("", None, Some(Male), None, "", "", "", "", "", "", "", "")
  }

  /** `profileSchema`: a non-empty name, a date of birth and a gender are
      required; everything else is optional. */
  function ProfileErrors(v: FormValues): (r: seq<FieldError>)
    ensures r == [] <==> v.fullName != "" && v.dateOfBirth.Some? && v.gender.Some?
    ensures FieldError("fullName", RequiredKey) in r <==> v.fullName == ""
    ensures FieldError("dateOfBirth", RequiredKey) in r <==> v.dateOfBirth.None?
    ensures FieldError("gender", RequiredKey) in r <==> v.gender.None?
  {
    Check(|v.fullName| >= 1, "fullName", RequiredKey)
    + Check(v.dateOfBirth.Some?, "dateOfBirth", RequiredKey)
    + Check(v.gender.Some?, "gender", RequiredKey)
  }

  /** The untouched form is rejected for its empty name and its missing date
      of birth, in schema order; the preset gender passes. */
  lemma DefaultFormNeedsNameAndDate()
    ensures ProfileErrors(DefaultValues())
              == [FieldError("fullName", RequiredKey), FieldError("dateOfBirth", RequiredKey)]
  {
  }

  /** A list goes into the profile only when it has entries. */
  function ListField(items: seq<string>): (r: Option<seq<string>>)
    ensures r.None? <==> items == []
    ensures r.Some? ==> r.value == items
  {
    if |items| > 0 then Some(items) else None
  }

  /** The `UserProfile` that `onSubmit` builds from valid form values and the
      three lists. */
  function BuildProfile(v: FormValues, allergies: seq<string>, conditions: seq<string>, medications: seq<string>): (p: UserProfile)
    requires v.dateOfBirth.Some? && v.gender.Some?
    ensures p.fullName == v.fullName && p.dateOfBirth == v.dateOfBirth.value
    ensures p.gender == v.gender.value && p.bloodType == v.bloodType
    ensures p.allergies.None? <==> allergies == []
    ensures p.chronicConditions.None? <==> conditions == []
    ensures p.medications.None? <==> medications == []
    ensures p.allergies.Some? ==> p.allergies.value == allergies
    ensures p.chronicConditions.Some? ==> p.chronicConditions.value == conditions
    ensures p.medications.Some? ==> p.medications.value == medications
    ensures p.emergencyContact.Some? <==> v.emergencyContactName != "" && v.emergencyContactPhone != ""
    ensures p.emergencyContact.Some? ==>
              p.emergencyContact.value == EmergencyContact(v.emergencyContactName, v.emergencyContactRelationship, v.emergencyContactPhone)
    ensures p.address.Some? <==>
              v.street != "" || v.city != "" || v.state != "" || v.postalCode != "" || v.country != ""
    ensures p.address.Some? ==> p.address.value == Address(v.street, v.city, v.state, v.postalCode, v.country)
  {
    UserProfile(
      v.fullName,
      v.dateOfBirth.value,
      v.gender.value,
      v.bloodType,
      ListField(allergies),
      ListField(conditions),
      ListField(medications),
      if v.emergencyContactName != "" && v.emergencyContactPhone != ""
      then Some(EmergencyContact(v.emergencyContactName, v.emergencyContactRelationship, v.emergencyContactPhone))
      else None,
      if v.street != "" || v.city != "" || v.state != "" || v.postalCode != "" || v.country != ""
      then Some(Address(v.street, v.city, v.state, v.postalCode, v.country))
      else None)
  }

  /** Submitting: the schema errors when there are any; otherwise the built
      profile and the request to go to the dashboard. */
  function Submit(v: FormValues, allergies: seq<string>, conditions: seq<string>, medications: seq<string>): (r: (Option<UserProfile>, Outcome))
    ensures r.1 == Navigate(DashboardPath) <==> ProfileErrors(v) == []
    ensures r.1 != Navigate(DashboardPath) ==> r == (None, Invalid(ProfileErrors(v)))
    ensures r.0.Some? <==> ProfileErrors(v) == []
    ensures r.0.Some? ==> r.0.value.fullName == v.fullName && r.0.value.fullName != ""
    ensures r.0.Some? ==> r.0.value == BuildProfile(v, allergies, conditions, medications)
  {
    var errors := ProfileErrors(v);
    if errors == [] then (Some(BuildProfile(v, allergies, conditions, medications)), Navigate(DashboardPath))
    else (None, Invalid(errors))
  }

  /** The record keeps every list entry and every address and contact field
      the user typed: reading the built profile back gives the form's lists
      and, field by field, its values (an absent address or contact has only
      empty fields). */
  lemma ProfileReadsBack(v: FormValues, allergies: seq<string>, conditions: seq<string>, medications: seq<string>)
    requires v.dateOfBirth.Some? && v.gender.Some?
    ensures var p := BuildProfile(v, allergies, conditions, medications);
            && (match p.allergies case Some(l) => l case None => []) == allergies
            && (match p.chronicConditions case Some(l) => l case None => []) == conditions
            && (match p.medications case Some(l) => l case None => []) == medications
            && (match p.address
                case Some(a) => a == Address(v.street, v.city, v.state, v.postalCode, v.country)
                case None => v.street == "" && v.city == "" && v.state == "" && v.postalCode == "" && v.country == "")
  {
  }
}

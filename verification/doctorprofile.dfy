/** The doctor profile page of `src/pages/DoctorProfile.tsx`: the doctor
    looked up by the route id, the date buttons, the slot list of the
    selected date, the "days a week" count and the link to the booking
    wizard. The loading placeholder shown during the simulated delay is not
    modelled: `Open` is the page once the lookup has run. */
module DoctorProfile {
  import opened Common
  import opened Types
  import opened Resolver
  import Booking

  datatype Page =
    | NotFound
    | Profile(doctor: Doctor, selectedDate: Option<string>, availableTimes: seq<string>)

  /** The page once the lookup has finished: the first doctor with the id,
      no date selected, no times; or the not-found page. */
  function Open(doctors: seq<Doctor>, id: string): (p: Page)
    ensures p.NotFound? <==> forall i :: 0 <= i < |doctors| ==> doctors[i].id != id
    ensures p.Profile? ==> p.doctor in doctors && p.doctor.id == id
    ensures p.Profile? ==> FindDoctor(doctors, id) == Some(p.doctor)
    ensures p.Profile? ==> exists k :: 0 <= k < |doctors| && doctors[k] == p.doctor
                                       && forall j :: 0 <= j < k ==> doctors[j].id != id
    ensures p.Profile? ==> p.selectedDate == None && p.availableTimes == []
  {
    match FindDoctor(doctors, id)
    case Some(d) => Profile(d, None, [])
    case None => NotFound
  }

  /** `getAvailableDates`: the day labels of the doctor, none without one. */
  function AvailableDates(p: Page): (r: seq<string>)
    ensures p.NotFound? ==> r == []
    ensures p.Profile? ==> |r| == |p.doctor.availability|
    ensures p.Profile? ==> forall i :: 0 <= i < |r| ==> r[i] == p.doctor.availability[i].0
  {
    match p
    case NotFound => []
    case Profile(d, _, _) => Days(d.availability)
  }

  /** `handleDateSelect`: the date becomes the selection and the slot list
      becomes that day's times, or empty when the day has no entry. The
      doctor is not changed. On the not-found page there are no buttons. */
  function SelectDate(p: Page, date: string): (r: Page)
    ensures p.NotFound? ==> r == p
    ensures p.Profile? ==> r.Profile? && r.doctor == p.doctor && r.selectedDate == Some(date)
    ensures p.Profile? && date !in Days(p.doctor.availability) ==> r.availableTimes == []
    ensures p.Profile? ==> forall i :: 0 <= i < |p.doctor.availability| && p.doctor.availability[i].0 == date
                                       && DistinctDays(p.doctor.availability) ==>
                                         r.availableTimes == p.doctor.availability[i].1
  {
    match p
    case NotFound => p
    case Profile(d, _, _) =>
      var times := match Lookup(d.availability, date) case Some(ts) => ts case None => [];
      Profile(d, Some(date), times)
  }

  /** "N days a week": the number of keys of the availability object. */
  function DaysCount(d: Doctor): (n: nat)
    ensures n == |d.availability|
  {
    |Days(d.availability)|
  }

  /** Distinct labels: the sequence has as many entries as its set. */
  lemma {:induction false} DistinctCard(s: seq<string>)
    requires forall i, j :: 0 <= i < j < |s| ==> s[i] != s[j]
    ensures |set x | x in s| == |s|
  {
    if |s| > 0 {
      DistinctCard(s[1..]);
      assert (set x | x in s) == (set x | x in s[1..]) + {s[0]};
      assert s[0] !in s[1..];
    }
  }

  /** With distinct day labels the count is the number of different days on
      which the doctor has an entry. */
  lemma DaysCountIsNumberOfDays(d: Doctor)
    requires DistinctDays(d.availability)
    ensures DaysCount(d) == |set day | day in Days(d.availability)|
  {
    DistinctCard(Days(d.availability));
  }

  datatype SlotPanel = DatePrompt | NoSlots | Slots(times: seq<string>)

  /** The slot area: a prompt while no (or an empty) date is selected, the
      "no slots" note for a date with an empty list, else the times. */
  function Panel(p: Page): (r: SlotPanel)
    requires p.Profile?
    ensures r == DatePrompt <==> p.selectedDate == None || p.selectedDate == Some("")
    ensures r == NoSlots <==> p.selectedDate.Some? && p.selectedDate.value != "" && p.availableTimes == []
    ensures r.Slots? ==> r.times == p.availableTimes && |r.times| > 0
  {
    if p.selectedDate == None || p.selectedDate.value == "" then DatePrompt
    else if |p.availableTimes| > 0 then Slots(p.availableTimes)
    else NoSlots
  }

  /** Pressing the button of a listed day shows exactly that day's stored
      times, or the "no slots" note when that list is empty. */
  lemma DateButtonShowsItsDay(p: Page, i: int)
    requires p.Profile? && DistinctDays(p.doctor.availability)
    requires 0 <= i < |AvailableDates(p)| && AvailableDates(p)[i] != ""
    ensures var q := SelectDate(p, AvailableDates(p)[i]);
            if p.doctor.availability[i].1 == [] then Panel(q) == NoSlots
            else Panel(q) == Slots(p.doctor.availability[i].1)
  {
  }

  /** "Book Appointment" links to the booking wizard of the same doctor: the
      wizard resolves the id to the very doctor the profile shows and opens
      at its first step. */
  lemma BookLinkOpensSameDoctor(doctors: seq<Doctor>, id: string)
    requires Open(doctors, id).Profile?
    ensures Booking.Open(doctors, Open(doctors, id).doctor.id)
              == Booking.Wizard(Open(doctors, id).doctor, Booking.Initial())
  {
  }
}

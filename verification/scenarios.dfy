/** Concrete walks through the model on the first directory entry of
    `src/data/doctors.ts` and the sample appointments of
    `src/pages/Dashboard.tsx`. */
module Scenarios {
  import opened Common
  import opened Types
  import opened Resolver
  import opened Text
  import Seqs
  import Booking
  import Otp
  import Search
  import Dashboard
  import DoctorProfile

  const Weekday: seq<string> := ["09:00", "10:00", "11:00", "14:00", "15:00"]

  /** Dr. Sarah Johnson, id '1': cardiology, rating 4.9, fee 150, Boston. */
  const SarahJohnson := Doctor(
    "1", "Dr. Sarah Johnson", "Cardiology", 49, 124, 150,
    [("Monday", Weekday), ("Tuesday", Weekday), ("Wednesday", Weekday), ("Thursday", Weekday),
     ("Friday", ["09:00", "10:00", "11:00"])],
    "123 Medical Center Dr", "Boston", "USA", true)

  const Directory: seq<Doctor> := [SarahJohnson]

  /** The happy path: Monday 10:00 in person, patient details filled in,
      through payment (150 to pay) to confirmation and on to the dashboard. */
  lemma BookingHappyPath()
    ensures Booking.Open(Directory, "1").Wizard?
    ensures var d0 := Booking.Open(Directory, "1").draft;
            var d1 := Booking.SelectTime(Booking.SelectDate(d0, "Monday"), "10:00");
            var (d2, o2) := Booking.Next(d1);
            var d3 := Booking.EditPatient(Booking.EditPatient(Booking.EditPatient(
                        d2, Booking.NameField, "Ana"), Booking.EmailField, "ana@example.com"),
                        Booking.PhoneField, "555-0100");
            var (d4, o4) := Booking.Next(d3);
            var (d5, o5) := Booking.Next(d4);
            var (d6, o6) := Booking.Next(d5);
            && o2 == Ok && d2.step == Booking.InfoStep
            && o4 == Ok && d4.step == Booking.PaymentStep
            && Booking.Total(SarahJohnson.consultationFee, d4.kind) == 150
            && o5 == Ok && d5.step == Booking.ConfirmationStep
            && o6 == Navigate("/dashboard")
  {
  }

  /** A video consultation costs the fee plus the platform fee. */
  lemma VideoCostsMore()
    ensures Booking.Total(SarahJohnson.consultationFee, Video) == 155
  {
  }

  /** A date without a time does not leave the first step. */
  lemma TimeRequired()
    ensures var d := Booking.SelectDate(Booking.Initial(), "Monday");
            Booking.Next(d) == (d, Blocked(Booking.MissingInformation, Booking.MissingDateTime))
  {
  }

  /** Choosing a new date after a time discards the time. */
  lemma NewDateClearsTime()
    ensures var d := Booking.SelectDate(Booking.SelectTime(Booking.SelectDate(Booking.Initial(), "Monday"), "10:00"), "Friday");
            d.date == "Friday" && d.time == ""
  {
  }

  /** An unknown id gives the not-found page on both doctor pages. */
  lemma UnknownDoctor()
    ensures Booking.Open(Directory, "999") == Booking.DoctorNotFound
    ensures DoctorProfile.Open(Directory, "999") == DoctorProfile.NotFound
  {
  }

  /** A five-digit code is rejected and completes nothing. */
  lemma ShortCodeRejected()
    ensures Otp.Step(Otp.EnterCode(Otp.Initial(), "12345"), Otp.PressVerify).1 == Otp.CodeRejected
    ensures Otp.Step(Otp.EnterCode(Otp.Initial(), "123456"), Otp.PressVerify).1 == Otp.VerificationComplete
  {
  }

  /** Friday has three slots; the profile lists them after the Friday button. */
  lemma FridaySlots()
    ensures var p := DoctorProfile.SelectDate(DoctorProfile.Open(Directory, "1"), "Friday");
            DoctorProfile.Panel(p) == DoctorProfile.Slots(["09:00", "10:00", "11:00"])
    ensures DoctorProfile.DaysCount(SarahJohnson) == 5
  {
    assert Lookup(SarahJohnson.availability, "Friday") == Some(["09:00", "10:00", "11:00"]) by {
      var av := SarahJohnson.availability;
      assert av[4].0 == "Friday";
      assert av[0].0[0] != 'F' && av[1].0[0] != 'F' && av[2].0[0] != 'F' && av[3].0[0] != 'F';
      assert DayIndex(av, "Friday") == 4;
    }
  }

  /** Searching for "bos" finds her by city, and a 4.5-star minimum keeps her
      while a Dermatology filter drops her. */
  lemma SearchByCity()
    ensures Search.HandleSearch(Directory, Search.Filters("bos", "", "", [], 45)) == Directory
    ensures Search.HandleSearch(Directory, Search.Filters("", "Dermatology", "", [], 0)) == []
  {
    assert ToLower(SarahJohnson.city)[0..3] == "bos";
    ContainsIffOccurs(ToLower(SarahJohnson.city), "bos");
    assert OccursAt(ToLower(SarahJohnson.city), "bos", 0);
    assert ToLower("bos") == "bos";
    assert Search.Keep(Search.Filters("bos", "", "", [], 45), SarahJohnson);
    Search.SearchIsSingleFilter(Directory, Search.Filters("bos", "", "", [], 45));
  }

  const SampleAppointments: seq<Appointment> := [
    Appointment("1", "1", "Monday, June 12, 2023", "10:00", Video, Upcoming,
                Some("Chest pain and shortness of breath"), Some("Please bring previous test results")),
    Appointment("2", "3", "Wednesday, June 14, 2023", "15:30", InPerson, Upcoming, None, None),
    Appointment("3", "2", "Friday, May 26, 2023", "09:00", Video, Completed, None, None),
    Appointment("4", "5", "Tuesday, May 23, 2023", "11:30", Phone, Cancelled, None, None)
  ]

  /** On the sample data the all tab lists four appointments and the
      upcoming tab the first two. */
  lemma SampleUpcoming()
    ensures Dashboard.Filtered(SampleAppointments, Dashboard.AllTab) == SampleAppointments
    ensures Dashboard.Filtered(SampleAppointments, Dashboard.StatusTab(Upcoming)) == SampleAppointments[..2]
  {
    var s := SampleAppointments;
    var p := (a: Appointment) => a.status == Upcoming;
    assert Seqs.Filter(s[3..], p) == [];
    assert Seqs.Filter(s[2..], p) == [];
    assert Seqs.Filter(s[1..], p) == [s[1]];
    assert Seqs.Filter(s, p) == [s[0], s[1]];
  }

  /** With only doctor '1' in the directory only the first upcoming
      appointment gets a card; the second (doctor '3') renders nothing. */
  lemma SampleUpcomingCards()
    ensures Dashboard.Render(SampleAppointments, Directory, Dashboard.StatusTab(Upcoming))
              == Dashboard.Grid([Dashboard.Card(SampleAppointments[0], SarahJohnson)])
  {
    SampleUpcoming();
    var s := SampleAppointments[..2];
    assert FindDoctor(Directory, "3") == None;
    assert FindDoctor(Directory, "1") == Some(SarahJohnson);
    assert Dashboard.Cards(s[1..], Directory) == [];
  }
}

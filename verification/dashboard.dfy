/** The appointment list of `src/pages/Dashboard.tsx`: the tab filter over
    the appointments, the cards (one per appointment whose doctor is in the
    directory) and the per-tab empty-state message. */
module Dashboard {
  import opened Common
  import opened Types
  import opened Seqs
  import opened Resolver

  /** `activeTab`: a status or `'all'`. */
  datatype Tab = AllTab | StatusTab(status: AppointmentStatus)

  /** The tab the page opens on. */
  function InitialTab(): (t: Tab)
    ensures t == AllTab
  {
    AllTab
  }

  /** `filteredAppointments`: everything on the all tab, otherwise exactly
      the appointments with the tab's status, in their original order. */
  function Filtered(appts: seq<Appointment>, tab: Tab): (r: seq<Appointment>)
    ensures tab == AllTab ==> r == appts
    ensures SubseqOf(r, appts)
    ensures tab.StatusTab? ==> forall i :: 0 <= i < |r| ==> r[i].status == tab.status
    ensures tab.StatusTab? ==> forall i :: 0 <= i < |appts| && appts[i].status == tab.status ==> appts[i] in r
  {
    match tab
    case AllTab => SubseqRefl(appts); appts
    case StatusTab(s) => Filter(appts, (a: Appointment) => a.status == s)
  }

  /** The page opens showing every appointment, in order. */
  lemma InitialTabShowsAll(appts: seq<Appointment>)
    ensures Filtered(appts, InitialTab()) == appts
  {
  }

  /** The three status tabs split the list: every appointment, with its
      multiplicity, is on exactly one of them. */
  lemma StatusTabsPartition(appts: seq<Appointment>)
    ensures multiset(Filtered(appts, StatusTab(Upcoming)))
            + multiset(Filtered(appts, StatusTab(Completed)))
            + multiset(Filtered(appts, StatusTab(Cancelled)))
            == multiset(appts)
  {
    var u := Filtered(appts, StatusTab(Upcoming));
    var c := Filtered(appts, StatusTab(Completed));
    var x := Filtered(appts, StatusTab(Cancelled));
    forall a
      ensures (multiset(u) + multiset(c) + multiset(x))[a] == multiset(appts)[a]
    {
      FilterCount(appts, (b: Appointment) => b.status == Upcoming, a);
      FilterCount(appts, (b: Appointment) => b.status == Completed, a);
      FilterCount(appts, (b: Appointment) => b.status == Cancelled, a);
    }
  }

  /** An appointment card with the doctor it resolved to. */
  datatype Card = Card(appointment: Appointment, doctor: Doctor)

  /** The appointments whose doctor is in the directory. */
  function Resolvable(appts: seq<Appointment>, doctors: seq<Doctor>): seq<Appointment>
  {
    Filter(appts, (a: Appointment) => FindDoctor(doctors, a.doctorId).Some?)
  }

  /** The card grid: for each appointment in order, the first directory
      doctor with its `doctorId`; an appointment without one renders
      nothing. So there is exactly one card per resolvable appointment, in
      the order of the list. */
  function Cards(appts: seq<Appointment>, doctors: seq<Doctor>): (r: seq<Card>)
    ensures |r| == |Resolvable(appts, doctors)|
    ensures forall i :: 0 <= i < |r| ==>
              && r[i].appointment == Resolvable(appts, doctors)[i]
              && FindDoctor(doctors, r[i].appointment.doctorId) == Some(r[i].doctor)
  {
    if |appts| == 0 then []
    else
      var rest := Cards(appts[1..], doctors);
      match FindDoctor(doctors, appts[0].doctorId)
      case Some(d) =>
        assert Resolvable(appts, doctors) == [appts[0]] + Resolvable(appts[1..], doctors);
        [Card(appts[0], d)] + rest
      case None =>
        assert Resolvable(appts, doctors) == Resolvable(appts[1..], doctors);
        rest
  }

  /** Every card pairs an appointment of the list with a directory doctor of
      its `doctorId`; every appointment whose doctor is found has its card;
      when all are found, none is missing. */
  lemma CardsCoverResolvable(appts: seq<Appointment>, doctors: seq<Doctor>)
    ensures var r := Cards(appts, doctors);
            forall i :: 0 <= i < |r| ==>
              r[i].appointment in appts && r[i].doctor in doctors
              && r[i].doctor.id == r[i].appointment.doctorId
    ensures forall i :: 0 <= i < |appts| && FindDoctor(doctors, appts[i].doctorId).Some? ==>
              Card(appts[i], FindDoctor(doctors, appts[i].doctorId).value) in Cards(appts, doctors)
    ensures (forall i :: 0 <= i < |appts| ==> FindDoctor(doctors, appts[i].doctorId).Some?) ==>
              |Cards(appts, doctors)| == |appts|
  {
    var r := Cards(appts, doctors);
    var res := Resolvable(appts, doctors);
    forall i | 0 <= i < |appts| && FindDoctor(doctors, appts[i].doctorId).Some?
      ensures Card(appts[i], FindDoctor(doctors, appts[i].doctorId).value) in r
    {
      assert appts[i] in res;
      var k :| 0 <= k < |res| && res[k] == appts[i];
      assert r[k] == Card(appts[i], FindDoctor(doctors, appts[i].doctorId).value);
    }
  }

  const NoneAtAll := "You don't have any appointments yet."
  const NoneUpcoming := "You don't have any upcoming appointments."
  const NoneCompleted := "You don't have any completed appointments."
  const NoneCancelled := "You don't have any cancelled appointments."

  /** The empty-state text of a tab. */
  function EmptyMessage(tab: Tab): string
  {
    match tab
    case AllTab => NoneAtAll
    case StatusTab(Upcoming) => NoneUpcoming
    case StatusTab(Completed) => NoneCompleted
    case StatusTab(Cancelled) => NoneCancelled
  }

  /** Each tab has its own empty-state text. */
  lemma EmptyMessagesDistinct(t1: Tab, t2: Tab)
    ensures EmptyMessage(t1) == EmptyMessage(t2) <==> t1 == t2
  {
    assert NoneAtAll[19] == 'a' && NoneUpcoming[19] == 'u';
    assert NoneCompleted[19] == 'c' && NoneCancelled[19] == 'c';
    assert NoneCompleted[20] == 'o' && NoneCancelled[20] == 'a';
  }

  datatype View = EmptyState(message: string) | Grid(cards: seq<Card>)

  /** The main area: the empty state iff the tab has no appointments, the
      card grid otherwise. */
  function Render(appts: seq<Appointment>, doctors: seq<Doctor>, tab: Tab): (v: View)
    ensures v.EmptyState? <==> Filtered(appts, tab) == []
    ensures v.EmptyState? ==> v.message == EmptyMessage(tab)
    ensures v.Grid? ==> v.cards == Cards(Filtered(appts, tab), doctors)
  {
    var shown := Filtered(appts, tab);
    if |shown| > 0 then Grid(Cards(shown, doctors)) else EmptyState(EmptyMessage(tab))
  }

  /** The grid is not the empty state even when none of the tab's
      appointments resolves to a doctor: the page then shows an empty grid. */
  lemma UnresolvedTabShowsEmptyGrid(appts: seq<Appointment>, doctors: seq<Doctor>, tab: Tab)
    requires Filtered(appts, tab) != []
    requires forall i :: 0 <= i < |doctors| ==> forall a :: a in appts ==> doctors[i].id != a.doctorId
    ensures Render(appts, doctors, tab) == Grid([])
  {
    var shown := Filtered(appts, tab);
    forall k | 0 <= k < |shown|
      ensures FindDoctor(doctors, shown[k].doctorId).None?
    {
      assert shown[k] in appts;
    }
    NoResolvedNoCards(shown, doctors);
  }

  lemma {:induction false} NoResolvedNoCards(appts: seq<Appointment>, doctors: seq<Doctor>)
    requires forall k :: 0 <= k < |appts| ==> FindDoctor(doctors, appts[k].doctorId).None?
    ensures Cards(appts, doctors) == []
  {
    if |appts| > 0 {
      NoResolvedNoCards(appts[1..], doctors);
    }
  }
}

/** The availability resolver shared by the booking page and the doctor
    profile page (`Object.keys(doctor.availability)` and
    `doctor.availability[day] || []`), and the directory lookup
    `doctors.find(d => d.id === id)`. */
module Resolver {
  import opened Common
  import opened Types

  /** `Object.keys(availability)`: the day labels in insertion order. */
  function Days(av: Availability): (r: seq<string>)
    ensures |r| == |av|
    ensures forall i :: 0 <= i < |av| ==> r[i] == av[i].0
  {
    if |av| == 0 then [] else [av[0].0] + Days(av[1..])
  }

  /** What a JavaScript object guarantees: no day label is a key twice. */
  ghost predicate DistinctDays(av: Availability)
  {
    forall i, j :: 0 <= i < j < |av| ==> av[i].0 != av[j].0
  }

  /** Position of the first entry for `day`, or `|av|` when there is none. */
  function DayIndex(av: Availability, day: string): (k: nat)
    ensures k <= |av|
    ensures forall j :: 0 <= j < k ==> av[j].0 != day
    ensures k < |av| ==> av[k].0 == day
  {
    if |av| == 0 then 0
    else if av[0].0 == day then 0
    else 1 + DayIndex(av[1..], day)
  }

  /** `availability[day]`: the entry's times, or `undefined` (None) when the
      day is not a key. */
  function Lookup(av: Availability, day: string): (r: Option<seq<string>>)
    ensures r.None? <==> day !in Days(av)
    ensures r.Some? ==> r.value == av[DayIndex(av, day)].1
  {
    var k := DayIndex(av, day);
    if k < |av| then
      assert Days(av)[k] == day;
      Some(av[k].1)
    else None
  }

  /** `availability[day] || []`: a missing day is not an error but the empty
      slot list; a present day gives exactly its stored times. */
  function TimesFor(av: Availability, day: string): (r: seq<string>)
    ensures day !in Days(av) ==> r == []
    ensures DistinctDays(av) ==> forall i :: 0 <= i < |av| && av[i].0 == day ==> r == av[i].1
  {
    match Lookup(av, day)
    case Some(times) => times
    case None => []
  }

  /** `doctors.find(d => d.id === id)`: the first doctor with exactly this id,
      or None when no doctor has it. */
  function FindDoctor(ds: seq<Doctor>, id: string): (r: Option<Doctor>)
    ensures r.None? <==> forall i :: 0 <= i < |ds| ==> ds[i].id != id
    ensures r.Some? ==> r.value in ds && r.value.id == id
    ensures r.Some? ==> exists i :: 0 <= i < |ds| && ds[i] == r.value
                                   && forall j :: 0 <= j < i ==> ds[j].id != id
  {
    if |ds| == 0 then None
    else if ds[0].id == id then Some(ds[0])
    else
      var r := FindDoctor(ds[1..], id);
      if r.Some? then
        var i :| 0 <= i < |ds[1..]| && ds[1..][i] == r.value && forall j :: 0 <= j < i ==> ds[1..][j].id != id;
        assert ds[i + 1] == r.value && forall j :: 0 <= j < i + 1 ==> ds[j].id != id;
        r
      else r
  }
}

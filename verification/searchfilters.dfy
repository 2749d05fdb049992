/** The filter bar of `src/components/search/SearchFilters.tsx`: the filter
    record it edits, the appointment-type check boxes, the chips of active
    filters with their remove buttons, and the label of the availability
    chip. */
module SearchFilters {
  import opened Text
  import opened Seqs
  import opened Types
  import opened Search

  const InPersonType := "in-person"
  const VideoType := "video"
  const PhoneType := "phone"

  /** The three check-box values, all checked initially. */
  const AllTypes: seq<string> := [InPersonType, VideoType, PhoneType]

  /** The options of the minimum-rating select, in tenths of a star. */
  const RatingOptions: seq<int> := [0, 30, 40, 45]

  /** The filter record as mounted and after "Clear All". */
  function Initial(): (f: Filters)
    ensures f.query == "" && f.specialty == "" && f.availability == "" && f.rating == 0
    ensures f.appointmentType == AllTypes
  {
    Filters("", "", "", AllTypes, 0)
  }

  /** `handleClear`: every field back to its initial value, whatever the
      current filters are. */
  function HandleClear(f: Filters): (r: Filters)
    ensures r == Initial()
  {
    Filters("", "", "", [InPersonType, VideoType, PhoneType], 0)
  }

  /** A change event of the text input or one of the three selects; the
      event's `name` picks the field. The rating select delivers one of
      `RatingOptions`. */
  datatype Edit =
    | QueryEdit(text: string)
    | SpecialtyEdit(text: string)
    | AvailabilityEdit(text: string)
    | RatingEdit(tenths: int)

  /** `handleInputChange`: the named field takes the new value, every other
      field is kept. */
  function HandleInputChange(f: Filters, e: Edit): (r: Filters)
    ensures r.appointmentType == f.appointmentType
    ensures r.query == (if e.QueryEdit? then e.text else f.query)
    ensures r.specialty == (if e.SpecialtyEdit? then e.text else f.specialty)
    ensures r.availability == (if e.AvailabilityEdit? then e.text else f.availability)
    ensures r.rating == (if e.RatingEdit? then e.tenths else f.rating)
  {
    match e
    case QueryEdit(v) => f.(query := v)
    case SpecialtyEdit(v) => f.(specialty := v)
    case AvailabilityEdit(v) => f.(availability := v)
    case RatingEdit(v) => f.(rating := v)
  }

  /** `handleCheckboxChange`: a check appends the value, an uncheck removes
      every copy of it and keeps the others in order. Nothing else changes. */
  function HandleCheckboxChange(f: Filters, value: string, checked: bool): (r: Filters)
    ensures r.query == f.query && r.specialty == f.specialty
    ensures r.availability == f.availability && r.rating == f.rating
    ensures checked ==> r.appointmentType == f.appointmentType + [value]
    ensures !checked ==> value !in r.appointmentType && SubseqOf(r.appointmentType, f.appointmentType)
    ensures !checked ==> forall i :: 0 <= i < |f.appointmentType| && f.appointmentType[i] != value ==>
                                       f.appointmentType[i] in r.appointmentType
    ensures !checked ==> forall x :: x != value ==>
                           multiset(r.appointmentType)[x] == multiset(f.appointmentType)[x]
  {
    if checked then f.(appointmentType := f.appointmentType + [value])
    else
      var kept := Filter(f.appointmentType, (t: string) => t != value);
      forall x | x != value
        ensures multiset(kept)[x] == multiset(f.appointmentType)[x]
      {
        FilterCount(f.appointmentType, (t: string) => t != value, x);
      }
      f.(appointmentType := kept)
  }

  /* ---------------- chips ---------------- */

  datatype Chip = SpecialtyChip | AvailabilityChip | RatingChip

  /** Whether a chip is rendered for a filter. */
  predicate ChipShown(f: Filters, c: Chip)
  {
    match c
    case SpecialtyChip => f.specialty != ""
    case AvailabilityChip => f.availability != ""
    case RatingChip => f.rating > 0
  }

  /** The condition of the chip row. */
  predicate ShowChips(f: Filters)
  {
    f.specialty != "" || f.availability != "" || f.rating > 0
  }

  /** The row is shown exactly when at least one chip is. */
  lemma ChipRowIffSomeChip(f: Filters)
    ensures ShowChips(f) <==> exists c :: ChipShown(f, c)
  {
    if ShowChips(f) {
      if f.specialty != "" {
        assert ChipShown(f, SpecialtyChip);
      } else if f.availability != "" {
        assert ChipShown(f, AvailabilityChip);
      } else {
        assert ChipShown(f, RatingChip);
      }
    }
  }

  /** The chip's remove button: resets that one filter (specialty and
      availability to the empty string, rating to 0). */
  function RemoveChip(f: Filters, c: Chip): (r: Filters)
    ensures !ChipShown(r, c)
    ensures forall other :: other != c ==> ChipShown(r, other) == ChipShown(f, other)
    ensures r.query == f.query && r.appointmentType == f.appointmentType
    ensures r.specialty == (if c == SpecialtyChip then "" else f.specialty)
    ensures r.availability == (if c == AvailabilityChip then "" else f.availability)
    ensures r.rating == (if c == RatingChip then 0 else f.rating)
  {
    match c
    case SpecialtyChip => f.(specialty := "")
    case AvailabilityChip => f.(availability := "")
    case RatingChip => f.(rating := 0)
  }

  /** After "Clear All" no chip is shown and a search returns the whole
      directory. */
  lemma ClearResetsSearch(f: Filters, all: seq<Doctor>)
    ensures !ShowChips(HandleClear(f))
    ensures HandleSearch(all, HandleClear(f)) == all
  {
    EmptyFiltersKeepAll(all, "", AllTypes);
  }

  /** Removing every chip leaves only the text query in force: the search
      then keeps exactly the doctors matching the query. */
  lemma RemovingAllChipsLeavesQuery(f: Filters, all: seq<Doctor>, d: Doctor)
    ensures var g := RemoveChip(RemoveChip(RemoveChip(f, SpecialtyChip), AvailabilityChip), RatingChip);
            !ShowChips(g) && g.query == f.query
            && (Keep(g, d) <==> PassesQuery(f, d))
  {
  }

  /** The availability chip's text: the first hyphen becomes a space, then
      the first letter of every word is upper-cased. */
  function AvailabilityLabel(s: string): (r: string)
    ensures |r| == |s|
    ensures ToLower(r) == ToLower(ReplaceFirst(s, '-', ' '))
    ensures var t := ReplaceFirst(s, '-', ' ');
            forall i :: 0 <= i < |t| ==> r[i] == (if WordStart(t, i) then ToUpperChar(t[i]) else t[i])
  {
    var t := ReplaceFirst(s, '-', ' ');
    var r := CapitalizeWords(t);
    forall i | 0 <= i < |t|
      ensures ToLower(r)[i] == ToLower(t)[i]
    {
      LowerOfUpper(t[i]);
    }
    r
  }

  /** A non-empty run of lower-case ASCII letters. */
  predicate LowerWord(w: string)
  {
    |w| > 0 && forall i :: 0 <= i < |w| ==> 'a' <= w[i] <= 'z'
  }

  /** The word with its first letter upper-cased. */
  function Capitalized(w: string): string
    requires |w| > 0
  {
    [ToUpperChar(w[0])] + w[1..]
  }

  /** A one-word option is shown with its first letter upper-cased. */
  lemma OneWordLabel(w: string)
    requires LowerWord(w)
    ensures AvailabilityLabel(w) == Capitalized(w)
  {
    assert FirstIndex(w, '-') == |w|;
    var r := AvailabilityLabel(w);
    forall i | 0 <= i < |w|
      ensures r[i] == Capitalized(w)[i]
    {
      assert WordStart(w, i) <==> i == 0;
    }
  }

  /** In two lower-case words joined by a space, words start exactly at the
      first character and just after the space. */
  lemma TwoWordStarts(w1: string, w2: string, i: int)
    requires LowerWord(w1) && LowerWord(w2)
    requires 0 <= i < |w1| + 1 + |w2|
    ensures WordStart(w1 + " " + w2, i) <==> i == 0 || i == |w1| + 1
  {
    var u := w1 + " " + w2;
    var k := |w1|;
    if i < k {
      assert u[i] == w1[i];
      if i > 0 {
        assert u[i - 1] == w1[i - 1];
      }
    } else if i == k {
      assert u[i] == ' ';
    } else if i == k + 1 {
      assert u[i] == w2[0];
      assert u[i - 1] == ' ';
    } else {
      assert u[i] == w2[i - k - 1];
      assert u[i - 1] == w2[i - k - 2];
    }
  }

  /** The first hyphen of two words joined by a hyphen is the joint. */
  lemma SpacedTwoWords(w1: string, w2: string)
    requires LowerWord(w1) && LowerWord(w2)
    ensures ReplaceFirst(w1 + "-" + w2, '-', ' ') == w1 + " " + w2
  {
    var s := w1 + "-" + w2;
    var k := |w1|;
    assert forall j :: 0 <= j < k ==> s[j] == w1[j];
    assert s[k] == '-';
    assert FirstIndex(s, '-') == k;
    assert s[..k] == w1 && s[k + 1..] == w2;
  }

  /** Two lower-case words joined by a space are capitalised word by word. */
  lemma CapitalizeTwoWords(w1: string, w2: string)
    requires LowerWord(w1) && LowerWord(w2)
    ensures CapitalizeWords(w1 + " " + w2) == Capitalized(w1) + " " + Capitalized(w2)
  {
    var t := w1 + " " + w2;
    var k := |w1|;
    var r := CapitalizeWords(t);
    var c1 := Capitalized(w1);
    var c2 := Capitalized(w2);
    var e := c1 + " " + c2;
    forall i | 0 <= i < |t|
      ensures r[i] == e[i]
    {
      TwoWordStarts(w1, w2, i);
      if i < k {
        assert t[i] == w1[i] && e[i] == c1[i];
      } else if i > k {
        assert t[i] == w2[i - k - 1] && e[i] == c2[i - k - 1];
      }
    }
  }

  /** A hyphenated two-word option is shown as two capitalised words
      separated by a space. */
  lemma TwoWordLabel(w1: string, w2: string)
    requires LowerWord(w1) && LowerWord(w2)
    ensures AvailabilityLabel(w1 + "-" + w2) == Capitalized(w1) + " " + Capitalized(w2)
  {
    SpacedTwoWords(w1, w2);
    CapitalizeTwoWords(w1, w2);
  }

  /** The chip of each availability option shows the text of that option in
      the select. */
  lemma TodayLabel()
    ensures AvailabilityLabel("today") == "Today"
  {
    assert ToUpperChar('t') == 'T';
    WordLabel("today", "Today");
  }

  lemma TomorrowLabel()
    ensures AvailabilityLabel("tomorrow") == "Tomorrow"
  {
    assert ToUpperChar('t') == 'T';
    WordLabel("tomorrow", "Tomorrow");
  }

  lemma ThisWeekLabel()
    ensures AvailabilityLabel("this-week") == "This Week"
  {
    assert ToUpperChar('t') == 'T' && ToUpperChar('w') == 'W';
    WordsLabel("this", "week", "this-week", "This Week");
  }

  lemma NextWeekLabel()
    ensures AvailabilityLabel("next-week") == "Next Week"
  {
    assert ToUpperChar('n') == 'N' && ToUpperChar('w') == 'W';
    WordsLabel("next", "week", "next-week", "Next Week");
  }

  /** `OneWordLabel` for a given option text and chip text. */
  lemma WordLabel(w: string, shown: string)
    requires LowerWord(w) && shown == Capitalized(w)
    ensures AvailabilityLabel(w) == shown
  {
    OneWordLabel(w);
  }

  /** `TwoWordLabel` for a given option text and chip text. */
  lemma WordsLabel(w1: string, w2: string, s: string, shown: string)
    requires LowerWord(w1) && LowerWord(w2)
    requires s == w1 + "-" + w2 && shown == Capitalized(w1) + " " + Capitalized(w2)
    ensures AvailabilityLabel(s) == shown
  {
    TwoWordLabel(w1, w2);
  }

  /* ---------------- reachable filter records ---------------- */

  /** The user actions on the bar. A check box's change event carries the
      negation of its current `checked` state, which is whether the value is
      in the list. */
  datatype Action = Change(e: Edit) | Toggle(value: string) | PressClear | PressRemove(c: Chip)

  predicate Enabled(f: Filters, a: Action)
  {
    match a
    case Change(e) => e.RatingEdit? ==> e.tenths in RatingOptions
    case Toggle(v) => v in AllTypes
    case PressClear => true
    case PressRemove(c) => ChipShown(f, c)
  }

  function Apply(f: Filters, a: Action): Filters
  {
    match a
    case Change(e) => HandleInputChange(f, e)
    case Toggle(v) => HandleCheckboxChange(f, v, v !in f.appointmentType)
    case PressClear => HandleClear(f)
    case PressRemove(c) => RemoveChip(f, c)
  }

  function Run(f: Filters, trace: seq<Action>): Filters
    decreases |trace|
  {
    if |trace| == 0 then f else Run(Apply(f, trace[0]), trace[1..])
  }

  ghost predicate EnabledTrace(f: Filters, trace: seq<Action>)
    decreases |trace|
  {
    |trace| == 0 || (Enabled(f, trace[0]) && EnabledTrace(Apply(f, trace[0]), trace[1..]))
  }

  /** No value appears twice. */
  ghost predicate NoDuplicates(s: seq<string>)
  {
    forall x :: multiset(s)[x] <= 1
  }

  /** The check boxes keep the type list free of duplicates and within the
      three known values, and the rating is one of the select's options. */
  ghost predicate Inv(f: Filters)
  {
    && NoDuplicates(f.appointmentType)
    && (forall i :: 0 <= i < |f.appointmentType| ==> f.appointmentType[i] in AllTypes)
    && f.rating in RatingOptions
  }

  lemma UncheckKeepsNoDuplicates(s: seq<string>, v: string)
    requires NoDuplicates(s)
    ensures NoDuplicates(Filter(s, (t: string) => t != v))
  {
    var r := Filter(s, (t: string) => t != v);
    forall x
      ensures multiset(r)[x] <= 1
    {
      FilterCount(s, (t: string) => t != v, x);
    }
  }

  lemma CheckKeepsNoDuplicates(s: seq<string>, v: string)
    requires NoDuplicates(s) && v !in s
    ensures NoDuplicates(s + [v])
  {
    assert multiset(s)[v] == 0;
    assert multiset(s + [v]) == multiset(s) + multiset{v};
  }

  lemma InvStep(f: Filters, a: Action)
    requires Inv(f) && Enabled(f, a)
    ensures Inv(Apply(f, a))
  {
    match a
    case Toggle(v) =>
      if v in f.appointmentType {
        UncheckKeepsNoDuplicates(f.appointmentType, v);
      } else {
        CheckKeepsNoDuplicates(f.appointmentType, v);
      }
    case PressClear =>
      assert multiset(AllTypes) == multiset{InPersonType, VideoType, PhoneType};
    case Change(_) =>
    case PressRemove(_) =>
  }

  lemma {:induction false} InvAlongTrace(f: Filters, trace: seq<Action>)
    requires Inv(f) && EnabledTrace(f, trace)
    ensures Inv(Run(f, trace))
    decreases |trace|
  {
    if |trace| > 0 {
      InvStep(f, trace[0]);
      InvAlongTrace(Apply(f, trace[0]), trace[1..]);
    }
  }

  /** Whatever the user does on the bar, the appointment-type list holds each
      of the three values at most once (so never more than three entries) and
      the rating is one of the select's options. */
  lemma {:induction false} ReachableInvariant(trace: seq<Action>)
    requires EnabledTrace(Initial(), trace)
    ensures NoDuplicates(Run(Initial(), trace).appointmentType)
    ensures forall i :: 0 <= i < |Run(Initial(), trace).appointmentType| ==>
              Run(Initial(), trace).appointmentType[i] in AllTypes
    ensures Run(Initial(), trace).rating in RatingOptions
  {
    assert multiset(AllTypes) == multiset{InPersonType, VideoType, PhoneType};
    InvAlongTrace(Initial(), trace);
  }
}

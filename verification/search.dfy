/** The doctor search of `src/pages/Search.tsx`: three filters applied one
    after the other to the whole directory (free-text query, exact
    specialty, minimum rating). The availability and appointment-type
    filters are carried along but never consulted. */
module Search {
  import opened Types
  import opened Text
  import opened Seqs

  /** The filter record the filter bar submits. `rating` is in tenths of a
      star; 0 means "any rating". */
  datatype Filters = Filters(
    query: string,
    specialty: string,
    availability: string,
    appointmentType: seq<string>,
    rating: int)

  /** The lowercased query `q` is a substring of the lowercased name,
      specialty, city or country. */
  predicate MatchesQuery(d: Doctor, q: string)
  {
    || Contains(ToLower(d.name), q)
    || Contains(ToLower(d.specialty), q)
    || Contains(ToLower(d.city), q)
    || Contains(ToLower(d.country), q)
  }

  predicate PassesQuery(f: Filters, d: Doctor)
  {
    f.query == "" || MatchesQuery(d, ToLower(f.query))
  }

  predicate PassesSpecialty(f: Filters, d: Doctor)
  {
    f.specialty == "" || d.specialty == f.specialty
  }

  predicate PassesRating(f: Filters, d: Doctor)
  {
    f.rating <= 0 || d.rating >= f.rating
  }

  /** The single-pass reference: a doctor is kept iff every active filter
      accepts it. */
  predicate Keep(f: Filters, d: Doctor)
  {
    PassesQuery(f, d) && PassesSpecialty(f, d) && PassesRating(f, d)
  }

  /** `handleSearch` as written: start from all doctors and narrow the list
      by each active filter in turn. */
  function HandleSearch(all: seq<Doctor>, f: Filters): (r: seq<Doctor>)
    ensures |r| <= |all|
    ensures forall i :: 0 <= i < |r| ==> r[i] in all && PassesRating(f, r[i])
  {
    var afterQuery :=
      if f.query != "" then Filter(all, (d: Doctor) => MatchesQuery(d, ToLower(f.query))) else all;
    var afterSpecialty :=
      if f.specialty != "" then Filter(afterQuery, (d: Doctor) => d.specialty == f.specialty) else afterQuery;
    if f.rating > 0 then Filter(afterSpecialty, (d: Doctor) => d.rating >= f.rating) else afterSpecialty
  }

  /** A stage that is skipped is the same as filtering by a predicate that
      accepts everything. */
  lemma StageIsFilter(s: seq<Doctor>, active: bool, p: Doctor -> bool, q: Doctor -> bool)
    requires forall d :: q(d) == (!active || p(d))
    ensures (if active then Filter(s, p) else s) == Filter(s, q)
  {
    if active {
      FilterExt(s, p, q);
    }
  }

  /** The three-stage pipeline equals one filter by the conjunction `Keep`. */
  lemma SearchIsSingleFilter(all: seq<Doctor>, f: Filters)
    ensures HandleSearch(all, f) == Filter(all, d => Keep(f, d))
  {
    var p1 := (d: Doctor) => PassesQuery(f, d);
    var p2 := (d: Doctor) => PassesSpecialty(f, d);
    var p3 := (d: Doctor) => PassesRating(f, d);
    var p12 := (d: Doctor) => PassesQuery(f, d) && PassesSpecialty(f, d);
    var s1 := Filter(all, p1);
    StageIsFilter(all, f.query != "", (d: Doctor) => MatchesQuery(d, ToLower(f.query)), p1);
    var s2 := Filter(s1, p2);
    StageIsFilter(s1, f.specialty != "", (d: Doctor) => d.specialty == f.specialty, p2);
    StageIsFilter(s2, f.rating > 0, (d: Doctor) => d.rating >= f.rating, p3);
    FilterFilter(all, p1, p2, p12);
    FilterFilter(all, p12, p3, d => Keep(f, d));
  }

  /** The result is an order-preserving subsequence of the directory and
      holds exactly the doctors every active filter accepts. */
  lemma SearchResult(all: seq<Doctor>, f: Filters)
    ensures SubseqOf(HandleSearch(all, f), all)
    ensures forall i :: 0 <= i < |HandleSearch(all, f)| ==> Keep(f, HandleSearch(all, f)[i])
    ensures forall i :: 0 <= i < |all| && Keep(f, all[i]) ==> all[i] in HandleSearch(all, f)
  {
    SearchIsSingleFilter(all, f);
  }

  /** With no query, no specialty and rating 0 every doctor is returned, in
      order, whatever the availability and appointment types say. */
  lemma EmptyFiltersKeepAll(all: seq<Doctor>, availability: string, types: seq<string>)
    ensures HandleSearch(all, Filters("", "", availability, types, 0)) == all
  {
  }

  /** The availability and appointment-type fields never change the result. */
  lemma IgnoredFilters(all: seq<Doctor>, f: Filters, availability: string, types: seq<string>)
    ensures HandleSearch(all, f) == HandleSearch(all, f.(availability := availability, appointmentType := types))
  {
  }

  /** The lowercased query occurs somewhere in the lowercased field. */
  ghost predicate OccursIn(field: string, q: string)
  {
    exists i :: OccursAt(ToLower(field), q, i)
  }

  /** A non-empty query accepts a doctor iff the lowercased query occurs in
      the lowercased name, specialty, city or country. */
  lemma QueryFilterMeaning(f: Filters, d: Doctor)
    requires f.query != ""
    ensures PassesQuery(f, d) <==>
              (OccursIn(d.name, ToLower(f.query)) || OccursIn(d.specialty, ToLower(f.query))
               || OccursIn(d.city, ToLower(f.query)) || OccursIn(d.country, ToLower(f.query)))
  {
    var q := ToLower(f.query);
    ContainsIffOccurs(ToLower(d.name), q);
    ContainsIffOccurs(ToLower(d.specialty), q);
    ContainsIffOccurs(ToLower(d.city), q);
    ContainsIffOccurs(ToLower(d.country), q);
  }
}

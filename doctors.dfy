/** The doctor directory (server/src/routes/doctors.ts): the filtered listing sorted by rating,
    lookup by id, and the distinct specialties. The catalogue is the sequence of stored
    doctors; regular-expression filters are modelled as case-insensitive substring tests. */
module Doctors {
  import opened Wrappers
  import opened Http
  import opened Text
  import opened Sorting
  import opened DoctorModel

  /** The query string of GET /api/doctors; `None` for a parameter that is not given. */
  datatype DoctorQuery = DoctorQuery(specialty: Option<string>, available: Option<string>, search: Option<string>)

  /** The specialty filter is on for a non-empty parameter other than 'all'. */
  predicate SpecialtyFilterOn(q: DoctorQuery) {
    Truthy(q.specialty) && q.specialty.value != "all"
  }

  /** The availability filter is on only for the exact text 'true'. */
  predicate AvailableFilterOn(q: DoctorQuery) {
    q.available == Some("true")
  }

  predicate SearchFilterOn(q: DoctorQuery) {
    Truthy(q.search)
  }

  /** The conjunction of the filters that are on. */
  predicate Matches(d: Doctor, q: DoctorQuery) {
    && (SpecialtyFilterOn(q) ==> ContainsIgnoringCase(d.specialty, q.specialty.value))
    && (AvailableFilterOn(q) ==> d.available)
    && (SearchFilterOn(q) ==>
          ContainsIgnoringCase(d.name, q.search.value) || ContainsIgnoringCase(d.specialty, q.search.value))
  }

  /** The matching doctors, in catalogue order. */
  function Select(catalogue: seq<Doctor>, q: DoctorQuery): (r: seq<Doctor>)
    ensures forall d :: d in r <==> d in catalogue && Matches(d, q)
    ensures |r| <= |catalogue|
  {
    if catalogue == [] then []
    else (if Matches(catalogue[0], q) then [catalogue[0]] else []) + Select(catalogue[1..], q)
  }

  /** Each matching doctor is selected exactly as often as the catalogue holds it. */
  lemma {:induction false} SelectCounts(catalogue: seq<Doctor>, q: DoctorQuery)
    ensures forall d :: multiset(Select(catalogue, q))[d] == if Matches(d, q) then multiset(catalogue)[d] else 0
  {
    if catalogue != [] {
      assert catalogue == [catalogue[0]] + catalogue[1..];
      SelectCounts(catalogue[1..], q);
    }
  }

  /** Higher rating first. */
  function ByRatingDesc(): (le: (Doctor, Doctor) -> bool)
    ensures Total(le) && Transitive(le)
  {
    (a: Doctor, b: Doctor) => a.rating >= b.rating
  }

  /** GET /api/doctors: exactly the catalogue's matching doctors, each as often as in the
      catalogue, by non-increasing rating. */
  function ListDoctors(catalogue: seq<Doctor>, q: DoctorQuery): (r: seq<Doctor>)
    ensures forall d :: d in r <==> d in catalogue && Matches(d, q)
    ensures multiset(r) == multiset(Select(catalogue, q))
    ensures forall i, j :: 0 <= i < j < |r| ==> r[i].rating >= r[j].rating
  {
    var selected := Select(catalogue, q);
    var r := SortBy(selected, ByRatingDesc());
    SameElements(r, selected);
    AdjacentSortedIsSorted(r, ByRatingDesc());
    r
  }

  /** 'false', or any value other than 'true', leaves the availability filter off. */
  lemma {:induction false} AvailableOnlyForTrue(catalogue: seq<Doctor>, q: DoctorQuery)
    requires q.available != Some("true")
    ensures Select(catalogue, q) == Select(catalogue, q.(available := None))
  {
    if catalogue != [] {
      AvailableOnlyForTrue(catalogue[1..], q);
    }
  }

  /** 'all' and the empty text leave the specialty filter off. */
  lemma {:induction false} AllSpecialties(catalogue: seq<Doctor>, q: DoctorQuery)
    requires q.specialty == Some("all") || q.specialty == Some("")
    ensures Select(catalogue, q) == Select(catalogue, q.(specialty := None))
  {
    if catalogue != [] {
      AllSpecialties(catalogue[1..], q);
    }
  }

  /** Without any filter on, every doctor of the catalogue is listed. */
  lemma {:induction false} NoFilterSelectsAll(catalogue: seq<Doctor>, q: DoctorQuery)
    requires !SpecialtyFilterOn(q) && !AvailableFilterOn(q) && !SearchFilterOn(q)
    ensures Select(catalogue, q) == catalogue
  {
    if catalogue != [] {
      NoFilterSelectsAll(catalogue[1..], q);
    }
  }

  /** The first catalogue entry with the given id. */
  function FindDoctor(catalogue: seq<Doctor>, id: nat): (r: Option<Doctor>)
    ensures r.Some? ==> r.value in catalogue && r.value.id == id
    ensures r.None? ==> forall d :: d in catalogue ==> d.id != id
  {
    if catalogue == [] then None
    else if catalogue[0].id == id then Some(catalogue[0])
    else FindDoctor(catalogue[1..], id)
  }

  /** GET /api/doctors/:id: the doctor, or 404. */
  function GetDoctor(catalogue: seq<Doctor>, id: nat): (r: Reply<Doctor>)
    ensures r.Success? <==> exists d :: d in catalogue && d.id == id
    ensures r.Success? ==> r.status == 200 && r.data in catalogue && r.data.id == id
    ensures r.Failure? ==> r.status == 404 && r.error == "Doctor not found"
  {
    match FindDoctor(catalogue, id)
    case Some(d) => Success(200, d)
    case None => Failure(404, "Doctor not found")
  }

  predicate NoDuplicates<T(==)>(s: seq<T>) {
    forall i, j :: 0 <= i < j < |s| ==> s[i] != s[j]
  }

  /** The distinct specialties of `catalogue`, each once (in order of last occurrence). */
  function DistinctSpecialties(catalogue: seq<Doctor>): (r: seq<string>)
    ensures forall s :: s in r <==> exists d :: d in catalogue && d.specialty == s
    ensures NoDuplicates(r)
  {
    if catalogue == [] then []
    else
      var rest := DistinctSpecialties(catalogue[1..]);
      if catalogue[0].specialty in rest then rest else [catalogue[0].specialty] + rest
  }

  /** GET /api/doctors/meta/specialties. */
  function Specialties(catalogue: seq<Doctor>): (r: Reply<seq<string>>)
    ensures r.Success? && r.status == 200 && NoDuplicates(r.data)
    ensures forall s :: s in r.data <==> exists d :: d in catalogue && d.specialty == s
  {
    Success(200, DistinctSpecialties(catalogue))
  }
}

/** The medicine catalogue routes (server/src/routes/medicines.ts), as written: a search that
    picks its criteria (everything; MongoDB text search; or, when text search finds nothing,
    a case-insensitive match on the name), sorts the qualifying medicines by name and returns
    one page of them with the page count; and a lookup by id. Text-search relevance is the
    abstract predicate `textMatch`; the name match is the case-insensitive substring test that
    a pattern without metacharacters performs. */
module Medicines {
  import opened Wrappers
  import opened Text
  import opened Http
  import opened Sorting

  /** The fields of a catalogue document the routes read; the others are returned as
      stored. */
  datatype MedicineDoc = MedicineDoc(id: nat, name: string, description: string, composition: string)

  /** The query string: `query`, and `page` and `limit` as the numbers `Number()` makes of
      them; `None` is a parameter left out. */
  datatype PageQuery = PageQuery(query: Option<string>, page: Option<int>, limit: Option<int>)

  /** The filter handed to `find` and `countDocuments`. */
  datatype Criteria = Everything | TextSearch(terms: string) | NameMatch(pattern: string)

  /** The bare response body. `totalPages` is `None` where `Math.ceil` gives Infinity or
      NaN (a zero limit), which JSON writes as null. */
  datatype Page = Page(medicines: seq<MedicineDoc>, currentPage: int, totalPages: Option<int>, totalMedicines: nat)

  const DefaultPage := 1
  const DefaultLimit := 20
  const SearchError := "Server error fetching medicines"
  const DetailError := "Server error fetching medicine details"
  const NotFoundError := "Medicine not found"

  predicate Qualifies(d: MedicineDoc, c: Criteria, textMatch: (MedicineDoc, string) -> bool) {
    match c
    case Everything => true
    case TextSearch(q) => textMatch(d, q)
    case NameMatch(q) => ContainsIgnoringCase(d.name, q)
  }

  /** The documents a criteria value selects, in catalogue order. */
  function Select(catalogue: seq<MedicineDoc>, c: Criteria, textMatch: (MedicineDoc, string) -> bool): (r: seq<MedicineDoc>)
    ensures forall d :: d in r <==> d in catalogue && Qualifies(d, c, textMatch)
    ensures |r| <= |catalogue|
  {
    if catalogue == [] then []
    else (if Qualifies(catalogue[0], c, textMatch) then [catalogue[0]] else []) + Select(catalogue[1..], c, textMatch)
  }

  /** Each qualifying document is selected exactly as often as the catalogue holds it, so the
      length of the selection is the count of qualifying documents. */
  lemma {:induction false} SelectCounts(catalogue: seq<MedicineDoc>, c: Criteria, textMatch: (MedicineDoc, string) -> bool)
    ensures forall d :: multiset(Select(catalogue, c, textMatch))[d] == if Qualifies(d, c, textMatch) then multiset(catalogue)[d] else 0
  {
    if catalogue != [] {
      assert catalogue == [catalogue[0]] + catalogue[1..];
      SelectCounts(catalogue[1..], c, textMatch);
    }
  }

  /** The search handler's choice of criteria: no criteria without a (non-empty) query; text
      search for a query; the name match when text search counts nothing. The last branch
      cannot be taken: a query always makes the criteria non-empty. */
  function ChooseCriteria(catalogue: seq<MedicineDoc>, query: Option<string>, textMatch: (MedicineDoc, string) -> bool): (c: Criteria)
    ensures !Truthy(query) ==> c == Everything
    ensures Truthy(query) ==>
      && (c == TextSearch(query.value) <==> exists d :: d in catalogue && textMatch(d, query.value))
      && (c == NameMatch(query.value) <==> forall d :: d in catalogue ==> !textMatch(d, query.value))
  {
    var initial := if Truthy(query) then TextSearch(query.value) else Everything;
    if Truthy(query) && initial != Everything then
      var matched := Select(catalogue, initial, textMatch);
      if |matched| == 0 then NameMatch(query.value)
      else
        assert matched[0] in matched;
        initial
    else if Truthy(query) then
      assert false;
      Everything
    else initial
  }

  /** Name order, ascending. */
  function ByNameAsc(): (le: (MedicineDoc, MedicineDoc) -> bool)
    ensures Total(le) && Transitive(le)
  {
    StrLeTotalOrder();
    (a: MedicineDoc, b: MedicineDoc) => StrLe(a.name, b.name)
  }

  /** The qualifying documents in name order. */
  function Ranked(catalogue: seq<MedicineDoc>, c: Criteria, textMatch: (MedicineDoc, string) -> bool): (r: seq<MedicineDoc>)
    ensures multiset(r) == multiset(Select(catalogue, c, textMatch))
    ensures |r| == |Select(catalogue, c, textMatch)|
    ensures forall i, j :: 0 <= i < j < |r| ==> StrLe(r[i].name, r[j].name)
  {
    var r := SortBy(Select(catalogue, c, textMatch), ByNameAsc());
    AdjacentSortedIsSorted(r, ByNameAsc());
    assert |multiset(r)| == |multiset(Select(catalogue, c, textMatch))|;
    r
  }

  /** `Math.ceil(total / limit)`, or `None` for a zero limit. */
  function PageCount(total: nat, limit: int): (n: Option<int>)
    ensures n.None? <==> limit == 0
    ensures limit > 0 && total > 0 ==> n.value >= 1 && (n.value - 1) * limit < total <= n.value * limit
    ensures limit > 0 && total == 0 ==> n == Some(0)
  {
    if limit == 0 then None
    else if limit > 0 then
      var n := (total + limit - 1) / limit;
      CeilBounds(total, limit);
      Some(n)
    else Some(-(total / -limit))
  }

  lemma CeilBounds(total: nat, limit: int)
    requires limit > 0
    ensures var n := (total + limit - 1) / limit;
      (total > 0 ==> n >= 1 && (n - 1) * limit < total <= n * limit) && (total == 0 ==> n == 0)
  {
    var n := (total + limit - 1) / limit;
    var rem := (total + limit - 1) % limit;
    assert total + limit - 1 == n * limit + rem;
    assert 0 <= rem < limit;
    assert n * limit == total + limit - 1 - rem;
    assert (n - 1) * limit == n * limit - limit;
  }

  /** The positions a page covers: `skip` on, at most the limit (no limit for 0; MongoDB
      reads a negative limit as its absolute value). */
  function Window(s: seq<MedicineDoc>, skip: nat, limit: int): (w: seq<MedicineDoc>)
    ensures limit != 0 ==> |w| == if skip >= |s| then 0 else Min(|s| - skip, Abs(limit))
    ensures limit == 0 ==> |w| == if skip >= |s| then 0 else |s| - skip
    ensures skip <= |s| ==> w == s[skip..skip + |w|]
    ensures forall i :: 0 <= i < |w| ==> skip + i < |s| && w[i] == s[skip + i]
  {
    var rest := if skip >= |s| then [] else s[skip..];
    if limit == 0 then rest else Take(rest, Abs(limit))
  }

  function Abs(x: int): nat {
    if x < 0 then -x else x
  }

  function Min(a: nat, b: nat): nat {
    if a <= b then a else b
  }

  /** GET /api/medicines. A negative skip is refused by the database, and the handler's
      catch answers 500. */
  function Search(catalogue: seq<MedicineDoc>, q: PageQuery, textMatch: (MedicineDoc, string) -> bool): (r: Reply<Page>)
    ensures var page := q.page.GetOr(DefaultPage);
      var limit := q.limit.GetOr(DefaultLimit);
      var skip := (page - 1) * limit;
      var c := ChooseCriteria(catalogue, q.query, textMatch);
      && (r.Failure? <==> skip < 0)
      && (r.Failure? ==> r == Failure(500, SearchError))
      && (r.Success? ==>
           && r.status == 200
           && r.data.currentPage == page
           && r.data.totalMedicines == |Select(catalogue, c, textMatch)|
           && r.data.totalPages == PageCount(|Select(catalogue, c, textMatch)|, limit)
           && r.data.medicines == Window(Ranked(catalogue, c, textMatch), skip, limit))
  {
    var page := q.page.GetOr(DefaultPage);
    var limit := q.limit.GetOr(DefaultLimit);
    var skip := (page - 1) * limit;
    if skip < 0 then Failure(500, SearchError)
    else
      var c := ChooseCriteria(catalogue, q.query, textMatch);
      var total := |Select(catalogue, c, textMatch)|;
      Success(200, Page(Window(Ranked(catalogue, c, textMatch), skip, limit), page, PageCount(total, limit), total))
  }

  /** A page lists only catalogue medicines that meet the chosen criteria, in name order,
      and no more than a positive limit. */
  lemma PageContents(catalogue: seq<MedicineDoc>, q: PageQuery, textMatch: (MedicineDoc, string) -> bool)
    requires Search(catalogue, q, textMatch).Success?
    ensures var c := ChooseCriteria(catalogue, q.query, textMatch);
      var ms := Search(catalogue, q, textMatch).data.medicines;
      && (forall d :: d in ms ==> d in catalogue && Qualifies(d, c, textMatch))
      && (forall i, j :: 0 <= i < j < |ms| ==> StrLe(ms[i].name, ms[j].name))
      && (q.limit.GetOr(DefaultLimit) > 0 ==> |ms| <= q.limit.GetOr(DefaultLimit))
  {
    var c := ChooseCriteria(catalogue, q.query, textMatch);
    var limit := q.limit.GetOr(DefaultLimit);
    var skip := (q.page.GetOr(DefaultPage) - 1) * limit;
    var ranked := Ranked(catalogue, c, textMatch);
    RankedQualifies(catalogue, c, textMatch);
    WindowOfSorted(ranked, skip, limit);
  }

  /** The ranked list holds only catalogue medicines that meet the criteria. */
  lemma RankedQualifies(catalogue: seq<MedicineDoc>, c: Criteria, textMatch: (MedicineDoc, string) -> bool)
    ensures forall d :: d in Ranked(catalogue, c, textMatch) ==> d in catalogue && Qualifies(d, c, textMatch)
  {
    SameElements(Ranked(catalogue, c, textMatch), Select(catalogue, c, textMatch));
  }

  /** A window of a name-ordered list holds elements of the list, in name order, and no more
      than a positive limit. */
  lemma WindowOfSorted(s: seq<MedicineDoc>, skip: nat, limit: int)
    requires forall i, j :: 0 <= i < j < |s| ==> StrLe(s[i].name, s[j].name)
    ensures var w := Window(s, skip, limit);
      && (forall d :: d in w ==> d in s)
      && (forall i, j :: 0 <= i < j < |w| ==> StrLe(w[i].name, w[j].name))
      && (limit > 0 ==> |w| <= limit)
  {
    var w := Window(s, skip, limit);
    forall d | d in w
      ensures d in s
    {
      var i :| 0 <= i < |w| && w[i] == d;
      assert s[skip + i] == d;
    }
    forall i, j | 0 <= i < j < |w|
      ensures StrLe(w[i].name, w[j].name)
    {
      assert w[i] == s[skip + i] && w[j] == s[skip + j];
    }
  }

  /** An absent or empty query sets no criteria: every medicine qualifies. */
  lemma NoQuerySelectsAll(catalogue: seq<MedicineDoc>, query: Option<string>, textMatch: (MedicineDoc, string) -> bool)
    requires query.None? || query == Some("")
    ensures Select(catalogue, ChooseCriteria(catalogue, query, textMatch), textMatch) == catalogue
  {
    SelectEverything(catalogue, textMatch);
  }

  /** With no query and the default paging, the first page holds the first 20 medicines in
      name order, and the count is the whole catalogue. */
  lemma DefaultFirstPage(catalogue: seq<MedicineDoc>, textMatch: (MedicineDoc, string) -> bool)
    ensures var r := Search(catalogue, PageQuery(None, None, None), textMatch);
      && r.Success? && r.data.currentPage == 1 && r.data.totalMedicines == |catalogue|
      && r.data.medicines == Take(Ranked(catalogue, Everything, textMatch), 20)
  {
    SelectEverything(catalogue, textMatch);
  }

  lemma {:induction false} SelectEverything(catalogue: seq<MedicineDoc>, textMatch: (MedicineDoc, string) -> bool)
    ensures Select(catalogue, Everything, textMatch) == catalogue
  {
    if catalogue != [] {
      SelectEverything(catalogue[1..], textMatch);
      assert catalogue == [catalogue[0]] + catalogue[1..];
    }
  }

  /** With a positive limit, page `page` holds at offset `k` the element at position
      `(page - 1) * limit + k` of the ranked list, and that page is within the page count:
      the pages cut the ranked list into consecutive runs of `limit`. */
  lemma PageHolds(ranked: seq<MedicineDoc>, page: int, limit: int, k: nat)
    requires limit > 0 && page >= 1 && k < limit && (page - 1) * limit + k < |ranked|
    ensures (page - 1) * limit >= 0
    ensures var w := Window(ranked, (page - 1) * limit, limit);
      k < |w| && w[k] == ranked[(page - 1) * limit + k]
    ensures page <= PageCount(|ranked|, limit).value
  {
    var n := PageCount(|ranked|, limit).value;
    MulMonotone(0, page - 1, limit);
    MulLtCancel(page - 1, n, limit);
  }

  lemma MulMonotone(a: int, b: int, k: nat)
    requires a <= b
    ensures a * k <= b * k
  {
  }

  /** `a * k < b * k` with `k` positive means `a < b`. */
  lemma MulLtCancel(a: int, b: int, k: int)
    requires k > 0
    ensures a * k < b * k ==> a < b
  {
    if a >= b {
      assert a * k - b * k == (a - b) * k;
    }
  }

  /** `Medicine.findById` on an id that casts. */
  function FindMedicine(catalogue: seq<MedicineDoc>, id: nat): (r: Option<MedicineDoc>)
    ensures r.Some? ==> r.value in catalogue && r.value.id == id
    ensures r.None? ==> forall d :: d in catalogue ==> d.id != id
  {
    if catalogue == [] then None
    else if catalogue[0].id == id then Some(catalogue[0])
    else FindMedicine(catalogue[1..], id)
  }

  /** GET /api/medicines/:id; `id` is `None` for a path segment that is not an ObjectId, on
      which `findById` throws and the handler's own catch answers 500. */
  function GetMedicine(catalogue: seq<MedicineDoc>, id: Option<nat>): (r: Reply<MedicineDoc>)
    ensures id.None? ==> r == Failure(500, DetailError)
    ensures id.Some? ==> (r.Success? <==> exists d :: d in catalogue && d.id == id.value)
    ensures r.Success? ==> r.status == 200 && r.data in catalogue && id == Some(r.data.id)
    ensures id.Some? && r.Failure? ==> r == Failure(404, NotFoundError)
  {
    match id
    case None => Failure(500, DetailError)
    case Some(k) =>
      match FindMedicine(catalogue, k)
      case None => Failure(404, NotFoundError)
      case Some(d) => Success(200, d)
  }
}

/** The patient search: optional substring filters on first name and email,
    combined with AND, ordered newest first, paged, and counted with the same
    predicate. The filter's last name is carried but never used. */
module PatientRepositoryImpl {
  import opened Wrappers
  import opened Text
  import opened Criteria
  import Paging
  import opened PatientModel

  datatype Column = FirstName | Email

  /** `lower(column) LIKE pattern` on one patient column. */
  datatype Criterion = Like(column: Column, pattern: string)

  function ColumnValue(p: Patient, c: Column): Option<string> {
    match c
    case FirstName => p.firstName
    case Email => p.email
  }

  predicate Holds(c: Criterion, p: Patient) {
    LikeLower(ColumnValue(p, c.column), c.pattern)
  }

  /** The WHERE clause as a formula: each present field constrains its column. */
  predicate Matches(f: PatientFilter, p: Patient) {
    FirstNameMatches(f, p) && EmailMatches(f, p)
  }

  predicate FirstNameMatches(f: PatientFilter, p: Patient) {
    f.firstName.Some? ==> LikeLower(p.firstName, ContainsPattern(f.firstName.value))
  }

  predicate EmailMatches(f: PatientFilter, p: Patient) {
    f.email.Some? ==> LikeLower(p.email, ContainsPattern(f.email.value))
  }

  function Matcher(f: PatientFilter): Patient -> bool {
    p => Matches(f, p)
  }

  /** Collect one criterion per present filter field, in the order of the source. */
  method GetPredicate(criteria: PatientFilter) returns (predicates: seq<Criterion>)
    ensures forall p :: Conjunction(predicates, Holds, p) <==> Matches(criteria, p)
  {
    predicates := [];
    if criteria.firstName.Some? {
      predicates := Add(predicates, Holds, Like(FirstName, ContainsPattern(criteria.firstName.value)));
    }
    if criteria.email.Some? {
      predicates := Add(predicates, Holds, Like(Email, ContainsPattern(criteria.email.value)));
    }
  }

  /** The count query: the number of patients the same predicate admits. */
  method GetPatientsCount(rows: seq<Patient>, criteria: PatientFilter) returns (total: nat)
    ensures total == Paging.Count(rows, Matcher(criteria))
  {
    var countPredicate := GetPredicate(criteria);
    Paging.SelectAgree(rows, p => Conjunction(countPredicate, Holds, p), Matcher(criteria));
    return Paging.Count(rows, p => Conjunction(countPredicate, Holds, p));
  }

  /** Filter, order by createdAt descending, cut out the page, and count. */
  method FindAllWithFilters(rows: seq<Patient>, filter: PatientFilter) returns (r: Result<Paging.Page<Patient>>)
    ensures r.Ok? <==> Paging.ValidPaging(filter.page)
    ensures !Paging.ValidPaging(filter.page) ==> r == Paging.PageableError(filter.page)
    ensures r.Ok? ==> r.value == Paging.Query(rows, Matcher(filter), CreatedAt, filter.page)
  {
    var criteria := GetPredicate(filter);
    var pageable :- Paging.GetPageable(filter.page);
    var matches := p => Conjunction(criteria, Holds, p);
    var ordered := Paging.OrderByNewest(Paging.Select(rows, matches), CreatedAt);
    var result := Paging.Slice(ordered, Paging.Offset(filter.page), filter.page.pageSize);
    var total := GetPatientsCount(rows, filter);
    Paging.SelectAgree(rows, matches, Matcher(filter));
    return Ok(Paging.Page(result, filter.page.pageNumber, filter.page.pageSize, total));
  }

  /** No field of the filter contains a LIKE wildcard. */
  predicate PlainFilter(f: PatientFilter) {
    && (f.firstName.Some? ==> NoWildcards(f.firstName.value))
    && (f.email.Some? ==> NoWildcards(f.email.value))
  }

  /** With plain filter values, the search keeps exactly the patients whose
      first name and email contain the present values, ignoring case. */
  lemma MatchesMeans(f: PatientFilter, p: Patient)
    requires PlainFilter(f)
    ensures Matches(f, p) <==>
      && (f.firstName.Some? ==>
            p.firstName.Some? && Contains(ToLower(p.firstName.value), ToLower(f.firstName.value)))
      && (f.email.Some? ==>
            p.email.Some? && Contains(ToLower(p.email.value), ToLower(f.email.value)))
  {
    if f.firstName.Some? {
      ContainsPatternMeans(p.firstName, f.firstName.value);
    }
    if f.email.Some? {
      ContainsPatternMeans(p.email, f.email.value);
    }
  }

  /** The filter's last name never changes the page or the count. */
  lemma LastNameIgnored(rows: seq<Patient>, f: PatientFilter, lastName: Option<string>)
    requires Paging.ValidPaging(f.page)
    ensures Paging.Query(rows, Matcher(f), CreatedAt, f.page) ==
            Paging.Query(rows, Matcher(f.(lastName := lastName)), CreatedAt, f.page)
  {
    Paging.QueryAgree(rows, Matcher(f), Matcher(f.(lastName := lastName)), CreatedAt, f.page);
  }

  /** A filter with no search field admits every patient. */
  lemma EmptyFilterMatchesAll(f: PatientFilter, rows: seq<Patient>)
    requires f.firstName.None? && f.email.None?
    ensures Paging.Select(rows, Matcher(f)) == rows
  {
    Paging.SelectAll(rows, Matcher(f));
  }

  /** The email filter is a substring test, not equality: any email with
      the value inside it passes, whatever the case of either. */
  lemma EmailSubstringMatches(f: PatientFilter, p: Patient, before: string, after: string)
    requires f.firstName.None? && f.email.Some? && NoWildcards(f.email.value)
    requires p.email == Some(before + f.email.value + after)
    ensures Matches(f, p)
  {
    MatchesMeans(f, p);
    ToLowerAppend(before + f.email.value, after);
    ToLowerAppend(before, f.email.value);
    ContainsMiddle(ToLower(before), ToLower(f.email.value), ToLower(after));
  }
}

/** The doctor search: optional substring filters on first name, last name,
    email and speciality description, combined with AND, ordered newest first,
    paged, and counted with the same predicate. */
module DoctorRepositoryImpl {
  import opened Wrappers
  import opened Text
  import opened Criteria
  import Paging
  import opened DoctorModel

  datatype Column = FirstName | LastName | Email | SpecialityDescription

  /** `lower(column) LIKE pattern` on one doctor column. */
  datatype Criterion = Like(column: Column, pattern: string)

  /** The description reached through the inner join on `speciality`: a doctor
      without a speciality has no joined row, which filters like NULL. */
  function SpecialityDescriptionOf(d: Doctor): Option<string> {
    if d.speciality.None? then None else d.speciality.value.description
  }

  function ColumnValue(d: Doctor, c: Column): Option<string> {
    match c
    case FirstName => d.firstName
    case LastName => d.lastName
    case Email => d.email
    case SpecialityDescription => SpecialityDescriptionOf(d)
  }

  predicate Holds(c: Criterion, d: Doctor) {
    LikeLower(ColumnValue(d, c.column), c.pattern)
  }

  /** The last-name criterion reads the filter's first name, so a filter with
      a last name and no first name dereferences null. */
  predicate PredicateThrows(f: DoctorFilter) {
    f.lastName.Some? && f.firstName.None?
  }

  /** The WHERE clause as a formula: each present field constrains one column;
      the last-name column is matched against the first-name value. */
  predicate Matches(f: DoctorFilter, d: Doctor) {
    FirstNameMatches(f, d) && LastNameMatches(f, d) && EmailMatches(f, d) && SpecialityMatches(f, d)
  }

  predicate FirstNameMatches(f: DoctorFilter, d: Doctor) {
    f.firstName.Some? ==> LikeLower(d.firstName, ContainsPattern(f.firstName.value))
  }

  predicate LastNameMatches(f: DoctorFilter, d: Doctor) {
    f.lastName.Some? && f.firstName.Some? ==> LikeLower(d.lastName, ContainsPattern(f.firstName.value))
  }

  predicate EmailMatches(f: DoctorFilter, d: Doctor) {
    f.email.Some? ==> LikeLower(d.email, ContainsPattern(f.email.value))
  }

  predicate SpecialityMatches(f: DoctorFilter, d: Doctor) {
    f.speciality.Some? ==> LikeLower(SpecialityDescriptionOf(d), ContainsPattern(f.speciality.value))
  }

  function Matcher(f: DoctorFilter): Doctor -> bool {
    d => Matches(f, d)
  }

  /** Collect one criterion per present filter field, in the order of the
      source; throw where the source dereferences a null first name. */
  method GetPredicate(criteria: DoctorFilter) returns (r: Result<seq<Criterion>>)
    ensures r.InternalError? <==> PredicateThrows(criteria)
    ensures !PredicateThrows(criteria) ==> r.Ok?
    ensures r.Ok? ==> forall d :: Conjunction(r.value, Holds, d) <==> Matches(criteria, d)
  {
    var predicates :- AddNameCriteria(criteria);
    predicates := AddContactCriteria(predicates, criteria);
    return Ok(predicates);
  }

  /** The first two steps of `GetPredicate`: the first-name criterion, then
      the last-name criterion, which reads the first-name value. */
  method AddNameCriteria(criteria: DoctorFilter) returns (r: Result<seq<Criterion>>)
    ensures r.InternalError? <==> PredicateThrows(criteria)
    ensures !PredicateThrows(criteria) ==> r.Ok?
    ensures r.Ok? ==> forall d :: Conjunction(r.value, Holds, d) <==>
                        FirstNameMatches(criteria, d) && LastNameMatches(criteria, d)
  {
    var predicates: seq<Criterion> := [];
    if criteria.firstName.Some? {
      predicates := Add(predicates, Holds, Like(FirstName, ContainsPattern(criteria.firstName.value)));
    }
    assert forall d :: Conjunction(predicates, Holds, d) <==> FirstNameMatches(criteria, d);
    if criteria.lastName.Some? {
      if criteria.firstName.None? {
        return InternalError("NullPointerException: the filter's first name is null");
      }
      predicates := Add(predicates, Holds, Like(LastName, ContainsPattern(criteria.firstName.value)));
    }
    return Ok(predicates);
  }

  /** The last two steps of `GetPredicate`: the email and the speciality criteria. */
  method AddContactCriteria(predicates: seq<Criterion>, criteria: DoctorFilter) returns (r: seq<Criterion>)
    ensures forall d :: Conjunction(r, Holds, d) <==>
              Conjunction(predicates, Holds, d) && EmailMatches(criteria, d) && SpecialityMatches(criteria, d)
  {
    r := predicates;
    if criteria.email.Some? {
      r := Add(r, Holds, Like(Email, ContainsPattern(criteria.email.value)));
    }
    assert forall d :: Conjunction(r, Holds, d) <==> Conjunction(predicates, Holds, d) && EmailMatches(criteria, d);
    if criteria.speciality.Some? {
      r := Add(r, Holds, Like(SpecialityDescription, ContainsPattern(criteria.speciality.value)));
    }
  }

  /** The count query: the number of doctors the same predicate admits. */
  method GetDoctorsCount(rows: seq<Doctor>, criteria: DoctorFilter) returns (r: Result<nat>)
    ensures r.InternalError? <==> PredicateThrows(criteria)
    ensures !PredicateThrows(criteria) ==> r == Ok(Paging.Count(rows, Matcher(criteria)))
  {
    var countPredicate :- GetPredicate(criteria);
    Paging.SelectAgree(rows, d => Conjunction(countPredicate, Holds, d), Matcher(criteria));
    return Ok(Paging.Count(rows, d => Conjunction(countPredicate, Holds, d)));
  }

  /** Filter, order by createdAt descending, cut out the page, and count. */
  method FindAllWithFilters(rows: seq<Doctor>, filter: DoctorFilter) returns (r: Result<Paging.Page<Doctor>>)
    ensures r.InternalError? <==> PredicateThrows(filter) || !Paging.ValidPaging(filter.page)
    ensures !PredicateThrows(filter) && !Paging.ValidPaging(filter.page) ==>
              r == Paging.PageableError(filter.page)
    ensures !PredicateThrows(filter) && Paging.ValidPaging(filter.page) ==>
              r == Ok(Paging.Query(rows, Matcher(filter), CreatedAt, filter.page))
  {
    var criteria :- GetPredicate(filter);
    var pageable :- Paging.GetPageable(filter.page);
    var p := d => Conjunction(criteria, Holds, d);
    var ordered := Paging.OrderByNewest(Paging.Select(rows, p), CreatedAt);
    var result := Paging.Slice(ordered, Paging.Offset(filter.page), filter.page.pageSize);
    var total := GetDoctorsCount(rows, filter);
    Paging.SelectAgree(rows, p, Matcher(filter));
    return Ok(Paging.Page(result, filter.page.pageNumber, filter.page.pageSize, total.value));
  }

  /** No field of the filter contains a LIKE wildcard. */
  predicate PlainFilter(f: DoctorFilter) {
    && (f.firstName.Some? ==> NoWildcards(f.firstName.value))
    && (f.lastName.Some? ==> NoWildcards(f.lastName.value))
    && (f.email.Some? ==> NoWildcards(f.email.value))
    && (f.speciality.Some? ==> NoWildcards(f.speciality.value))
  }

  /** `column` is present and contains `value`, ignoring case. */
  predicate ContainsIgnoringCase(column: Option<string>, value: string) {
    column.Some? && Contains(ToLower(column.value), ToLower(value))
  }

  /** With plain filter values, the search keeps exactly the doctors whose
      columns contain the present values, ignoring case; the last name is
      compared with the first-name value; a doctor without a speciality
      never passes a speciality filter. */
  lemma MatchesMeans(f: DoctorFilter, d: Doctor)
    requires PlainFilter(f)
    ensures Matches(f, d) <==>
      && (f.firstName.Some? ==> ContainsIgnoringCase(d.firstName, f.firstName.value))
      && (f.lastName.Some? && f.firstName.Some? ==> ContainsIgnoringCase(d.lastName, f.firstName.value))
      && (f.email.Some? ==> ContainsIgnoringCase(d.email, f.email.value))
      && (f.speciality.Some? ==>
            d.speciality.Some? && ContainsIgnoringCase(d.speciality.value.description, f.speciality.value))
  {
    if f.firstName.Some? {
      ContainsPatternMeans(d.firstName, f.firstName.value);
      ContainsPatternMeans(d.lastName, f.firstName.value);
    }
    if f.email.Some? {
      ContainsPatternMeans(d.email, f.email.value);
    }
    if f.speciality.Some? {
      ContainsPatternMeans(SpecialityDescriptionOf(d), f.speciality.value);
    }
  }

  /** The email filter is a substring test, not equality: any email with the
      value inside it passes, whatever the case of either. */
  lemma EmailSubstringMatches(f: DoctorFilter, d: Doctor, before: string, after: string)
    requires f.firstName.None? && f.lastName.None? && f.speciality.None?
    requires f.email.Some? && NoWildcards(f.email.value)
    requires d.email == Some(before + f.email.value + after)
    ensures Matches(f, d)
  {
    ContainsPatternMeans(d.email, f.email.value);
    ToLowerAppend(before + f.email.value, after);
    ToLowerAppend(before, f.email.value);
    ContainsMiddle(ToLower(before), ToLower(f.email.value), ToLower(after));
  }

  /** A filter with no search field admits every doctor. */
  lemma EmptyFilterMatchesAll(f: DoctorFilter, rows: seq<Doctor>)
    requires f.firstName.None? && f.lastName.None? && f.email.None? && f.speciality.None?
    ensures Paging.Select(rows, Matcher(f)) == rows
  {
    Paging.SelectAll(rows, Matcher(f));
  }

  /** A speciality filter drops every doctor without a speciality (inner join). */
  lemma SpecialityFilterNeedsSpeciality(f: DoctorFilter, d: Doctor)
    requires f.speciality.Some? && d.speciality.None?
    ensures !Matches(f, d)
  {
  }

  /** As written, the value of the last-name field is never read: any two
      last-name values give the same result. */
  lemma LastNameValueIgnored(f: DoctorFilter, d: Doctor, other: string)
    requires f.lastName.Some?
    ensures Matches(f, d) == Matches(f.(lastName := Some(other)), d)
    ensures PredicateThrows(f) == PredicateThrows(f.(lastName := Some(other)))
  {
  }

  function ExampleDoctor(firstName: string, lastName: string, createdAt: int): Doctor {
    Doctor(None, Some(firstName), Some(lastName), Some("Dr."), None,
           Some(firstName + "@clinic.example"), None, Some("Primary Care"), Some(createdAt))
  }

  function FirstNameFilter(value: string): DoctorFilter {
    DoctorFilter(Paging.DefaultPaging, Some(value), None, None, None)
  }

  /** "John" finds John and Johnny, whatever the case, but not Jane. */
  lemma FirstNameExample()
    ensures Matches(FirstNameFilter("John"), ExampleDoctor("John", "Foreman", 1))
    ensures Matches(FirstNameFilter("John"), ExampleDoctor("JOHNNY", "Cash", 2))
    ensures !Matches(FirstNameFilter("John"), ExampleDoctor("Jane", "Doe", 3))
  {
    var f := FirstNameFilter("John");
    assert PlainFilter(f);
    assert ToLower("John") == "john";
    assert ToLower("JOHNNY") == "" + "john" + "ny";
    assert ToLower("Jane") == "jane";
    MatchesMeans(f, ExampleDoctor("John", "Foreman", 1));
    MatchesMeans(f, ExampleDoctor("JOHNNY", "Cash", 2));
    MatchesMeans(f, ExampleDoctor("Jane", "Doe", 3));
    ContainsMiddle("", "john", "");
    assert "" + "john" + "" == "john";
    ContainsMiddle("", "john", "ny");
    assert !IsPrefix("john", "jane");
    ContainsNeedsRoom("ane", "john");
  }

  /** Three doctors, page 0 of size 2: two on the page, three in total, and
      page 1 holds the last one. */
  lemma PagingExample(f: DoctorFilter)
    requires f.firstName.None? && f.lastName.None? && f.email.None? && f.speciality.None?
    requires f.page.pageSize == 2 && Paging.HasText(f.page.sortBy)
    ensures var rows := [ExampleDoctor("A", "A", 1), ExampleDoctor("B", "B", 2), ExampleDoctor("C", "C", 3)];
      && |Paging.Query(rows, Matcher(f), CreatedAt, f.page.(pageNumber := 0)).content| == 2
      && Paging.Query(rows, Matcher(f), CreatedAt, f.page.(pageNumber := 0)).totalElements == 3
      && |Paging.Query(rows, Matcher(f), CreatedAt, f.page.(pageNumber := 1)).content| == 1
  {
    var rows := [ExampleDoctor("A", "A", 1), ExampleDoctor("B", "B", 2), ExampleDoctor("C", "C", 3)];
    EmptyFilterMatchesAll(f, rows);
    Paging.OrderedMatchesLength(rows, Matcher(f), CreatedAt);
    Paging.OffsetIsProduct(f.page.(pageNumber := 0));
    Paging.OffsetIsProduct(f.page.(pageNumber := 1));
  }

  /** The evidently intended WHERE clause: the last-name column is matched
      against the last-name value. */
  predicate IntendedMatches(f: DoctorFilter, d: Doctor) {
    && FirstNameMatches(f, d)
    && (f.lastName.Some? ==> LikeLower(d.lastName, ContainsPattern(f.lastName.value)))
    && EmailMatches(f, d)
    && SpecialityMatches(f, d)
  }

  /** Every string contains itself. */
  lemma ContainsItself(s: string)
    ensures Contains(s, s)
  {
    ContainsMiddle("", s, "");
    assert "" + s + "" == s;
  }

  /** As written, searching for a doctor by their own first and last name
      misses them whenever the last name is shorter than the first name,
      because the last-name column is tested against the first-name value;
      the intended search finds them. */
  lemma {:induction false} LastNameQuirk(f: DoctorFilter, d: Doctor)
    requires PlainFilter(f) && f.email.None? && f.speciality.None?
    requires f.firstName.Some? && f.lastName.Some?
    requires d.firstName == f.firstName && d.lastName == f.lastName
    requires |f.lastName.value| < |f.firstName.value|
    ensures !Matches(f, d) && IntendedMatches(f, d)
  {
    MatchesMeans(f, d);
    IntendedMatchesMeans(f, d);
    ContainsNeedsRoom(ToLower(f.lastName.value), ToLower(f.firstName.value));
    ContainsItself(ToLower(f.firstName.value));
    ContainsItself(ToLower(f.lastName.value));
  }

  /** Dr. Gregory House is not found by first name "Gregory" and last name
      "House", and a last name without a first name throws. */
  lemma LastNameQuirkExample()
    ensures var f := DoctorFilter(Paging.DefaultPaging, Some("Gregory"), Some("House"), None, None);
      var d := ExampleDoctor("Gregory", "House", 1);
      !Matches(f, d) && IntendedMatches(f, d)
    ensures PredicateThrows(DoctorFilter(Paging.DefaultPaging, None, Some("House"), None, None))
  {
    var f := DoctorFilter(Paging.DefaultPaging, Some("Gregory"), Some("House"), None, None);
    assert PlainFilter(f);
    LastNameQuirk(f, ExampleDoctor("Gregory", "House", 1));
  }

  /** The corrected builder: it reads the last-name value for the last-name
      criterion, so it never throws. */
  method IntendedGetPredicate(criteria: DoctorFilter) returns (predicates: seq<Criterion>)
    ensures forall d :: Conjunction(predicates, Holds, d) <==> IntendedMatches(criteria, d)
  {
    predicates := [];
    if criteria.firstName.Some? {
      predicates := Add(predicates, Holds, Like(FirstName, ContainsPattern(criteria.firstName.value)));
    }
    assert forall d :: Conjunction(predicates, Holds, d) <==> FirstNameMatches(criteria, d);
    if criteria.lastName.Some? {
      predicates := Add(predicates, Holds, Like(LastName, ContainsPattern(criteria.lastName.value)));
    }
    predicates := AddContactCriteria(predicates, criteria);
  }

  /** With plain values, the corrected search tests each present value
      against its own column. */
  lemma IntendedMatchesMeans(f: DoctorFilter, d: Doctor)
    requires PlainFilter(f)
    ensures IntendedMatches(f, d) <==>
      && (f.firstName.Some? ==> ContainsIgnoringCase(d.firstName, f.firstName.value))
      && (f.lastName.Some? ==> ContainsIgnoringCase(d.lastName, f.lastName.value))
      && (f.email.Some? ==> ContainsIgnoringCase(d.email, f.email.value))
      && (f.speciality.Some? ==>
            d.speciality.Some? && ContainsIgnoringCase(d.speciality.value.description, f.speciality.value))
  {
    if f.firstName.Some? {
      ContainsPatternMeans(d.firstName, f.firstName.value);
    }
    if f.lastName.Some? {
      ContainsPatternMeans(d.lastName, f.lastName.value);
    }
    if f.email.Some? {
      ContainsPatternMeans(d.email, f.email.value);
    }
    if f.speciality.Some? {
      ContainsPatternMeans(SpecialityDescriptionOf(d), f.speciality.value);
    }
  }
}

/** The appointment search of one patient: the patient's own appointments,
    narrowed by optional start date, end date, doctor and status, ordered
    newest first, paged, and counted with the same predicate. */
module AppointmentRepositoryImpl {
  import opened Wrappers
  import opened Criteria
  import Paging
  import Time
  import opened AppointmentModel

  /** One comparison in the WHERE clause. */
  datatype Criterion =
    | PatientIs(patientId: int)
    | StartsFrom(start: int)
    | EndsBy(end: int)
    | DoctorIs(doctorId: int)
    | StatusIs(status: AppointmentStatus)

  /** A comparison against a NULL column is never true. */
  predicate Holds(c: Criterion, a: Appointment) {
    match c
    case PatientIs(id) => PatientIdOf(a) == Some(id)
    case StartsFrom(t) => a.startTime.Some? && a.startTime.value >= t
    case EndsBy(t) => a.endTime.Some? && a.endTime.value <= t
    case DoctorIs(id) => DoctorIdOf(a) == Some(id)
    case StatusIs(s) => a.status == Some(s)
  }

  /** The WHERE clause as a formula: the patient always, then each present field. */
  predicate Matches(patientId: int, f: AppointmentFilter, a: Appointment) {
    && PatientIdOf(a) == Some(patientId)
    && StartDateMatches(f, a)
    && EndDateMatches(f, a)
    && DoctorMatches(f, a)
    && StatusMatches(f, a)
  }

  predicate DoctorMatches(f: AppointmentFilter, a: Appointment) {
    f.doctorId.Some? ==> DoctorIdOf(a) == f.doctorId
  }

  predicate StatusMatches(f: AppointmentFilter, a: Appointment) {
    f.status.Some? ==> a.status == f.status
  }

  predicate StartDateMatches(f: AppointmentFilter, a: Appointment) {
    f.startDate.Some? ==> a.startTime.Some? && a.startTime.value >= Time.AtStartOfDay(f.startDate.value)
  }

  predicate EndDateMatches(f: AppointmentFilter, a: Appointment) {
    f.endDate.Some? ==> a.endTime.Some? && a.endTime.value <= Time.AtEndOfDay(f.endDate.value)
  }

  function Matcher(patientId: int, f: AppointmentFilter): Appointment -> bool {
    a => Matches(patientId, f, a)
  }

  /** Collect the patient criterion and one criterion per present filter
      field, in the order of the source. The filter's own patient id is not read. */
  method GetPredicate(patientId: int, criteria: AppointmentFilter) returns (predicates: seq<Criterion>)
    ensures |predicates| >= 1 && predicates[0] == PatientIs(patientId)
    ensures forall a :: Conjunction(predicates, Holds, a) <==> Matches(patientId, criteria, a)
  {
    predicates := Add([], Holds, PatientIs(patientId));
    predicates := AddDateRange(predicates, criteria);
    if criteria.doctorId.Some? {
      predicates := Add(predicates, Holds, DoctorIs(criteria.doctorId.value));
    }
    if criteria.status.Some? {
      predicates := Add(predicates, Holds, StatusIs(criteria.status.value));
    }
  }

  /** The start date admits appointments starting at or after its first
      instant; the end date those ending at or before its last instant. */
  method AddDateRange(predicates: seq<Criterion>, criteria: AppointmentFilter) returns (r: seq<Criterion>)
    ensures |r| >= |predicates| && r[..|predicates|] == predicates
    ensures forall a :: Conjunction(r, Holds, a) <==>
      Conjunction(predicates, Holds, a) && StartDateMatches(criteria, a) && EndDateMatches(criteria, a)
  {
    r := predicates;
    if criteria.startDate.Some? {
      var start := Time.AtStartOfDay(criteria.startDate.value);
      r := Add(r, Holds, StartsFrom(start));
    }
    if criteria.endDate.Some? {
      var end := Time.AtEndOfDay(criteria.endDate.value);
      r := Add(r, Holds, EndsBy(end));
    }
  }

  /** The count query: the number of appointments the same predicate admits. */
  method GetRecordsCount(rows: seq<Appointment>, patientId: int, criteria: AppointmentFilter) returns (total: nat)
    ensures total == Paging.Count(rows, Matcher(patientId, criteria))
  {
    var countPredicate := GetPredicate(patientId, criteria);
    Paging.SelectAgree(rows, a => Conjunction(countPredicate, Holds, a), Matcher(patientId, criteria));
    return Paging.Count(rows, a => Conjunction(countPredicate, Holds, a));
  }

  /** Filter, order by createdAt descending, cut out the page, and count. */
  method FindAllWithFilters(rows: seq<Appointment>, patientId: int, filter: AppointmentFilter)
    returns (r: Result<Paging.Page<Appointment>>)
    ensures r.Ok? <==> Paging.ValidPaging(filter.page)
    ensures !Paging.ValidPaging(filter.page) ==> r == Paging.PageableError(filter.page)
    ensures r.Ok? ==> r.value == Paging.Query(rows, Matcher(patientId, filter), CreatedAt, filter.page)
  {
    var criteria := GetPredicate(patientId, filter);
    var pageable :- Paging.GetPageable(filter.page);
    var matches := a => Conjunction(criteria, Holds, a);
    var ordered := Paging.OrderByNewest(Paging.Select(rows, matches), CreatedAt);
    var result := Paging.Slice(ordered, Paging.Offset(filter.page), filter.page.pageSize);
    var total := GetRecordsCount(rows, patientId, filter);
    Paging.SelectAgree(rows, matches, Matcher(patientId, filter));
    return Ok(Paging.Page(result, filter.page.pageNumber, filter.page.pageSize, total));
  }

  /** Every appointment on a page, and every counted one, belongs to the
      patient asked for, whatever the filter says. */
  lemma ScopedToPatient(rows: seq<Appointment>, patientId: int, f: AppointmentFilter)
    requires Paging.ValidPaging(f.page)
    ensures var q := Paging.Query(rows, Matcher(patientId, f), CreatedAt, f.page);
      forall i :: 0 <= i < |q.content| ==> PatientIdOf(q.content[i]) == Some(patientId)
    ensures var counted := Paging.Select(rows, Matcher(patientId, f));
      forall i :: 0 <= i < |counted| ==> PatientIdOf(counted[i]) == Some(patientId)
  {
    Paging.QueryMembers(rows, Matcher(patientId, f), CreatedAt, f.page);
  }

  /** The filter's own patient id is ignored in favour of the argument. */
  lemma FilterPatientIdIgnored(rows: seq<Appointment>, patientId: int, f: AppointmentFilter, other: Option<int>)
    requires Paging.ValidPaging(f.page)
    ensures Paging.Query(rows, Matcher(patientId, f), CreatedAt, f.page) ==
            Paging.Query(rows, Matcher(patientId, f.(patientId := other)), CreatedAt, f.page)
  {
    Paging.QueryAgree(rows, Matcher(patientId, f), Matcher(patientId, f.(patientId := other)), CreatedAt, f.page);
  }

  /** The date bounds are inclusive whole days: the start falls on or after
      the start date and the end on or before the end date. */
  lemma DateBoundsAreWholeDays(f: AppointmentFilter, a: Appointment)
    requires a.startTime.Some? && a.endTime.Some?
    ensures f.startDate.Some? ==>
      (StartDateMatches(f, a) <==> Time.DateOf(a.startTime.value) >= f.startDate.value)
    ensures f.endDate.Some? ==>
      (EndDateMatches(f, a) <==> Time.DateOf(a.endTime.value) <= f.endDate.value)
  {
    if f.startDate.Some? {
      Time.StartOfDayBound(f.startDate.value, a.startTime.value);
    }
    if f.endDate.Some? {
      Time.EndOfDayBound(f.endDate.value, a.endTime.value);
    }
  }

  /** With no optional field, the search returns every appointment of the patient. */
  lemma EmptyFilterKeepsPatient(f: AppointmentFilter, patientId: int, a: Appointment)
    requires f.startDate.None? && f.endDate.None? && f.doctorId.None? && f.status.None?
    ensures Matches(patientId, f, a) <==> PatientIdOf(a) == Some(patientId)
  {
  }

  /** Each present field narrows the search: adding one never admits more appointments. */
  lemma FieldsOnlyNarrow(rows: seq<Appointment>, patientId: int, f: AppointmentFilter, g: AppointmentFilter)
    requires f.startDate.None? || f.startDate == g.startDate
    requires f.endDate.None? || f.endDate == g.endDate
    requires f.doctorId.None? || f.doctorId == g.doctorId
    requires f.status.None? || f.status == g.status
    ensures Paging.Count(rows, Matcher(patientId, g)) <= Paging.Count(rows, Matcher(patientId, f))
  {
    Paging.StrongerSelectsFewer(rows, Matcher(patientId, f), Matcher(patientId, g));
  }
}

# Clinic back-office: search, lifecycle and mapping model

A Dafny model of the core of a clinic back-office service that keeps doctors,
patients and appointments. It covers three parts.

- **Search.** Each repository builds an optional list of criteria from a filter:
  a case-insensitive `LIKE '%value%'` per present text field, and for
  appointments the owning patient, a date range, a doctor and a status. The list
  is ANDed. The result is ordered by creation time, newest first, and cut into a
  page. The total is counted with the same predicate.
- **Services.** Each entity has a store with generated ids. Doctor and patient
  creation checks that the email is unique. Doctor creation also checks that
  the speciality exists. Update overwrites fields. Delete removes the row.
  Saving a doctor or patient obeys the table's constraints: the @NotNull
  columns, the unique email and, for doctors, the foreign key to the
  speciality, which a later read resolves to the stored speciality.
  Appointments follow a lifecycle:
  - booking stamps the derived fields (end time one hour after start, 60-minute
    duration, creation time, SCHEDULED);
  - update and delete are allowed only while SCHEDULED;
  - cancel is allowed from any status;
  - every lookup is scoped by (appointment id, patient id).
- **Mappers.** Pure conversions between request records, entities and response
  records, with null-safe nested mapping.

Modelling choices:

- Java `null` is `Option.None`.
- Exceptions are the `Wrappers.Result` failures. `NotFound`, `Conflict` and
  `BadRequest` carry the source's messages. `InternalError` stands for a
  `NullPointerException`, an `IllegalArgumentException` or a persistence
  exception from a save the table's constraints refuse.
- A database table is a `map<int, T>` plus an id counter (`Tables`). A table
  scan reads it in ascending id order.
- Timestamps are integer nanoseconds and dates are day numbers (`Time`).
- The clock is the `now` parameter.
- `Criteria.Add` models `predicates.add`. The criteria list each builder
  returns is tied to a declarative `Matches` predicate through `Conjunction`.

Where the code and the design text disagree, the model follows the code:

- The last-name filter of the doctor search reads the first-name value (see
  Findings).
- Cancelling always succeeds and overwrites the earlier cancellation.
- An update keeps the appointment's type and does not touch `lastUpdated`.
- CONFIRMED and COMPLETED are never produced. `AppointmentServices.InLifecycle`
  shows that every stored appointment is SCHEDULED or CANCELLED.
- The design text says the cancellation fields are set exactly when the status
  is CANCELLED. The code only guarantees one direction: a cancelled appointment
  has a cancellation time, and its reason is whatever the request carried,
  possibly null. The other direction holds for appointments created through the
  mapper, because `AppointmentMapper.ToAppointmentKeepsRequest` shows a mapped
  request carries no cancellation data.

## Model

| member | source | states |
|---|---|---|
| Criteria.Add | src/main/java/com/jts/pmanagement/domains/doctor/repository/DoctorRepositoryImpl.java:63-67 | appending a criterion gives a list that demands exactly what the old list demanded and the new criterion besides; the old list is a prefix |
| Criteria.ContainsPatternMeans | src/main/java/com/jts/pmanagement/domains/doctor/repository/DoctorRepositoryImpl.java:64-66 | for a value without wildcards, `lower(column) LIKE '%' + lower(value) + '%'` holds iff the column is non-null and its lower-cased text contains the lower-cased value |
| Text.LikeContains | src/main/java/com/jts/pmanagement/domains/patient/repository/PatientRepositoryImpl.java:65-68 | the pattern `%v%` matches a string iff the string contains `v`, when `v` has no wildcards |
| Text.ContainsIff | src/main/java/com/jts/pmanagement/domains/patient/repository/PatientRepositoryImpl.java:72-75 | substring containment holds iff the value occurs at some index |
| Text.ToLower | src/main/java/com/jts/pmanagement/domains/doctor/repository/DoctorRepositoryImpl.java:66 | lower-casing keeps the length and lower-cases each character independently |
| Time.StartOfDayBound | src/main/java/com/jts/pmanagement/domains/appointment/repository/AppointmentRepositoryImpl.java:63-66 | a time is at or after the start of a day iff its date is that day or later |
| Time.EndOfDayBound | src/main/java/com/jts/pmanagement/domains/appointment/repository/AppointmentRepositoryImpl.java:68-71 | a time is at or before 23:59:59.999999999 of a day iff its date is that day or earlier |
| Paging.Select | src/main/java/com/jts/pmanagement/domains/appointment/repository/AppointmentRepositoryImpl.java:33-36 | every row the WHERE clause keeps satisfies the predicate and is one of the rows, and every row that satisfies it is kept |
| Paging.SelectCounts | src/main/java/com/jts/pmanagement/domains/appointment/repository/AppointmentRepositoryImpl.java:33-36 | a matching value occurs in the result exactly as often as in the rows, any other value not at all |
| Paging.SelectAppend | src/main/java/com/jts/pmanagement/domains/appointment/repository/AppointmentRepositoryImpl.java:33-36 | filtering keeps the rows' order: the filter of a concatenation is the concatenation of the filtered parts |
| Paging.GetPageable | src/main/java/com/jts/pmanagement/domains/doctor/repository/DoctorRepositoryImpl.java:105-108 | it succeeds iff the sort property has text, the page index is at least zero and the page size at least one; otherwise an IllegalArgumentException with the message of the first check that fails, `Sort.by` before `PageRequest.of` |
| Paging.DefaultPagingValid | src/main/java/com/jts/pmanagement/common/filter/PmsFilter.java:15-24 | the settings a filter starts with (page 0 of 10, sorted by "name") are accepted |
| Paging.OffsetIsProduct | src/main/java/com/jts/pmanagement/domains/appointment/repository/AppointmentRepositoryImpl.java:95-98 | the page request's offset is page number times page size |
| Paging.Slice | src/main/java/com/jts/pmanagement/domains/appointment/repository/AppointmentRepositoryImpl.java:47-48 | OFFSET/LIMIT gives the rows from the offset on, at most the limit, and none past the end |
| Paging.OrderByNewestCorrect | src/main/java/com/jts/pmanagement/domains/appointment/repository/AppointmentRepositoryImpl.java:41 | the ordering is newest `createdAt` first, with nulls last, and is a permutation of the matches |
| Paging.QueryBounds | src/main/java/com/jts/pmanagement/domains/appointment/repository/AppointmentRepositoryImpl.java:44-54 | a page holds at most `pageSize` items, the total counts all matches, and the total is at least the number of items on the page |
| Paging.QueryMembers | src/main/java/com/jts/pmanagement/domains/doctor/repository/DoctorRepositoryImpl.java:31-51 | every item on a page is a stored row that matches the filter |
| Paging.QueryOrdered | src/main/java/com/jts/pmanagement/domains/doctor/repository/DoctorRepositoryImpl.java:43 | the items on a page are newest first |
| Paging.WholeResultInOnePage | src/main/java/com/jts/pmanagement/domains/patient/repository/PatientRepositoryImpl.java:45-58 | when page 0 is at least as large as the number of matches, it holds every match and the total equals its size |
| Paging.SortSettingsIgnored | src/main/java/com/jts/pmanagement/domains/appointment/repository/AppointmentRepositoryImpl.java:84-98 | once `Sort.by` accepts them, the filter's `sortBy` and `sortDirection` never change the result, since `setOrder` is never called |
| DoctorRepositoryImpl.GetPredicate | src/main/java/com/jts/pmanagement/domains/doctor/repository/DoctorRepositoryImpl.java:59-94 | the criteria list holds for a doctor iff the doctor matches; it fails with an internal error iff a last name is given without a first name |
| DoctorRepositoryImpl.AddNameCriteria | src/main/java/com/jts/pmanagement/domains/doctor/repository/DoctorRepositoryImpl.java:62-74 | the first-name criterion, then a last-name criterion built from the first-name value; it throws when that value is null |
| DoctorRepositoryImpl.AddContactCriteria | src/main/java/com/jts/pmanagement/domains/doctor/repository/DoctorRepositoryImpl.java:76-91 | the email criterion and the inner-joined speciality-description criterion are added to whatever came before |
| DoctorRepositoryImpl.GetDoctorsCount | src/main/java/com/jts/pmanagement/domains/doctor/repository/DoctorRepositoryImpl.java:110-123 | the count is the number of rows the same predicate admits; it fails exactly when the predicate throws |
| DoctorRepositoryImpl.FindAllWithFilters | src/main/java/com/jts/pmanagement/domains/doctor/repository/DoctorRepositoryImpl.java:30-57 | it throws exactly when the predicate or the page request throws, the predicate first; otherwise the result is the ordered, sliced and counted query over the matches |
| DoctorRepositoryImpl.MatchesMeans | src/main/java/com/jts/pmanagement/domains/doctor/repository/DoctorRepositoryImpl.java:62-91 | with plain values, a doctor matches iff each present field is a case-insensitive substring of its column, with the last-name column tested against the first-name value and a speciality required for a speciality filter |
| DoctorRepositoryImpl.EmailSubstringMatches | src/main/java/com/jts/pmanagement/domains/doctor/repository/DoctorRepositoryImpl.java:76-81 | the email filter is a substring match: an email that merely contains the value matches |
| DoctorRepositoryImpl.EmptyFilterMatchesAll | src/main/java/com/jts/pmanagement/domains/doctor/repository/DoctorRepositoryImpl.java:93 | with no field present, every doctor is selected |
| DoctorRepositoryImpl.SpecialityFilterNeedsSpeciality | src/main/java/com/jts/pmanagement/domains/doctor/repository/DoctorRepositoryImpl.java:83-91 | the inner join drops doctors without a speciality when a speciality filter is present |
| DoctorRepositoryImpl.LastNameValueIgnored | src/main/java/com/jts/pmanagement/domains/doctor/repository/DoctorRepositoryImpl.java:69-74 | the value of the last-name field never affects the result or whether the search throws |
| DoctorRepositoryImpl.FirstNameExample | src/main/java/com/jts/pmanagement/domains/doctor/repository/DoctorRepositoryImpl.java:62-67 | "John" matches John and JOHNNY, but not Jane |
| DoctorRepositoryImpl.PagingExample | src/main/java/com/jts/pmanagement/domains/doctor/repository/DoctorRepositoryImpl.java:46-54 | three doctors, page size 2: page 0 has two, the total is three, and page 1 has one |
| DoctorRepositoryImpl.LastNameQuirk | src/main/java/com/jts/pmanagement/domains/doctor/repository/DoctorRepositoryImpl.java:69-74 | searching by a doctor's own first and last name misses them whenever the last name is shorter, while the intended clause finds them |
| DoctorRepositoryImpl.LastNameQuirkExample | src/main/java/com/jts/pmanagement/domains/doctor/repository/DoctorRepositoryImpl.java:69-74 | "Gregory"/"House" misses Dr. Gregory House, and a last name alone throws |
| DoctorRepositoryImpl.IntendedGetPredicate | src/main/java/com/jts/pmanagement/domains/doctor/repository/DoctorRepositoryImpl.java:69-74 | the corrected builder never throws, and its criteria hold iff the intended clause holds |
| DoctorRepositoryImpl.IntendedMatchesMeans | src/main/java/com/jts/pmanagement/domains/doctor/repository/DoctorRepositoryImpl.java:59-94 | with plain values, the intended clause tests each present field as a case-insensitive substring of its own column |
| PatientRepositoryImpl.GetPredicate | src/main/java/com/jts/pmanagement/domains/patient/repository/PatientRepositoryImpl.java:61-79 | the criteria list holds for a patient iff the first-name and email filters both match |
| PatientRepositoryImpl.GetPatientsCount | src/main/java/com/jts/pmanagement/domains/patient/repository/PatientRepositoryImpl.java:86-99 | the count is the number of rows the same predicate admits |
| PatientRepositoryImpl.FindAllWithFilters | src/main/java/com/jts/pmanagement/domains/patient/repository/PatientRepositoryImpl.java:32-59 | it throws exactly when the page request throws; otherwise the result is the ordered, sliced and counted query over the matches |
| PatientRepositoryImpl.MatchesMeans | src/main/java/com/jts/pmanagement/domains/patient/repository/PatientRepositoryImpl.java:64-76 | with plain values, a patient matches iff each present field is a case-insensitive substring of its column |
| PatientRepositoryImpl.LastNameIgnored | src/main/java/com/jts/pmanagement/domains/patient/repository/PatientRepositoryImpl.java:61-79 | the filter's last name never changes the page |
| PatientRepositoryImpl.EmptyFilterMatchesAll | src/main/java/com/jts/pmanagement/domains/patient/repository/PatientRepositoryImpl.java:78 | with no field present, every patient is selected |
| PatientRepositoryImpl.EmailSubstringMatches | src/main/java/com/jts/pmanagement/domains/patient/repository/PatientRepositoryImpl.java:71-76 | an email containing the value, in any case, matches |
| AppointmentRepositoryImpl.GetPredicate | src/main/java/com/jts/pmanagement/domains/appointment/repository/AppointmentRepositoryImpl.java:57-82 | the first criterion is always the patient; the criteria hold iff the appointment is the patient's and every present bound, doctor and status matches |
| AppointmentRepositoryImpl.AddDateRange | src/main/java/com/jts/pmanagement/domains/appointment/repository/AppointmentRepositoryImpl.java:63-71 | the start-of-day and end-of-day bounds are added only when the dates are present, keeping the earlier criteria |
| AppointmentRepositoryImpl.GetRecordsCount | src/main/java/com/jts/pmanagement/domains/appointment/repository/AppointmentRepositoryImpl.java:100-113 | the count is the number of rows the same predicate admits |
| AppointmentRepositoryImpl.FindAllWithFilters | src/main/java/com/jts/pmanagement/domains/appointment/repository/AppointmentRepositoryImpl.java:28-55 | it throws exactly when the page request throws; otherwise the result is the ordered, sliced and counted query over the matches |
| AppointmentRepositoryImpl.ScopedToPatient | src/main/java/com/jts/pmanagement/domains/appointment/repository/AppointmentRepositoryImpl.java:61 | every returned item and every counted item belongs to the given patient |
| AppointmentRepositoryImpl.FilterPatientIdIgnored | src/main/java/com/jts/pmanagement/domains/appointment/repository/AppointmentRepositoryImpl.java:28-61 | the filter's own patient id never changes the page |
| AppointmentRepositoryImpl.DateBoundsAreWholeDays | src/main/java/com/jts/pmanagement/domains/appointment/repository/AppointmentRepositoryImpl.java:63-71 | the start bound keeps items starting on or after the start date; the end bound keeps items ending on or before the end date; both are inclusive |
| AppointmentRepositoryImpl.EmptyFilterKeepsPatient | src/main/java/com/jts/pmanagement/domains/appointment/repository/AppointmentRepositoryImpl.java:61-81 | with no optional field present, exactly the patient's appointments match |
| AppointmentRepositoryImpl.FieldsOnlyNarrow | src/main/java/com/jts/pmanagement/domains/appointment/repository/AppointmentRepositoryImpl.java:63-81 | adding field constraints never increases the count |
| DoctorServices.OverwriteKeepsIdentity | src/main/java/com/jts/pmanagement/domains/doctor/service/DoctorService.java:59-65 | an update keeps id and creation time and takes every other field from the request |
| DoctorServices.OverwriteLastWins | src/main/java/com/jts/pmanagement/domains/doctor/service/DoctorService.java:59-67 | of two updates the last wins, so repeating one changes nothing |
| DoctorServices.ResolveSpeciality | src/main/java/com/jts/pmanagement/domains/doctor/model/Doctor.java:31-33 | the table keeps only the speciality id: a null reference stays null, an id naming a stored speciality reads back as that speciality, and a reference without an id or with an unknown id fails the save |
| DoctorServices.ResolveIdOnly | src/main/java/com/jts/pmanagement/domains/doctor/service/DoctorService.java:64 | the id-only reference an update stores reads back as the stored speciality, description included |
| DoctorServices.DoctorService.constructor | src/main/java/com/jts/pmanagement/domains/doctor/service/DoctorService.java:20-21 | the service starts with an empty doctor table over the given specialities |
| DoctorServices.DoctorService.FindById | src/main/java/com/jts/pmanagement/domains/doctor/service/DoctorService.java:23-27 | the stored doctor when the id exists, otherwise NotFound with the source's message |
| DoctorServices.DoctorService.FindAll | src/main/java/com/jts/pmanagement/domains/doctor/service/DoctorService.java:29-31 | it is an error exactly when the search or the page request throws; otherwise the page is exactly the paged query over the table scan: at most `pageSize` stored, matching doctors, newest first, with the number of matching doctors as the total |
| DoctorServices.DoctorService.Insert | src/main/java/com/jts/pmanagement/domains/doctor/service/DoctorService.java:33-54 | a taken email gives BadRequest; then a null speciality reference is an internal error and an unknown one BadRequest; then a null @NotNull column fails the save; on success the doctor is stored under a fresh id with the stored speciality and created now; a failure stores nothing; every stored doctor keeps its @NotNull columns set and a unique email |
| DoctorServices.DoctorService.Update | src/main/java/com/jts/pmanagement/domains/doctor/service/DoctorService.java:56-68 | a missing id is NotFound; the service checks neither email nor speciality, but the save fails when the speciality reference names no stored speciality, a @NotNull column is null or another doctor has the email; on success the overwritten doctor is stored with the stored speciality under the requested id; a failure stores nothing |
| DoctorServices.DoctorService.Delete | src/main/java/com/jts/pmanagement/domains/doctor/service/DoctorService.java:70-76 | a missing id is NotFound; otherwise exactly that doctor is removed |
| PatientServices.OverwriteKeepsIdentity | src/main/java/com/jts/pmanagement/domains/patient/service/PatientService.java:48-52 | an update keeps id and creation time and takes email, names, address and date of birth from the request |
| PatientServices.OverwriteLastWins | src/main/java/com/jts/pmanagement/domains/patient/service/PatientService.java:48-53 | of two updates the last wins |
| PatientServices.PatientService.constructor | src/main/java/com/jts/pmanagement/domains/patient/service/PatientService.java:19 | the service starts with an empty patient table |
| PatientServices.PatientService.FindById | src/main/java/com/jts/pmanagement/domains/patient/service/PatientService.java:21-25 | the stored patient when the id exists, otherwise NotFound with the source's message |
| PatientServices.PatientService.FindAll | src/main/java/com/jts/pmanagement/domains/patient/service/PatientService.java:27-29 | it is an error exactly when the page request throws; otherwise the page is exactly the paged query over the table scan: at most `pageSize` stored, matching patients, newest first, with the number of matching patients as the total |
| PatientServices.PatientService.Insert | src/main/java/com/jts/pmanagement/domains/patient/service/PatientService.java:31-43 | a taken email gives BadRequest; then a null @NotNull column fails the save; on success the patient is stored under a fresh id, created now; a failure stores nothing; every stored patient keeps its @NotNull columns set and a unique email |
| PatientServices.PatientService.Update | src/main/java/com/jts/pmanagement/domains/patient/service/PatientService.java:45-54 | a missing id is NotFound; the service checks no email, but the save fails when a @NotNull column is null or another patient has the email; on success the overwritten patient is stored; a failure stores nothing |
| PatientServices.PatientService.Delete | src/main/java/com/jts/pmanagement/domains/patient/service/PatientService.java:56-62 | a missing id is NotFound; otherwise exactly that patient is removed |
| AppointmentServices.ValidateScheduledStatus | src/main/java/com/jts/pmanagement/domains/appointment/service/AppointmentService.java:105-111 | it succeeds iff the status is SCHEDULED; otherwise a Conflict whose message names the action and the current status |
| AppointmentServices.BookedStartsLifecycle | src/main/java/com/jts/pmanagement/domains/appointment/service/AppointmentService.java:48-53 | a booked appointment is SCHEDULED, lasts 60 minutes ending one hour after its start, and was created now |
| AppointmentServices.RescheduleKeeps | src/main/java/com/jts/pmanagement/domains/appointment/service/AppointmentService.java:68-73 | an update re-derives the end time and keeps status, type, patient, creation time, cancellation fields and `lastUpdated` |
| AppointmentServices.CancelEndsChanges | src/main/java/com/jts/pmanagement/domains/appointment/service/AppointmentService.java:85-88 | cancelling keeps the lifecycle from any status, and afterwards update and delete are refused |
| AppointmentServices.CancelTwiceOverwrites | src/main/java/com/jts/pmanagement/domains/appointment/service/AppointmentService.java:83-90 | a second cancel replaces the first one's reason and times |
| AppointmentServices.SaveKeepsStore | src/main/java/com/jts/pmanagement/domains/appointment/service/AppointmentService.java:54 | saving an appointment that is in the lifecycle, under its own id, keeps the store invariant |
| AppointmentServices.AppointmentService.constructor | src/main/java/com/jts/pmanagement/domains/appointment/service/AppointmentService.java:24-26 | the service starts with an empty appointment table over the given doctor and patient services |
| AppointmentServices.AppointmentService.FindById | src/main/java/com/jts/pmanagement/domains/appointment/service/AppointmentService.java:32-37 | it succeeds iff the appointment exists and belongs to the patient; otherwise NotFound |
| AppointmentServices.AppointmentService.FindByIdEnriched | src/main/java/com/jts/pmanagement/domains/appointment/service/AppointmentService.java:28-30 | the same lookup with the arguments swapped |
| AppointmentServices.AppointmentService.FindAllByPatientId | src/main/java/com/jts/pmanagement/domains/appointment/service/AppointmentService.java:39-41 | it is an error exactly when the page request throws; otherwise the page is exactly the paged query over the table scan restricted to the patient: at most `pageSize` of the patient's stored, matching appointments, newest first, with their number as the total |
| AppointmentServices.AppointmentService.Insert | src/main/java/com/jts/pmanagement/domains/appointment/service/AppointmentService.java:43-57 | an unknown doctor and then an unknown patient each give NotFound; on success the appointment is stored under a fresh id, SCHEDULED, 60 minutes, ending one hour after its start, created now, with the stored doctor and patient; a failure stores nothing |
| AppointmentServices.AppointmentService.Update | src/main/java/com/jts/pmanagement/domains/appointment/service/AppointmentService.java:59-77 | checks run as doctor, then patient, then lookup, then status, each with its own error; success replaces doctor, title, description and times; a failure stores nothing |
| AppointmentServices.AppointmentService.Cancel | src/main/java/com/jts/pmanagement/domains/appointment/service/AppointmentService.java:79-92 | it succeeds iff the appointment is the patient's, whatever its status, and sets CANCELLED, the reason and the times; otherwise NotFound and nothing changes |
| AppointmentServices.AppointmentService.Delete | src/main/java/com/jts/pmanagement/domains/appointment/service/AppointmentService.java:94-103 | NotFound, then a Conflict naming "deleted" unless SCHEDULED; success removes exactly that appointment; a failure changes nothing |
| DoctorMapper.SpecialityDescription | src/main/java/com/jts/pmanagement/domains/doctor/controller/mapper/DoctorMapper.java:34 | the description of a present speciality (which may itself be null), or null when there is no speciality |
| DoctorMapper.ToDoctorKeepsRequest | src/main/java/com/jts/pmanagement/domains/doctor/controller/mapper/DoctorMapper.java:15-26 | reading the request back from a mapped doctor gives the request; no id is set, the creation time is now, and the speciality carries only the requested id |
| DoctorMapper.ResponseKeepsFields | src/main/java/com/jts/pmanagement/domains/doctor/controller/mapper/DoctorMapper.java:28-38 | the response keeps id, names, title, email, phone and department, and shows the speciality's description or null |
| DoctorMapper.InsertedResponse | src/main/java/com/jts/pmanagement/domains/doctor/controller/mapper/DoctorMapper.java:15-38 | the response to a saved mapped request shows the request's fields, the new id and the stored speciality's description |
| DoctorMapper.MappedDoctorNotNull | src/main/java/com/jts/pmanagement/domains/doctor/controller/mapper/DoctorMapper.java:15-26 | a mapped request sets every @NotNull column iff it carries a phone, which the request leaves optional |
| DoctorMapper.UpdatedResponse | src/main/java/com/jts/pmanagement/domains/doctor/controller/mapper/DoctorMapper.java:20-34 | after an update from a mapped request naming a stored speciality, the response shows that speciality's stored description |
| PatientMapper.RoundTrip | src/main/java/com/jts/pmanagement/domains/patient/controller/mapper/PatientMapper.java:14-33 | the response of a mapped request gives back the request and the saved id; the mapped patient has no id and was created now |
| PatientMapper.ResponseIgnoresCreatedAt | src/main/java/com/jts/pmanagement/domains/patient/controller/mapper/PatientMapper.java:25-33 | the response drops the creation time |
| PatientMapper.MappedPatientNotNull | src/main/java/com/jts/pmanagement/domains/patient/controller/mapper/PatientMapper.java:14-23 | a mapped request sets every @NotNull column iff it carries an address, which the request leaves optional |
| AppointmentMapper.ToPatientAppointment | src/main/java/com/jts/pmanagement/domains/appointment/controller/mapper/AppointmentMapper.java:56-63 | a null patient maps to null, and only then; otherwise the nested record copies the patient's id, names and email |
| AppointmentMapper.ToDoctorAppointment | src/main/java/com/jts/pmanagement/domains/appointment/controller/mapper/AppointmentMapper.java:65-76 | a null doctor maps to null, and only then; otherwise the nested record copies the doctor's id, names and title and shows the speciality's description, or null without a speciality |
| AppointmentMapper.ToAppointmentKeepsRequest | src/main/java/com/jts/pmanagement/domains/appointment/controller/mapper/AppointmentMapper.java:27-37 | reading the request back from a mapped appointment gives the request; it references the patient and doctor and leaves id, status, end time, duration, creation time and cancellation data unset |
| AppointmentMapper.ToCancellationFields | src/main/java/com/jts/pmanagement/domains/appointment/controller/mapper/AppointmentMapper.java:18-25 | the cancellation overload sets id, patient id and reason, and leaves everything else null |
| AppointmentMapper.ResponseKeepsFields | src/main/java/com/jts/pmanagement/domains/appointment/controller/mapper/AppointmentMapper.java:39-76 | the response keeps every scalar field, maps a null patient or doctor to null, and shows the doctor's speciality description or null |
| AppointmentMapper.BookedResponse | src/main/java/com/jts/pmanagement/domains/appointment/controller/mapper/AppointmentMapper.java:39-54 | the response to a booked mapped request shows SCHEDULED, 60 minutes, an end time one hour after the requested start, and the request's type, title and description |
| AppointmentMapper.CancelledResponse | src/main/java/com/jts/pmanagement/domains/appointment/controller/mapper/AppointmentMapper.java:39-54 | the response after a cancel shows CANCELLED, the reason and the cancellation time |

## Left out

- Controllers, HTTP status codes, the OpenAPI configuration and the exception-to-HTTP handler are not modelled. Each failure stays a `Result` value.
- JPA is replaced by in-memory tables:
  - Criteria API objects become `Criterion` lists;
  - the derived queries (`existsByEmail`, `findByIdAndPatientId`) become map lookups;
  - IDENTITY id generation becomes a counter;
  - PageImpl's adjustment of the total is not modelled, because it changes nothing when the total comes from the same predicate.
- Entities are values, not managed objects. An appointment stores a snapshot of its doctor and patient, so later doctor or patient updates do not show through. Of the foreign keys only the doctor's speciality is modelled (`DoctorServices.ResolveSpeciality`); the appointment's keys to doctor and patient are not, so deleting a doctor or patient that still has appointments succeeds here.
- The cascade on the patient's appointment collection is not modelled, and neither are logging, transactions or concurrent requests.
- Lower-casing covers ASCII only. Java's `Locale.ROOT` Unicode mapping and the database collation are not modelled.
- `LIKE` wildcards are modelled in `Text.LikeMatch`. The substring readings (`MatchesMeans`, `ContainsPatternMeans`) assume filter values without `%` or `_`.
- Paging.GetPageable: the page number, page size and sort direction are never null here, so the unboxing failure and `Sort.by`'s null-direction check are not modelled; `Character.isWhitespace` is modelled on ASCII only.
- Paging.Offset: the `(int)` truncation of an offset past 2^31 - 1 is not modelled.
- Paging.OrderByNewest: database order among rows with equal `createdAt` is unspecified; the model keeps such rows in ascending id order (a stable sort of the table scan). Null timestamps sort last.
- Bean validation of request bodies is not modelled. Its required fields are plain values in the request datatypes, and the email format check is not part of this model.
- DoctorServices.DoctorService.Insert, DoctorServices.DoctorService.Update, PatientServices.PatientService.Insert and PatientServices.PatientService.Update: the @Email format constraint on the stored email is not checked at save; the @NotNull and unique-email checks are, and all save failures are one `InternalError` without telling the constraint exceptions apart.
- The real clock is the `now` parameter.
- AppointmentServices.AppointmentService.Cancel: takes one `now` for both `cancellationTime` and `lastUpdated`, where the source reads the clock twice.
- DoctorServices.DoctorService.Insert, PatientServices.PatientService.Insert and AppointmentServices.AppointmentService.Insert: require an entity without an id. With an id, JPA's `save` would merge into an existing row. The mappers never set one (`DoctorMapper.ToDoctorKeepsRequest`, `PatientMapper.RoundTrip`, `AppointmentMapper.ToAppointmentKeepsRequest`).
- The controller cancels with the request's reason directly, so the cancellation overload of the mapper (`AppointmentMapper.ToCancellation`) has no caller in the model.
- AppointmentStatus.java is not part of this model. The four constants and their names are taken as SCHEDULED, CONFIRMED, COMPLETED and CANCELLED.

## Findings

| source | as written | input that shows it | evidently intended | confidence | as-written member | corrected member |
|---|---|---|---|---|---|---|
| src/main/java/com/jts/pmanagement/domains/doctor/repository/DoctorRepositoryImpl.java:73 | the last-name criterion matches the last-name column against the filter's first-name value, and dereferences it even when it is null | firstName "Gregory", lastName "House" misses Dr. Gregory House; lastName "House" alone throws | match the last-name column against the last-name value | high, not executed | DoctorRepositoryImpl.LastNameQuirk | DoctorRepositoryImpl.IntendedGetPredicate |

/** Patient CRUD over the patient table: email uniqueness on insert, a
    field-by-field overwrite on update, NotFound for an unknown id. Saving a
    row obeys the table's constraints: the @NotNull columns and the unique
    email. */
module PatientServices {
  import opened Wrappers
  import opened Text
  import Paging
  import Tables
  import opened PatientModel
  import PatientRepositoryImpl

  function NotFoundMessage(id: int): string {
    "Patient with Id " + IntToString(id) + " was not found"
  }

  function EmailTakenMessage(email: Option<string>): string {
    "There is another patient using the same email '" + OrNull(email) + "' informed"
  }

  const ConstraintViolationMessage := "ConstraintViolationException: a @NotNull column is null"
  const DuplicateEmailMessage := "DataIntegrityViolationException: the email is already stored"

  /** What `update` copies from the request onto the stored patient: email,
      names, address and date of birth. */
  function Overwrite(saved: Patient, patient: Patient): Patient {
    saved.(email := patient.email, firstName := patient.firstName, lastName := patient.lastName,
           address := patient.address, dateOfBirth := patient.dateOfBirth)
  }

  /** An update keeps the patient's identity and creation time and takes every
      other field from the request. */
  lemma OverwriteKeepsIdentity(saved: Patient, patient: Patient)
    ensures Overwrite(saved, patient).id == saved.id
    ensures Overwrite(saved, patient).createdAt == saved.createdAt
    ensures Overwrite(saved, patient) == patient.(id := saved.id, createdAt := saved.createdAt)
  {
  }

  /** The last of two updates wins, so repeating an update changes nothing. */
  lemma OverwriteLastWins(saved: Patient, first: Patient, second: Patient)
    ensures Overwrite(Overwrite(saved, first), second) == Overwrite(saved, second)
    ensures Overwrite(Overwrite(saved, second), second) == Overwrite(saved, second)
  {
  }

  class PatientService {
    var patients: map<int, Patient>
    var nextId: int

    /** Every stored patient sits under its own generated id, has its
        @NotNull columns set and an email no other patient has. */
    ghost predicate Valid()
      reads this
    {
      && nextId >= 1
      && Tables.IdsBelow(patients, nextId)
      && (forall k :: k in patients ==> patients[k].id == Some(k) && NotNullColumnsSet(patients[k]))
      && (forall j, k :: j in patients && k in patients && j != k ==> patients[j].email != patients[k].email)
    }

    constructor()
      ensures Valid()
      ensures patients == map[] && nextId == 1
    {
      patients := map[];
      nextId := 1;
    }

    /** `existsByEmail`: some stored patient has exactly this email. */
    predicate EmailInUse(email: Option<string>)
      reads this
    {
      exists k :: k in patients && patients[k].email == email
    }

    /** The unique email column: a patient other than `id` already has it. */
    predicate EmailTakenByOther(id: int, email: Option<string>)
      reads this
    {
      exists k :: k in patients && k != id && patients[k].email == email
    }

    method FindById(id: int) returns (r: Result<Patient>)
      ensures r.Ok? <==> id in patients
      ensures r.Ok? ==> r.value == patients[id]
      ensures !r.Ok? ==> r == NotFound(NotFoundMessage(id))
    {
      if id in patients {
        return Ok(patients[id]);
      }
      return NotFound(NotFoundMessage(id));
    }

    /** The filtered, paged search over every stored patient, in table order
        before sorting. */
    method FindAll(filter: PatientFilter) returns (r: Result<Paging.Page<Patient>>)
      requires Valid()
      ensures r.Ok? <==> Paging.ValidPaging(filter.page)
      ensures !r.Ok? ==> r == Paging.PageableError(filter.page)
      ensures r.Ok? ==> (Paging.ValidPaging(filter.page) &&
                r.value == Paging.Query(Tables.Scan(patients, nextId), PatientRepositoryImpl.Matcher(filter), CreatedAt, filter.page))
      ensures r.Ok? ==> r.value.totalElements == |Tables.Matching(patients, PatientRepositoryImpl.Matcher(filter))|
      ensures r.Ok? ==> |r.value.content| <= filter.page.pageSize
      ensures r.Ok? ==> forall i :: 0 <= i < |r.value.content| ==>
                r.value.content[i] in patients.Values && PatientRepositoryImpl.Matches(filter, r.value.content[i])
      ensures r.Ok? ==> Paging.NewestFirst(r.value.content, CreatedAt)
    {
      var rows := Tables.Scan(patients, nextId);
      r := PatientRepositoryImpl.FindAllWithFilters(rows, filter);
      if r.Ok? {
        var p := PatientRepositoryImpl.Matcher(filter);
        Tables.CountOfScan(patients, nextId, p);
        Tables.ScanRows(patients, nextId);
        Paging.QueryBounds(rows, p, CreatedAt, filter.page);
        Paging.QueryMembers(rows, p, CreatedAt, filter.page);
        Paging.QueryOrdered(rows, p, CreatedAt, filter.page);
      }
    }

    /** Store a new patient unless another one already uses the email; the
        save then checks the @NotNull columns. */
    method Insert(patient: Patient, now: int) returns (r: Result<Patient>)
      requires Valid() && patient.id.None?
      modifies this
      ensures Valid()
      ensures old(EmailInUse(patient.email)) ==> r == BadRequest(EmailTakenMessage(patient.email))
      ensures !old(EmailInUse(patient.email)) && !NotNullColumnsSet(patient.(createdAt := Some(now))) ==>
                r == InternalError(ConstraintViolationMessage)
      ensures r.Ok? <==> !old(EmailInUse(patient.email)) && NotNullColumnsSet(patient.(createdAt := Some(now)))
      ensures r.Ok? ==>
                && r.value == patient.(id := Some(old(nextId)), createdAt := Some(now))
                && patients == old(patients)[old(nextId) := r.value]
                && old(nextId) !in old(patients)
      ensures !r.Ok? ==> patients == old(patients) && nextId == old(nextId)
    {
      if EmailInUse(patient.email) {
        return BadRequest(EmailTakenMessage(patient.email));
      }
      var saved := patient.(id := Some(nextId), createdAt := Some(now));
      if !NotNullColumnsSet(saved) {
        return InternalError(ConstraintViolationMessage);
      }
      patients := patients[nextId := saved];
      nextId := nextId + 1;
      return Ok(saved);
    }

    /** Overwrite a stored patient's fields. The service does not check the
        email; the save does, together with the @NotNull columns. */
    method Update(id: int, patient: Patient) returns (r: Result<()>)
      requires Valid()
      modifies this
      ensures Valid() && nextId == old(nextId)
      ensures id !in old(patients) ==> r == NotFound(NotFoundMessage(id))
      ensures r.Ok? <==>
                && id in old(patients)
                && NotNullColumnsSet(patient.(createdAt := old(patients)[id].createdAt))
                && !old(EmailTakenByOther(id, patient.email))
      ensures id in old(patients) && !r.Ok? ==> r.InternalError?
      ensures r.Ok? ==> patients == old(patients)[id := Overwrite(old(patients)[id], patient)]
      ensures !r.Ok? ==> patients == old(patients)
    {
      var savedPatient :- FindById(id);
      var updated := Overwrite(savedPatient, patient);
      if !NotNullColumnsSet(updated) {
        return InternalError(ConstraintViolationMessage);
      }
      if EmailTakenByOther(id, updated.email) {
        return InternalError(DuplicateEmailMessage);
      }
      patients := patients[id := updated];
      return Ok(());
    }

    /** Remove a stored patient. */
    method Delete(id: int) returns (r: Result<()>)
      requires Valid()
      modifies this
      ensures Valid() && nextId == old(nextId)
      ensures r.Ok? <==> id in old(patients)
      ensures r.Ok? ==> patients == old(patients) - {id}
      ensures !r.Ok? ==> r == NotFound(NotFoundMessage(id)) && patients == old(patients)
    {
      var patient :- FindById(id);
      patients := patients - {id};
      return Ok(());
    }
  }
}

/** Doctor CRUD over the doctor table and the (read-only) speciality table:
    email uniqueness and speciality existence on insert, a field-by-field
    overwrite on update, NotFound for an unknown id. Saving a row obeys the
    table's constraints: the @NotNull columns, the unique email and the
    foreign key to the speciality. */
module DoctorServices {
  import opened Wrappers
  import opened Text
  import Paging
  import Tables
  import opened DoctorModel
  import DoctorRepositoryImpl

  function NotFoundMessage(id: int): string {
    "Doctor with Id " + IntToString(id) + " was not found"
  }

  function EmailTakenMessage(email: Option<string>): string {
    "There is another doctor using the same email '" + OrNull(email) + "' informed"
  }

  function UnknownSpecialityMessage(id: int): string {
    "Speciality not found with id: " + IntToString(id)
  }

  /** The id of the doctor's speciality reference, or null. */
  function SpecialityIdOf(d: Doctor): Option<int> {
    if d.speciality.None? then None else d.speciality.value.id
  }

  /** What `update` copies from the request onto the stored doctor: email,
      names, phone, department, speciality and title. */
  function Overwrite(saved: Doctor, doctor: Doctor): Doctor {
    saved.(email := doctor.email, firstName := doctor.firstName, lastName := doctor.lastName,
           phone := doctor.phone, department := doctor.department,
           speciality := doctor.speciality, title := doctor.title)
  }

  const ConstraintViolationMessage := "ConstraintViolationException: a @NotNull column is null"
  const DuplicateEmailMessage := "DataIntegrityViolationException: the email is already stored"

  /** What a speciality reference becomes once the doctor row is saved and
      read back: the table keeps only `speciality_id`, so a read sees the
      stored speciality under that id. A reference without an id is an
      unsaved entity and an id naming no speciality breaks the foreign key;
      either fails the save. */
  function ResolveSpeciality(reference: Option<Speciality>, specialities: map<int, Speciality>)
    : (r: Result<Option<Speciality>>)
    ensures r.Ok? <==> reference.None? || (reference.value.id.Some? && reference.value.id.value in specialities)
    ensures !r.Ok? ==> r.InternalError?
    ensures reference.None? ==> r == Ok(None)
    ensures r.Ok? && reference.Some? ==> r.value == Some(specialities[reference.value.id.value])
  {
    match reference
    case None => Ok(None)
    case Some(s) =>
      if s.id.None? then InternalError("TransientPropertyValueException: the speciality is not saved")
      else if s.id.value !in specialities then InternalError("DataIntegrityViolationException: no speciality with that id")
      else Ok(Some(specialities[s.id.value]))
  }

  /** A reference holding only the id of a stored speciality (what the
      request mapper builds) reads back as that stored speciality, description
      included. */
  lemma ResolveIdOnly(specialities: map<int, Speciality>, id: int)
    requires id in specialities
    ensures ResolveSpeciality(Some(Speciality(Some(id), None)), specialities) == Ok(Some(specialities[id]))
    ensures specialities[id].description.Some? ==>
              ResolveSpeciality(Some(Speciality(Some(id), None)), specialities).value.value.description.Some?
  {
  }

  /** An update keeps the doctor's identity and creation time and takes every
      other field from the request. */
  lemma OverwriteKeepsIdentity(saved: Doctor, doctor: Doctor)
    ensures Overwrite(saved, doctor).id == saved.id
    ensures Overwrite(saved, doctor).createdAt == saved.createdAt
    ensures Overwrite(saved, doctor) == doctor.(id := saved.id, createdAt := saved.createdAt)
  {
  }

  /** The last of two updates wins, so repeating an update changes nothing. */
  lemma OverwriteLastWins(saved: Doctor, first: Doctor, second: Doctor)
    ensures Overwrite(Overwrite(saved, first), second) == Overwrite(saved, second)
    ensures Overwrite(Overwrite(saved, second), second) == Overwrite(saved, second)
  {
  }

  class DoctorService {
    var doctors: map<int, Doctor>
    var nextId: int
    const specialities: map<int, Speciality>

    /** Every stored doctor sits under its own generated id, has its @NotNull
        columns set and an email no other doctor has; every speciality sits
        under its own id. */
    ghost predicate Valid()
      reads this
    {
      && nextId >= 1
      && Tables.IdsBelow(doctors, nextId)
      && (forall k :: k in doctors ==> doctors[k].id == Some(k) && NotNullColumnsSet(doctors[k]))
      && (forall j, k :: j in doctors && k in doctors && j != k ==> doctors[j].email != doctors[k].email)
      && (forall k :: k in specialities ==> specialities[k].id == Some(k))
    }

    constructor(specialities: map<int, Speciality>)
      requires forall k :: k in specialities ==> specialities[k].id == Some(k)
      ensures Valid()
      ensures doctors == map[] && nextId == 1 && this.specialities == specialities
    {
      doctors := map[];
      nextId := 1;
      this.specialities := specialities;
    }

    /** `existsByEmail`: some stored doctor has exactly this email. */
    predicate EmailInUse(email: Option<string>)
      reads this
    {
      exists k :: k in doctors && doctors[k].email == email
    }

    /** The unique email column: a doctor other than `id` already has it. */
    predicate EmailTakenByOther(id: int, email: Option<string>)
      reads this
    {
      exists k :: k in doctors && k != id && doctors[k].email == email
    }

    method FindById(id: int) returns (r: Result<Doctor>)
      ensures r.Ok? <==> id in doctors
      ensures r.Ok? ==> r.value == doctors[id]
      ensures !r.Ok? ==> r == NotFound(NotFoundMessage(id))
    {
      if id in doctors {
        return Ok(doctors[id]);
      }
      return NotFound(NotFoundMessage(id));
    }

    /** The filtered, paged search over every stored doctor, in table order
        before sorting. */
    method FindAll(filter: DoctorFilter) returns (r: Result<Paging.Page<Doctor>>)
      requires Valid()
      ensures r.InternalError? <==>
                DoctorRepositoryImpl.PredicateThrows(filter) || !Paging.ValidPaging(filter.page)
      ensures !r.InternalError? ==> r.Ok?
      ensures r.Ok? ==> (Paging.ValidPaging(filter.page) &&
                r.value == Paging.Query(Tables.Scan(doctors, nextId), DoctorRepositoryImpl.Matcher(filter), CreatedAt, filter.page))
      ensures r.Ok? ==> r.value.totalElements == |Tables.Matching(doctors, DoctorRepositoryImpl.Matcher(filter))|
      ensures r.Ok? ==> |r.value.content| <= filter.page.pageSize
      ensures r.Ok? ==> forall i :: 0 <= i < |r.value.content| ==>
                r.value.content[i] in doctors.Values && DoctorRepositoryImpl.Matches(filter, r.value.content[i])
      ensures r.Ok? ==> Paging.NewestFirst(r.value.content, CreatedAt)
    {
      var rows := Tables.Scan(doctors, nextId);
      r := DoctorRepositoryImpl.FindAllWithFilters(rows, filter);
      if r.Ok? {
        var p := DoctorRepositoryImpl.Matcher(filter);
        Tables.CountOfScan(doctors, nextId, p);
        Tables.ScanRows(doctors, nextId);
        Paging.QueryBounds(rows, p, CreatedAt, filter.page);
        Paging.QueryMembers(rows, p, CreatedAt, filter.page);
        Paging.QueryOrdered(rows, p, CreatedAt, filter.page);
      }
    }

    /** Store a new doctor. The email check comes first; then the speciality
        reference must name a stored speciality, which replaces it; then the
        save checks the @NotNull columns. */
    method Insert(doctor: Doctor, now: int) returns (r: Result<Doctor>)
      requires Valid() && doctor.id.None?
      modifies this
      ensures Valid()
      ensures old(EmailInUse(doctor.email)) ==>
                r == BadRequest(EmailTakenMessage(doctor.email))
      ensures !old(EmailInUse(doctor.email)) && SpecialityIdOf(doctor).None? ==> r.InternalError?
      ensures !old(EmailInUse(doctor.email)) && SpecialityIdOf(doctor).Some? &&
              SpecialityIdOf(doctor).value !in specialities ==>
                r == BadRequest(UnknownSpecialityMessage(SpecialityIdOf(doctor).value))
      ensures !old(EmailInUse(doctor.email)) && SpecialityIdOf(doctor).Some? &&
              SpecialityIdOf(doctor).value in specialities && !NotNullColumnsSet(doctor.(createdAt := Some(now))) ==>
                r == InternalError(ConstraintViolationMessage)
      ensures r.Ok? <==> !old(EmailInUse(doctor.email)) && SpecialityIdOf(doctor).Some? &&
                         SpecialityIdOf(doctor).value in specialities &&
                         NotNullColumnsSet(doctor.(createdAt := Some(now)))
      ensures r.Ok? ==>
                && r.value == doctor.(id := Some(old(nextId)),
                                      speciality := Some(specialities[SpecialityIdOf(doctor).value]),
                                      createdAt := Some(now))
                && doctors == old(doctors)[old(nextId) := r.value]
                && old(nextId) !in old(doctors)
      ensures !r.Ok? ==> doctors == old(doctors) && nextId == old(nextId)
    {
      if EmailInUse(doctor.email) {
        return BadRequest(EmailTakenMessage(doctor.email));
      }
      if doctor.speciality.None? {
        return InternalError("NullPointerException: the doctor has no speciality");
      }
      if doctor.speciality.value.id.None? {
        return InternalError("IllegalArgumentException: the given id must not be null");
      }
      var specialityId := doctor.speciality.value.id.value;
      if specialityId !in specialities {
        return BadRequest(UnknownSpecialityMessage(specialityId));
      }
      var saved := doctor.(id := Some(nextId), speciality := Some(specialities[specialityId]), createdAt := Some(now));
      if !NotNullColumnsSet(saved) {
        return InternalError(ConstraintViolationMessage);
      }
      doctors := doctors[nextId := saved];
      nextId := nextId + 1;
      return Ok(saved);
    }

    /** Overwrite a stored doctor's fields. The service checks neither the
        email nor the speciality; the save does: the speciality reference
        must resolve, the @NotNull columns must be set and the email must be
        no other doctor's. */
    method Update(id: int, doctor: Doctor) returns (r: Result<()>)
      requires Valid()
      modifies this
      ensures Valid() && nextId == old(nextId)
      ensures id !in old(doctors) ==> r == NotFound(NotFoundMessage(id))
      ensures r.Ok? <==>
                && id in old(doctors)
                && ResolveSpeciality(doctor.speciality, specialities).Ok?
                && NotNullColumnsSet(doctor.(createdAt := old(doctors)[id].createdAt))
                && !old(EmailTakenByOther(id, doctor.email))
      ensures id in old(doctors) && !r.Ok? ==> r.InternalError?
      ensures r.Ok? ==>
                doctors == old(doctors)[id := Overwrite(old(doctors)[id], doctor).(
                             speciality := ResolveSpeciality(doctor.speciality, specialities).value)]
      ensures r.Ok? && doctor.speciality.Some? ==>
                && doctors[id].speciality == Some(specialities[SpecialityIdOf(doctor).value])
                && doctors[id].speciality.value.id == SpecialityIdOf(doctor)
      ensures !r.Ok? ==> doctors == old(doctors)
    {
      assert forall k :: k in specialities ==> specialities[k].id == Some(k);
      var savedDoctor :- FindById(id);
      var speciality :- ResolveSpeciality(doctor.speciality, specialities);
      var updated := Overwrite(savedDoctor, doctor).(speciality := speciality);
      if !NotNullColumnsSet(updated) {
        return InternalError(ConstraintViolationMessage);
      }
      if EmailTakenByOther(id, updated.email) {
        return InternalError(DuplicateEmailMessage);
      }
      doctors := doctors[id := updated];
      return Ok(());
    }

    /** Remove a stored doctor. */
    method Delete(id: int) returns (r: Result<()>)
      requires Valid()
      modifies this
      ensures Valid() && nextId == old(nextId)
      ensures r.Ok? <==> id in old(doctors)
      ensures r.Ok? ==> doctors == old(doctors) - {id}
      ensures !r.Ok? ==> r == NotFound(NotFoundMessage(id)) && doctors == old(doctors)
    {
      var doctor :- FindById(id);
      doctors := doctors - {id};
      return Ok(());
    }
  }
}

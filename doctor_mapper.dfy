/** Conversions between the doctor request/response records and the stored
    entity. The clock reading is the `now` parameter. */
module DoctorMapper {
  import opened Wrappers
  import opened DoctorModel
  import DoctorServices

  /** A new, unsaved doctor: no id, a speciality reference holding only the
      requested id, created now. */
  function ToDoctor(request: DoctorRequest, now: int): Doctor {
    Doctor(id := None, firstName := Some(request.firstName), lastName := Some(request.lastName),
           title := Some(request.title), speciality := Some(Speciality(Some(request.specialityId), None)),
           email := Some(request.email), phone := request.phone, department := Some(request.department),
           createdAt := Some(now))
  }

  /** The speciality shown to clients: its description, or null. */
  function SpecialityDescription(speciality: Option<Speciality>): (r: Option<string>)
    ensures speciality.Some? ==> r == speciality.value.description
    ensures speciality.None? ==> r.None?
  {
    if speciality.Some? then speciality.value.description else None
  }

  function ToDoctorResponse(doctor: Doctor): DoctorResponse {
    DoctorResponse(doctor.id, doctor.firstName, doctor.lastName, doctor.title,
                   SpecialityDescription(doctor.speciality), doctor.email, doctor.phone, doctor.department)
  }

  /** The request read back from an entity, when every required field and the
      speciality id are present. */
  function RequestOf(doctor: Doctor): Option<DoctorRequest> {
    if && doctor.firstName.Some? && doctor.lastName.Some? && doctor.title.Some?
       && doctor.email.Some? && doctor.department.Some?
       && DoctorServices.SpecialityIdOf(doctor).Some?
    then Some(DoctorRequest(doctor.firstName.value, doctor.lastName.value, doctor.title.value,
                            DoctorServices.SpecialityIdOf(doctor).value, doctor.email.value,
                            doctor.phone, doctor.department.value))
    else None
  }

  /** `toDoctor` loses nothing of the request, sets no id, and stamps the
      creation time; its speciality reference carries only the id, so the
      service's null checks on it never fire for a mapped request. */
  lemma ToDoctorKeepsRequest(request: DoctorRequest, now: int)
    ensures RequestOf(ToDoctor(request, now)) == Some(request)
    ensures ToDoctor(request, now).id.None? && ToDoctor(request, now).createdAt == Some(now)
    ensures DoctorServices.SpecialityIdOf(ToDoctor(request, now)) == Some(request.specialityId)
    ensures SpecialityDescription(ToDoctor(request, now).speciality).None?
  {
  }

  /** `toDoctorResponse` keeps id, names, title, email, phone and
      department, and shows the speciality's description or null. */
  lemma ResponseKeepsFields(doctor: Doctor)
    ensures var r := ToDoctorResponse(doctor);
      && r.id == doctor.id && r.firstName == doctor.firstName && r.lastName == doctor.lastName
      && r.title == doctor.title && r.email == doctor.email && r.phone == doctor.phone
      && r.department == doctor.department
      && (doctor.speciality.None? ==> r.speciality.None?)
      && (doctor.speciality.Some? ==> r.speciality == doctor.speciality.value.description)
  {
  }

  /** A mapped request meets every @NotNull column except the phone, which
      the request leaves optional: without one the save fails. */
  lemma MappedDoctorNotNull(request: DoctorRequest, now: int)
    ensures NotNullColumnsSet(ToDoctor(request, now)) <==> request.phone.Some?
  {
  }

  /** After an update from a mapped request naming a stored speciality, the
      response shows that speciality's stored description, not the null one
      the request's id-only reference carries. */
  lemma UpdatedResponse(saved: Doctor, request: DoctorRequest, now: int, specialities: map<int, Speciality>)
    requires request.specialityId in specialities
    ensures var doctor := ToDoctor(request, now);
      ToDoctorResponse(DoctorServices.Overwrite(saved, doctor).(
        speciality := DoctorServices.ResolveSpeciality(doctor.speciality, specialities).value)).speciality
      == specialities[request.specialityId].description
  {
  }

  /** The response to a successful create shows the request's fields, the
      generated id and the description of the stored speciality. */
  lemma InsertedResponse(request: DoctorRequest, now: int, id: int, speciality: Speciality)
    ensures ToDoctorResponse(ToDoctor(request, now).(id := Some(id), speciality := Some(speciality))) ==
            DoctorResponse(Some(id), Some(request.firstName), Some(request.lastName), Some(request.title),
                           speciality.description, Some(request.email), request.phone, Some(request.department))
  {
  }
}

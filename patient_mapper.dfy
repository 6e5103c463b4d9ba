/** Conversions between the patient request/response records and the stored
    entity. The clock reading is the `now` parameter. */
module PatientMapper {
  import opened Wrappers
  import opened PatientModel

  /** A new, unsaved patient: no id, created now. */
  function ToPatient(request: PatientRequest, now: int): Patient {
    Patient(id := None, firstName := Some(request.firstName), lastName := Some(request.lastName),
            email := Some(request.email), address := request.address,
            dateOfBirth := Some(request.dateOfBirth), createdAt := Some(now))
  }

  /** The response drops the creation time. */
  function ToPatientResponse(patient: Patient): PatientResponse {
    PatientResponse(patient.id, patient.firstName, patient.lastName, patient.email,
                    patient.address, patient.dateOfBirth)
  }

  /** The request read back from a response whose required fields are present. */
  function RequestOf(response: PatientResponse): Option<PatientRequest> {
    if response.firstName.Some? && response.lastName.Some? && response.email.Some? &&
       response.dateOfBirth.Some?
    then Some(PatientRequest(response.firstName.value, response.lastName.value, response.email.value,
                             response.address, response.dateOfBirth.value))
    else None
  }

  /** Round trip: the response of a mapped request gives back the request,
      whatever id the patient is later saved under; the mapped patient has
      no id and was created now. */
  lemma RoundTrip(request: PatientRequest, now: int, id: Option<int>)
    ensures RequestOf(ToPatientResponse(ToPatient(request, now).(id := id))) == Some(request)
    ensures ToPatientResponse(ToPatient(request, now).(id := id)).id == id
    ensures ToPatient(request, now).id.None? && ToPatient(request, now).createdAt == Some(now)
  {
  }

  /** A mapped request meets every @NotNull column except the address, which
      the request leaves optional: without one the save fails. */
  lemma MappedPatientNotNull(request: PatientRequest, now: int)
    ensures NotNullColumnsSet(ToPatient(request, now)) <==> request.address.Some?
  {
  }

  /** Two patients that differ only in their creation time have the same response. */
  lemma ResponseIgnoresCreatedAt(patient: Patient, createdAt: Option<int>)
    ensures ToPatientResponse(patient.(createdAt := createdAt)) == ToPatientResponse(patient)
  {
  }
}

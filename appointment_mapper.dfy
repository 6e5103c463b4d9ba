/** Conversions between the appointment request/response records and the
    stored entity, with null-safe mapping of the nested patient and doctor. */
module AppointmentMapper {
  import opened Wrappers
  import opened DoctorModel
  import opened PatientModel
  import opened AppointmentModel
  import DoctorMapper
  import AppointmentServices

  /** A doctor or patient reference carrying only an id. */
  function DoctorRef(id: int): Doctor {
    Doctor(Some(id), None, None, None, None, None, None, None, None)
  }

  function PatientRef(id: int): Patient {
    Patient(Some(id), None, None, None, None, None, None)
  }

  /** An appointment with every field null. */
  function Blank(): Appointment {
    Appointment(None, None, None, None, None, None, None, None, None, None, None, None, None, None, None)
  }

  /** The cancellation overload: id, patient reference and reason only. */
  function ToCancellation(id: int, patientId: int, request: CancelAppointmentRequest): Appointment {
    Blank().(id := Some(id), patient := Some(PatientRef(patientId)), cancellationReason := request.reason)
  }

  /** The create/update overload: patient and doctor references, start time,
      type, title and description. */
  function ToAppointment(patientId: int, request: AppointmentRequest): Appointment {
    Blank().(patient := Some(PatientRef(patientId)), doctor := Some(DoctorRef(request.doctorId)),
             startTime := Some(request.startTime), appointmentType := request.appointmentType,
             title := request.title, description := request.description)
  }

  function ToPatientAppointment(patient: Option<Patient>): (r: Option<PatientAppointment>)
    ensures r.Some? <==> patient.Some?
    ensures patient.Some? ==>
              && r.value.id == patient.value.id
              && r.value.firstName == patient.value.firstName
              && r.value.lastName == patient.value.lastName
              && r.value.email == patient.value.email
  {
    if patient.None? then None
    else Some(PatientAppointment(patient.value.id, patient.value.firstName, patient.value.lastName,
                                 patient.value.email))
  }

  function ToDoctorAppointment(doctor: Option<Doctor>): (r: Option<DoctorAppointment>)
    ensures r.Some? <==> doctor.Some?
    ensures doctor.Some? ==>
              && r.value.id == doctor.value.id
              && r.value.firstName == doctor.value.firstName
              && r.value.lastName == doctor.value.lastName
              && r.value.title == doctor.value.title
              && (doctor.value.speciality.Some? ==> r.value.speciality == doctor.value.speciality.value.description)
              && (doctor.value.speciality.None? ==> r.value.speciality.None?)
  {
    if doctor.None? then None
    else Some(DoctorAppointment(doctor.value.id, doctor.value.firstName, doctor.value.lastName,
                                doctor.value.title, DoctorMapper.SpecialityDescription(doctor.value.speciality)))
  }

  function ToAppointmentResponse(a: Appointment): AppointmentResponse {
    AppointmentResponse(a.id, ToPatientAppointment(a.patient), ToDoctorAppointment(a.doctor),
                        a.startTime, a.endTime, a.duration, a.title, a.description, a.appointmentType,
                        a.status, a.cancellationTime, a.cancellationReason)
  }

  /** The request read back from an appointment that has a doctor id and a start time. */
  function RequestOf(a: Appointment): Option<AppointmentRequest> {
    if DoctorIdOf(a).Some? && a.startTime.Some?
    then Some(AppointmentRequest(DoctorIdOf(a).value, a.startTime.value, a.appointmentType, a.title, a.description))
    else None
  }

  /** The create overload loses nothing of the request, references the
      given patient, and leaves id, status, end time, duration and
      creation time unset, so the service derives them. */
  lemma ToAppointmentKeepsRequest(patientId: int, request: AppointmentRequest)
    ensures var a := ToAppointment(patientId, request);
      && RequestOf(a) == Some(request)
      && PatientIdOf(a) == Some(patientId) && DoctorIdOf(a) == Some(request.doctorId)
      && a.id.None? && a.status.None? && a.endTime.None? && a.duration.None? && a.createdAt.None?
      && a.cancellationTime.None? && a.cancellationReason.None?
  {
  }

  /** The cancellation overload carries id, patient id and reason, and nothing else. */
  lemma ToCancellationFields(id: int, patientId: int, request: CancelAppointmentRequest)
    ensures var a := ToCancellation(id, patientId, request);
      && a.id == Some(id) && PatientIdOf(a) == Some(patientId) && a.cancellationReason == request.reason
      && a.doctor.None? && a.startTime.None? && a.status.None? && a.cancellationTime.None?
      && a == Blank().(id := a.id, patient := a.patient, cancellationReason := a.cancellationReason)
  {
  }

  /** The response keeps every scalar field, maps a null patient or doctor to
      null, and shows the doctor's speciality by its description or null. */
  lemma ResponseKeepsFields(a: Appointment)
    ensures var r := ToAppointmentResponse(a);
      && r.id == a.id && r.startTime == a.startTime && r.endTime == a.endTime && r.duration == a.duration
      && r.title == a.title && r.description == a.description && r.appointmentType == a.appointmentType
      && r.status == a.status && r.cancellationReason == a.cancellationReason
      && r.cancellationTime == a.cancellationTime
      && (r.patient.None? <==> a.patient.None?) && (r.doctor.None? <==> a.doctor.None?)
      && (a.patient.Some? ==> r.patient.value.id == a.patient.value.id)
      && (a.doctor.Some? ==> r.doctor.value.id == a.doctor.value.id)
      && (a.doctor.Some? && a.doctor.value.speciality.None? ==> r.doctor.value.speciality.None?)
      && (a.doctor.Some? && a.doctor.value.speciality.Some? ==>
            r.doctor.value.speciality == a.doctor.value.speciality.value.description)
  {
  }

  /** Booking a mapped request and mapping it back: SCHEDULED, one hour from
      the requested start, 60 minutes, showing the stored doctor and patient. */
  lemma BookedResponse(patientId: int, request: AppointmentRequest, id: int, doctor: Doctor, patient: Patient, now: int)
    ensures var r := ToAppointmentResponse(AppointmentServices.Booked(ToAppointment(patientId, request), id,
                                                                      doctor, patient, request.startTime, now));
      && r.id == Some(id) && r.status == Some(Scheduled) && r.duration == Some(60)
      && r.startTime == Some(request.startTime) && r.endTime == Some(request.startTime + 3_600_000_000_000)
      && r.title == request.title && r.description == request.description
      && r.appointmentType == request.appointmentType
      && r.patient == ToPatientAppointment(Some(patient)) && r.doctor == ToDoctorAppointment(Some(doctor))
      && r.cancellationTime.None? && r.cancellationReason.None?
  {
  }

  /** The response after cancelling shows CANCELLED, the reason and the time. */
  lemma CancelledResponse(a: Appointment, reason: Option<string>, now: int)
    ensures var r := ToAppointmentResponse(AppointmentServices.CancelledAt(a, reason, now));
      && r.status == Some(Cancelled) && r.cancellationReason == reason && r.cancellationTime == Some(now)
      && r.id == a.id && r.startTime == a.startTime
  {
  }
}

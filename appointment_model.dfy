/** Appointments: the stored entity with its status and type, the search
    filter, the create/update and cancel requests and the response records.
    Timestamps are nanoseconds and dates are day numbers (module Time). */
module AppointmentModel {
  import opened Wrappers
  import Paging
  import opened DoctorModel
  import opened PatientModel

  datatype AppointmentStatus = Scheduled | Confirmed | Completed | Cancelled

  /** The enum constant's name, as an exception message prints it. */
  function StatusName(s: AppointmentStatus): string {
    match s
    case Scheduled => "SCHEDULED"
    case Confirmed => "CONFIRMED"
    case Completed => "COMPLETED"
    case Cancelled => "CANCELLED"
  }

  datatype AppointmentType =
    | AnnualPhysical
    | Consultation
    | FollowUp
    | Vaccination
    | EmergencyVisit
    | SickVisit
    | TherapySession
    | PreOperativeCheckup
    | PosOperativeCheckup

  datatype Appointment = Appointment(
    id: Option<int>,
    patient: Option<Patient>,
    doctor: Option<Doctor>,
    startTime: Option<int>,
    endTime: Option<int>,
    duration: Option<int>,
    appointmentType: Option<AppointmentType>,
    title: Option<string>,
    description: Option<string>,
    status: Option<AppointmentStatus>,
    followUpRequired: Option<bool>,
    cancellationTime: Option<int>,
    cancellationReason: Option<string>,
    createdAt: Option<int>,
    lastUpdated: Option<int>)

  /** The paging settings plus the optional search fields; dates are day numbers. */
  datatype AppointmentFilter = AppointmentFilter(
    page: Paging.PmsFilter,
    patientId: Option<int>,
    doctorId: Option<int>,
    status: Option<AppointmentStatus>,
    startDate: Option<int>,
    endDate: Option<int>)

  /** A validated create/update body: doctor id and start time are present. */
  datatype AppointmentRequest = AppointmentRequest(
    doctorId: int,
    startTime: int,
    appointmentType: Option<AppointmentType>,
    title: Option<string>,
    description: Option<string>)

  datatype CancelAppointmentRequest = CancelAppointmentRequest(reason: Option<string>)

  datatype PatientAppointment = PatientAppointment(
    id: Option<int>,
    firstName: Option<string>,
    lastName: Option<string>,
    email: Option<string>)

  datatype DoctorAppointment = DoctorAppointment(
    id: Option<int>,
    firstName: Option<string>,
    lastName: Option<string>,
    title: Option<string>,
    speciality: Option<string>)

  datatype AppointmentResponse = AppointmentResponse(
    id: Option<int>,
    patient: Option<PatientAppointment>,
    doctor: Option<DoctorAppointment>,
    startTime: Option<int>,
    endTime: Option<int>,
    duration: Option<int>,
    title: Option<string>,
    description: Option<string>,
    appointmentType: Option<AppointmentType>,
    status: Option<AppointmentStatus>,
    cancellationTime: Option<int>,
    cancellationReason: Option<string>)

  /** The ordering key of the appointment queries. */
  function CreatedAt(a: Appointment): Option<int> {
    a.createdAt
  }

  /** The id of the referenced patient, or null. */
  function PatientIdOf(a: Appointment): Option<int> {
    if a.patient.None? then None else a.patient.value.id
  }

  /** The id of the referenced doctor, or null. */
  function DoctorIdOf(a: Appointment): Option<int> {
    if a.doctor.None? then None else a.doctor.value.id
  }
}

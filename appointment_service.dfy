/** The appointment lifecycle: booking stamps the derived fields, update and
    delete are allowed only while SCHEDULED, cancel is allowed from any
    status, and every lookup is scoped by (id, patient id). */
module AppointmentServices {
  import opened Wrappers
  import opened Text
  import Paging
  import Tables
  import Time
  import opened DoctorModel
  import opened PatientModel
  import opened AppointmentModel
  import AppointmentRepositoryImpl
  import DoctorServices
  import PatientServices

  /** Every appointment lasts one hour. */
  const DURATION_MINUTES: int := 60

  function NotFoundMessage(id: int): string {
    "Appointment with Id " + IntToString(id) + " was not found"
  }

  /** `%s` applied to a status that may be null. */
  function StatusText(s: Option<AppointmentStatus>): string {
    if s.Some? then StatusName(s.value) else "null"
  }

  function ConflictMessage(action: string, status: Option<AppointmentStatus>): string {
    "Appointment cannot be " + action + " because it is not in the SCHEDULED state. Current status: '"
      + StatusText(status) + "'."
  }

  /** Only a SCHEDULED appointment may change; the Conflict names the action
      attempted and the status that blocks it. */
  function ValidateScheduledStatus(appointment: Appointment, action: string): (r: Result<()>)
    ensures r.Ok? <==> appointment.status == Some(Scheduled)
    ensures !r.Ok? ==> r.Conflict?
    ensures r.Conflict? ==> Contains(r.msg, action) && Contains(r.msg, StatusText(appointment.status))
  {
    if appointment.status != Some(Scheduled) then
      var msg := ConflictMessage(action, appointment.status);
      assert Contains(msg, action) by {
        ContainsMiddle("Appointment cannot be ", action,
          " because it is not in the SCHEDULED state. Current status: '" + StatusText(appointment.status) + "'.");
        assert msg == "Appointment cannot be " + action +
          (" because it is not in the SCHEDULED state. Current status: '" + StatusText(appointment.status) + "'.");
      }
      assert Contains(msg, StatusText(appointment.status)) by {
        ContainsMiddle("Appointment cannot be " + action + " because it is not in the SCHEDULED state. Current status: '",
          StatusText(appointment.status), "'.");
      }
      Conflict(msg)
    else
      Ok(())
  }

  /** The shape every stored appointment keeps: a start time and an end time
      one hour later, a 60-minute duration, a creation time, a patient and a
      doctor, and a status that only booking and cancelling set, so it is
      SCHEDULED or CANCELLED, and a cancelled one carries its cancellation
      time. */
  predicate InLifecycle(a: Appointment) {
    && a.startTime.Some?
    && a.endTime == Some(Time.PlusHours(a.startTime.value, 1))
    && a.duration == Some(DURATION_MINUTES)
    && a.createdAt.Some?
    && PatientIdOf(a).Some? && DoctorIdOf(a).Some?
    && (a.status == Some(Scheduled) || a.status == Some(Cancelled))
    && (a.status == Some(Cancelled) ==> a.cancellationTime.Some? && a.lastUpdated.Some?)
  }

  /** `insert`: the referenced doctor and patient replaced by the stored
      ones, created now, one hour long, SCHEDULED. */
  function Booked(appointment: Appointment, id: int, doctor: Doctor, patient: Patient, start: int, now: int): Appointment {
    appointment.(id := Some(id), doctor := Some(doctor), patient := Some(patient), createdAt := Some(now),
                 endTime := Some(Time.PlusHours(start, 1)), duration := Some(DURATION_MINUTES),
                 status := Some(Scheduled))
  }

  /** `update`: new doctor, title, description and start time, with end time
      and duration derived again. */
  function Rescheduled(appointment: Appointment, doctor: Doctor, request: AppointmentRequest): Appointment {
    appointment.(doctor := Some(doctor), title := request.title, description := request.description,
                 startTime := Some(request.startTime),
                 endTime := Some(Time.PlusHours(request.startTime, 1)), duration := Some(DURATION_MINUTES))
  }

  /** `cancel`: CANCELLED, with the reason, and cancelled and touched now. */
  function CancelledAt(appointment: Appointment, reason: Option<string>, now: int): Appointment {
    appointment.(cancellationReason := reason, cancellationTime := Some(now), lastUpdated := Some(now),
                 status := Some(Cancelled))
  }

  /** A booked appointment is SCHEDULED, lasts an hour from its start, was
      created now, and enters the lifecycle. */
  lemma BookedStartsLifecycle(appointment: Appointment, id: int, doctor: Doctor, patient: Patient, now: int)
    requires appointment.startTime.Some? && doctor.id.Some? && patient.id.Some?
    ensures var b := Booked(appointment, id, doctor, patient, appointment.startTime.value, now);
      && InLifecycle(b)
      && b.status == Some(Scheduled) && b.duration == Some(60) && b.createdAt == Some(now)
      && b.endTime.value - b.startTime.value == Time.NANOS_PER_HOUR
  {
  }

  /** An update keeps status, type, patient, creation and cancellation data,
      and keeps the appointment in the lifecycle. */
  lemma RescheduleKeeps(appointment: Appointment, doctor: Doctor, request: AppointmentRequest)
    requires InLifecycle(appointment) && doctor.id.Some?
    ensures var u := Rescheduled(appointment, doctor, request);
      && InLifecycle(u)
      && u.endTime == Some(request.startTime + Time.NANOS_PER_HOUR)
      && u.status == appointment.status && u.appointmentType == appointment.appointmentType
      && u.patient == appointment.patient && u.createdAt == appointment.createdAt
      && u.cancellationTime == appointment.cancellationTime
      && u.cancellationReason == appointment.cancellationReason
      && u.lastUpdated == appointment.lastUpdated && u.id == appointment.id
  {
  }

  /** Cancelling keeps the appointment in the lifecycle from any status, and
      afterwards neither update nor delete is allowed. */
  lemma CancelEndsChanges(appointment: Appointment, reason: Option<string>, now: int, action: string)
    requires InLifecycle(appointment)
    ensures InLifecycle(CancelledAt(appointment, reason, now))
    ensures ValidateScheduledStatus(CancelledAt(appointment, reason, now), action).Conflict?
  {
  }

  /** Cancelling twice succeeds again and the second reason and time replace the first. */
  lemma CancelTwiceOverwrites(appointment: Appointment, r1: Option<string>, t1: int, r2: Option<string>, t2: int)
    ensures CancelledAt(CancelledAt(appointment, r1, t1), r2, t2) == CancelledAt(appointment, r2, t2)
  {
  }

  /** Every stored appointment sits under its own generated id and is in the lifecycle. */
  ghost predicate ValidStore(appointments: map<int, Appointment>, nextId: int) {
    && nextId >= 1
    && Tables.IdsBelow(appointments, nextId)
    && (forall k :: k in appointments ==> appointments[k].id == Some(k) && InLifecycle(appointments[k]))
  }

  /** Saving an appointment in the lifecycle under its own id keeps the store valid. */
  lemma SaveKeepsStore(appointments: map<int, Appointment>, nextId: int, id: int, a: Appointment)
    requires ValidStore(appointments, nextId) && 1 <= id < nextId
    requires a.id == Some(id) && InLifecycle(a)
    ensures ValidStore(appointments[id := a], nextId)
  {
  }

  class AppointmentService {
    const doctorService: DoctorServices.DoctorService
    const patientService: PatientServices.PatientService
    var appointments: map<int, Appointment>
    var nextId: int

    ghost predicate Valid()
      reads this
    {
      ValidStore(appointments, nextId)
    }

    constructor(doctorService: DoctorServices.DoctorService, patientService: PatientServices.PatientService)
      ensures Valid()
      ensures appointments == map[] && nextId == 1
      ensures this.doctorService == doctorService && this.patientService == patientService
    {
      this.doctorService := doctorService;
      this.patientService := patientService;
      appointments := map[];
      nextId := 1;
    }

    /** `findByIdAndPatientId`: the appointment exists and is that patient's. */
    predicate BelongsTo(id: int, patientId: int)
      reads this
    {
      id in appointments && PatientIdOf(appointments[id]) == Some(patientId)
    }

    method FindById(id: int, patientId: int) returns (r: Result<Appointment>)
      ensures r.Ok? <==> BelongsTo(id, patientId)
      ensures r.Ok? ==> r.value == appointments[id]
      ensures !r.Ok? ==> r == NotFound(NotFoundMessage(id))
    {
      if id in appointments && PatientIdOf(appointments[id]) == Some(patientId) {
        return Ok(appointments[id]);
      }
      return NotFound(NotFoundMessage(id));
    }

    /** The same lookup with the arguments in (patient id, id) order. */
    method FindByIdEnriched(patientId: int, id: int) returns (r: Result<Appointment>)
      ensures r.Ok? <==> id in appointments && PatientIdOf(appointments[id]) == Some(patientId)
      ensures r.Ok? ==> r.value == appointments[id]
      ensures !r.Ok? ==> r == NotFound(NotFoundMessage(id))
    {
      r := FindById(id, patientId);
    }

    /** One patient's filtered, paged appointments, in table order before
        sorting. */
    method FindAllByPatientId(patientId: int, filter: AppointmentFilter)
      returns (r: Result<Paging.Page<Appointment>>)
      requires Valid()
      ensures r.Ok? <==> Paging.ValidPaging(filter.page)
      ensures !r.Ok? ==> r == Paging.PageableError(filter.page)
      ensures r.Ok? ==> (Paging.ValidPaging(filter.page) &&
                r.value == Paging.Query(Tables.Scan(appointments, nextId),
                                        AppointmentRepositoryImpl.Matcher(patientId, filter),
                                        AppointmentModel.CreatedAt, filter.page))
      ensures r.Ok? ==> (r.value.totalElements ==
                |Tables.Matching(appointments, AppointmentRepositoryImpl.Matcher(patientId, filter))|)
      ensures r.Ok? ==> |r.value.content| <= filter.page.pageSize
      ensures r.Ok? ==> forall i :: 0 <= i < |r.value.content| ==>
                && r.value.content[i] in appointments.Values
                && PatientIdOf(r.value.content[i]) == Some(patientId)
                && AppointmentRepositoryImpl.Matches(patientId, filter, r.value.content[i])
      ensures r.Ok? ==> Paging.NewestFirst(r.value.content, AppointmentModel.CreatedAt)
    {
      var rows := Tables.Scan(appointments, nextId);
      r := AppointmentRepositoryImpl.FindAllWithFilters(rows, patientId, filter);
      if r.Ok? {
        var p := AppointmentRepositoryImpl.Matcher(patientId, filter);
        Tables.CountOfScan(appointments, nextId, p);
        Tables.ScanRows(appointments, nextId);
        Paging.QueryBounds(rows, p, AppointmentModel.CreatedAt, filter.page);
        Paging.QueryMembers(rows, p, AppointmentModel.CreatedAt, filter.page);
        Paging.QueryOrdered(rows, p, AppointmentModel.CreatedAt, filter.page);
      }
    }

    /** Book an appointment: look up the doctor, then the patient (NotFound if
        either is missing), then stamp the derived fields and store it. */
    method Insert(appointment: Appointment, now: int) returns (r: Result<Appointment>)
      requires Valid() && doctorService.Valid() && patientService.Valid() && appointment.id.None?
      modifies this
      ensures Valid()
      ensures DoctorIdOf(appointment).Some? && DoctorIdOf(appointment).value !in doctorService.doctors ==>
                r == NotFound(DoctorServices.NotFoundMessage(DoctorIdOf(appointment).value))
      ensures DoctorIdOf(appointment).Some? && DoctorIdOf(appointment).value in doctorService.doctors &&
              PatientIdOf(appointment).Some? && PatientIdOf(appointment).value !in patientService.patients ==>
                r == NotFound(PatientServices.NotFoundMessage(PatientIdOf(appointment).value))
      ensures r.Ok? <==> && DoctorIdOf(appointment).Some? && DoctorIdOf(appointment).value in doctorService.doctors
                         && PatientIdOf(appointment).Some? && PatientIdOf(appointment).value in patientService.patients
                         && appointment.startTime.Some?
      ensures r.Ok? ==>
                && r.value == Booked(appointment, old(nextId),
                                     doctorService.doctors[DoctorIdOf(appointment).value],
                                     patientService.patients[PatientIdOf(appointment).value],
                                     appointment.startTime.value, now)
                && r.value.status == Some(Scheduled) && r.value.duration == Some(60)
                && r.value.endTime == Some(appointment.startTime.value + Time.NANOS_PER_HOUR)
                && r.value.createdAt == Some(now)
                && appointments == old(appointments)[old(nextId) := r.value]
      ensures !r.Ok? ==> appointments == old(appointments) && nextId == old(nextId)
    {
      if appointment.doctor.None? {
        return InternalError("NullPointerException: the appointment has no doctor");
      }
      if appointment.doctor.value.id.None? {
        return InternalError("IllegalArgumentException: the given id must not be null");
      }
      var doctor :- doctorService.FindById(appointment.doctor.value.id.value);
      if appointment.patient.None? {
        return InternalError("NullPointerException: the appointment has no patient");
      }
      if appointment.patient.value.id.None? {
        return InternalError("IllegalArgumentException: the given id must not be null");
      }
      var patient :- patientService.FindById(appointment.patient.value.id.value);
      if appointment.startTime.None? {
        return InternalError("NullPointerException: the appointment has no start time");
      }
      assert doctor.id.Some? && patient.id.Some?;
      var saved := Booked(appointment, nextId, doctor, patient, appointment.startTime.value, now);
      BookedStartsLifecycle(appointment, nextId, doctor, patient, now);
      SaveKeepsStore(appointments, nextId + 1, nextId, saved);
      appointments := appointments[nextId := saved];
      nextId := nextId + 1;
      return Ok(saved);
    }

    /** Move a SCHEDULED appointment to a new doctor and time. The checks run
        in this order: doctor exists, patient exists, appointment is the
        patient's, appointment is SCHEDULED. */
    method Update(id: int, patientId: int, request: AppointmentRequest) returns (r: Result<Appointment>)
      requires Valid() && doctorService.Valid()
      modifies this
      ensures Valid() && nextId == old(nextId)
      ensures request.doctorId !in doctorService.doctors ==>
                r == NotFound(DoctorServices.NotFoundMessage(request.doctorId))
      ensures request.doctorId in doctorService.doctors && patientId !in patientService.patients ==>
                r == NotFound(PatientServices.NotFoundMessage(patientId))
      ensures request.doctorId in doctorService.doctors && patientId in patientService.patients &&
              !old(BelongsTo(id, patientId)) ==>
                r == NotFound(NotFoundMessage(id))
      ensures request.doctorId in doctorService.doctors && patientId in patientService.patients &&
              old(BelongsTo(id, patientId)) && old(appointments[id].status) != Some(Scheduled) ==>
                r == Conflict(ConflictMessage("updated", old(appointments[id].status)))
      ensures r.Ok? <==> && request.doctorId in doctorService.doctors && patientId in patientService.patients
                         && old(BelongsTo(id, patientId)) && old(appointments[id].status) == Some(Scheduled)
      ensures r.Ok? ==>
                && r.value == Rescheduled(old(appointments[id]), doctorService.doctors[request.doctorId], request)
                && appointments == old(appointments)[id := r.value]
      ensures !r.Ok? ==> appointments == old(appointments)
    {
      var doctor :- doctorService.FindById(request.doctorId);
      var patient :- patientService.FindById(patientId);
      var appointment :- FindById(id, patientId);
      var ok :- ValidateScheduledStatus(appointment, "updated");
      var saved := Rescheduled(appointment, doctor, request);
      RescheduleKeeps(appointment, doctor, request);
      SaveKeepsStore(appointments, nextId, id, saved);
      appointments := appointments[id := saved];
      return Ok(saved);
    }

    /** Cancel one of the patient's appointments, whatever its status. */
    method Cancel(id: int, patientId: int, request: CancelAppointmentRequest, now: int) returns (r: Result<Appointment>)
      requires Valid()
      modifies this
      ensures Valid() && nextId == old(nextId)
      ensures r.Ok? <==> old(BelongsTo(id, patientId))
      ensures r.Ok? ==>
                && r.value == CancelledAt(old(appointments[id]), request.reason, now)
                && r.value.status == Some(Cancelled) && r.value.cancellationReason == request.reason
                && r.value.cancellationTime == Some(now) && r.value.lastUpdated == Some(now)
                && appointments == old(appointments)[id := r.value]
      ensures !r.Ok? ==> r == NotFound(NotFoundMessage(id)) && appointments == old(appointments)
    {
      var appointment :- FindById(id, patientId);
      var saved := CancelledAt(appointment, request.reason, now);
      appointments := appointments[id := saved];
      return Ok(saved);
    }

    /** Delete one of the patient's appointments, only while SCHEDULED. */
    method Delete(patientId: int, id: int) returns (r: Result<()>)
      requires Valid()
      modifies this
      ensures Valid() && nextId == old(nextId)
      ensures !old(BelongsTo(id, patientId)) ==> r == NotFound(NotFoundMessage(id))
      ensures old(BelongsTo(id, patientId)) && old(appointments[id].status) != Some(Scheduled) ==>
                r == Conflict(ConflictMessage("deleted", old(appointments[id].status)))
      ensures r.Ok? <==> old(BelongsTo(id, patientId)) && old(appointments[id].status) == Some(Scheduled)
      ensures r.Ok? ==> appointments == old(appointments) - {id}
      ensures !r.Ok? ==> appointments == old(appointments)
    {
      var appointment :- FindById(id, patientId);
      var ok :- ValidateScheduledStatus(appointment, "deleted");
      appointments := appointments - {id};
      return Ok(());
    }
  }
}

/** Patients: the stored entity, the search filter and the request and
    response records. A Java reference that may be null is an `Option`;
    a date of birth is a day number. */
module PatientModel {
  import opened Wrappers
  import Paging

  datatype Patient = Patient(
    id: Option<int>,
    firstName: Option<string>,
    lastName: Option<string>,
    email: Option<string>,
    address: Option<string>,
    dateOfBirth: Option<int>,
    createdAt: Option<int>)

  datatype PatientFilter = PatientFilter(
    page: Paging.PmsFilter,
    firstName: Option<string>,
    lastName: Option<string>,
    email: Option<string>)

  /** A validated request body: every required field is present. */
  datatype PatientRequest = PatientRequest(
    firstName: string,
    lastName: string,
    email: string,
    address: Option<string>,
    dateOfBirth: int)

  datatype PatientResponse = PatientResponse(
    id: Option<int>,
    firstName: Option<string>,
    lastName: Option<string>,
    email: Option<string>,
    address: Option<string>,
    dateOfBirth: Option<int>)

  /** The columns Patient.java marks @NotNull are set: names, email,
      address, date of birth and creation time. */
  predicate NotNullColumnsSet(p: Patient) {
    && p.firstName.Some? && p.lastName.Some? && p.email.Some?
    && p.address.Some? && p.dateOfBirth.Some? && p.createdAt.Some?
  }

  /** The ordering key of the patient queries. */
  function CreatedAt(p: Patient): Option<int> {
    p.createdAt
  }
}

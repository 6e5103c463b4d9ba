/** Doctors and their specialities: the stored entities, the search filter and
    the request and response records. A Java reference that may be null is an
    `Option`. */
module DoctorModel {
  import opened Wrappers
  import Paging

  datatype Speciality = Speciality(id: Option<int>, description: Option<string>)

  datatype Doctor = Doctor(
    id: Option<int>,
    firstName: Option<string>,
    lastName: Option<string>,
    title: Option<string>,
    speciality: Option<Speciality>,
    email: Option<string>,
    phone: Option<string>,
    department: Option<string>,
    createdAt: Option<int>)

  /** The paging settings plus the optional search fields. */
  datatype DoctorFilter = DoctorFilter(
    page: Paging.PmsFilter,
    firstName: Option<string>,
    lastName: Option<string>,
    email: Option<string>,
    speciality: Option<string>)

  /** A validated request body: every required field is present. */
  datatype DoctorRequest = DoctorRequest(
    firstName: string,
    lastName: string,
    title: string,
    specialityId: int,
    email: string,
    phone: Option<string>,
    department: string)

  datatype DoctorResponse = DoctorResponse(
    id: Option<int>,
    firstName: Option<string>,
    lastName: Option<string>,
    title: Option<string>,
    speciality: Option<string>,
    email: Option<string>,
    phone: Option<string>,
    department: Option<string>)

  /** The columns Doctor.java marks @NotNull are set: names, title, email,
      phone, department and creation time. The speciality may be null. */
  predicate NotNullColumnsSet(d: Doctor) {
    && d.firstName.Some? && d.lastName.Some? && d.title.Some? && d.email.Some?
    && d.phone.Some? && d.department.Some? && d.createdAt.Some?
  }

  /** The ordering key of the doctor queries. */
  function CreatedAt(d: Doctor): Option<int> {
    d.createdAt
  }
}

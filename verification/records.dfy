/** The rows of the clinic's database (accounts/models.py): users with a role
    and an optional doctor's specialisation, patient profiles, appointments,
    medical records, and the status enumerations that go with them. */
module Records {
  import opened Common
  import opened Roles

  // ---------------------------------------------------------------------
  // Calendar values
  // ---------------------------------------------------------------------

  datatype Date = Date(year: int, month: int, day: int)

  datatype Time = Time(hour: int, minute: int, second: int)

  /** Strictly earlier calendar date. */
  predicate DateLess(a: Date, b: Date) {
    a.year < b.year || (a.year == b.year && (a.month < b.month || (a.month == b.month && a.day < b.day)))
  }

  /** Strictly earlier time of day. */
  predicate TimeLess(a: Time, b: Time) {
    a.hour < b.hour || (a.hour == b.hour && (a.minute < b.minute || (a.minute == b.minute && a.second < b.second)))
  }

  // ---------------------------------------------------------------------
  // Users
  // ---------------------------------------------------------------------

  /** The model's specialisation choices: (stored key, display label). */
  const SpecializationChoices: seq<(string, string)> := [
    ("general", "General Practitioner"),
    ("pediatrician", "Pediatrician"),
    ("cardiologist", "Cardiologist"),
    ("dermatologist", "Dermatologist"),
    ("neurologist", "Neurologist"),
    ("neurosurgeon", "Neurosurgeon"),
    ("orthopedic", "Orthopedic Surgeon"),
    ("gynecologist", "Gynecologist"),
    ("psychiatrist", "Psychiatrist"),
    ("radiologist", "Radiologist"),
    ("anesthesiologist", "Anesthesiologist"),
    ("ent", "ENT Specialist"),
    ("ophthalmologist", "Ophthalmologist"),
    ("urologist", "Urologist"),
    ("other", "Other")
  ]

  /** The values the database column accepts for `specialization` (besides blank). */
  function SpecializationKeys(): seq<string> {
    Map(SpecializationChoices, (c: (string, string)) => c.0)
  }

  /** A stored key is always a lower-case slug: each starts with a lower-case letter. */
  lemma SpecializationKeysAreSlugs()
    ensures |SpecializationKeys()| == 15
    ensures forall k :: k in SpecializationKeys() ==> k != "" && 'a' <= k[0] <= 'z'
  {
  }

  datatype User = User(
    id: nat,
    username: string,
    email: string,
    firstName: string,
    lastName: string,
    role: Role,
    specialization: string,
    isStaff: bool,
    isActive: bool)

  datatype CleanError = DoctorNeedsSpecialization | OnlyDoctorsSpecialize

  /** `User.clean`: `None` when the user passes, otherwise the first violated rule. */
  function CleanUser(u: User): (r: Option<CleanError>)
    ensures r.None? <==> (u.role == Doctor <==> u.specialization != "")
    ensures r == Some(DoctorNeedsSpecialization) <==> u.role == Doctor && u.specialization == ""
    ensures r == Some(OnlyDoctorsSpecialize) <==> u.role != Doctor && u.specialization != ""
  {
    if u.role == Doctor && u.specialization == "" then Some(DoctorNeedsSpecialization)
    else if u.role != Doctor && u.specialization != "" then Some(OnlyDoctorsSpecialize)
    else None
  }

  /** First name and last name joined by a space, outer whitespace stripped. */
  function FullName(first: string, last: string): (r: string)
    ensures first == "" && last == "" ==> r == ""
    ensures first != "" && last != "" && !IsSpace(Python, first[0]) && !IsSpace(Python, last[|last| - 1]) ==> r == first + " " + last
    ensures r == [] || (!IsSpace(Python, r[0]) && !IsSpace(Python, r[|r| - 1]))
    ensures exists i, j ::
              && 0 <= i <= j <= |first| + 1 + |last| && r == (first + " " + last)[i..j]
              && AllSpace(Python, (first + " " + last)[..i]) && AllSpace(Python, (first + " " + last)[j..])
  {
    var joined := first + " " + last;
    TrimCutsOnlySpace(Python, joined);
    if first == "" && last == "" then
      assert joined == " ";
      BlankIffAllSpace(Python, joined);
      Trim(Python, joined)
    else if first != "" && last != "" && !IsSpace(Python, first[0]) && !IsSpace(Python, last[|last| - 1]) then
      assert joined[0] == first[0] && joined[|joined| - 1] == last[|last| - 1];
      TrimOfUnpadded(Python, joined);
      Trim(Python, joined)
    else Trim(Python, joined)
  }

  // ---------------------------------------------------------------------
  // Patient profiles
  // ---------------------------------------------------------------------

  datatype PatientStatus = Active | Inactive | Discharged {
    function Code(): string {
      match this
      case Active => "ACTIVE"
      case Inactive => "INACTIVE"
      case Discharged => "DISCHARGED"
    }
  }

  const DefaultPatientStatus: PatientStatus := Active

  datatype Patient = Patient(
    id: nat,
    user: nat,                     // the profile's user (one profile per user)
    assignedDoctor: Option<nat>,   // a DOCTOR user, or nobody
    dateOfBirth: Option<Date>,
    status: PatientStatus,
    notesForDoctor: string,
    createdAt: int)                // the creation time, as a clock reading

  /** Newest profile first: `PatientNewerOrSame(a, b)`: `a` may be listed before `b`. */
  predicate PatientNewerOrSame(a: Patient, b: Patient) {
    a.createdAt >= b.createdAt
  }

  /** The patient profile of a user, if the user has one. */
  function ProfileOf(patients: seq<Patient>, userId: nat): (r: Option<Patient>)
    ensures r.Some? ==> r.value in patients && r.value.user == userId
    ensures r.None? ==> forall p :: p in patients ==> p.user != userId
  {
    if patients == [] then None
    else if patients[0].user == userId then Some(patients[0])
    else ProfileOf(patients[1..], userId)
  }

  /** The patient with a given primary key, if there is one. */
  function PatientById(patients: seq<Patient>, id: nat): (r: Option<Patient>)
    ensures r.Some? ==> r.value in patients && r.value.id == id
    ensures r.None? ==> forall p :: p in patients ==> p.id != id
  {
    if patients == [] then None
    else if patients[0].id == id then Some(patients[0])
    else PatientById(patients[1..], id)
  }

  // ---------------------------------------------------------------------
  // Appointments
  // ---------------------------------------------------------------------

  datatype AppointmentStatus = Requested | Accepted | Declined | Cancelled | Completed {
    function Code(): string {
      match this
      case Requested => "REQUESTED"
      case Accepted => "ACCEPTED"
      case Declined => "DECLINED"
      case Cancelled => "CANCELLED"
      case Completed => "COMPLETED"
    }
  }

  const DefaultAppointmentStatus: AppointmentStatus := Requested

  datatype Appointment = Appointment(
    id: nat,
    patient: nat,
    doctor: nat,
    date: Date,
    time: Time,
    status: AppointmentStatus,
    requestedByPatient: bool,
    notes: string,
    createdAt: int)

  predicate SameSlot(a: Appointment, b: Appointment) {
    a.doctor == b.doctor && a.date == b.date && a.time == b.time
  }

  /** The unique constraint on (doctor, date, time). */
  ghost predicate UniqueSlots(appts: seq<Appointment>) {
    forall i, j :: 0 <= i < j < |appts| ==> !SameSlot(appts[i], appts[j])
  }

  /** Saving a new appointment: refused (an integrity error) when its doctor's slot is taken. */
  function AddAppointment(appts: seq<Appointment>, a: Appointment): (r: Option<seq<Appointment>>)
    ensures r.Some? <==> forall b :: b in appts ==> !SameSlot(b, a)
    ensures r.Some? ==> r.value == appts + [a]
  {
    if exists b | b in appts :: SameSlot(b, a) then None else Some(appts + [a])
  }

  /** Whatever gets saved, no two appointments ever share a doctor's time slot. */
  lemma AddAppointmentKeepsSlotsUnique(appts: seq<Appointment>, a: Appointment)
    requires UniqueSlots(appts)
    ensures AddAppointment(appts, a).Some? ==> UniqueSlots(AddAppointment(appts, a).value)
  {
    var r := AddAppointment(appts, a);
    if r.Some? {
      var s := r.value;
      forall i, j | 0 <= i < j < |s| ensures !SameSlot(s[i], s[j]) {
        if j == |appts| {
          assert s[i] in appts;
        }
      }
    }
  }

  /** The model's default listing order: newest date first, then latest time,
      then most recently created. `ListedNoLaterThan(a, b)`: `a` may come before `b`. */
  predicate ListedNoLaterThan(a: Appointment, b: Appointment) {
    || DateLess(b.date, a.date)
    || (a.date == b.date && (TimeLess(b.time, a.time) || (a.time == b.time && a.createdAt >= b.createdAt)))
  }

  lemma ListingOrderIsTotalPreorder()
    ensures TotalPreorder(ListedNoLaterThan)
  {
    forall a, b, c | ListedNoLaterThan(a, b) && ListedNoLaterThan(b, c)
      ensures ListedNoLaterThan(a, c)
    {
    }
    forall a, b ensures ListedNoLaterThan(a, b) || ListedNoLaterThan(b, a) {
      if !ListedNoLaterThan(a, b) {
        assert a.date == b.date || DateLess(a.date, b.date);
      }
    }
  }

  /** The order administrators and receptionists see: most recently created first. */
  predicate AppointmentNewerOrSame(a: Appointment, b: Appointment) {
    a.createdAt >= b.createdAt
  }

  /** The creation-time orders are total preorders, so sorting by them is defined. */
  lemma NewestFirstOrdersAreTotalPreorders()
    ensures TotalPreorder(PatientNewerOrSame)
    ensures TotalPreorder(AppointmentNewerOrSame)
    ensures TotalPreorder(RecordNewerOrSame)
  {
  }

  /** An appointment listing: the rows in the model's default order. */
  function ListAppointments(appts: seq<Appointment>): (r: seq<Appointment>)
    ensures multiset(r) == multiset(appts)
    ensures forall a :: a in r <==> a in appts
    ensures forall i, j :: 0 <= i < j < |r| ==> ListedNoLaterThan(r[i], r[j])
  {
    ListingOrderIsTotalPreorder();
    var r := SortBy(appts, ListedNoLaterThan);
    assert forall a :: a in r <==> a in multiset(appts);
    r
  }

  // ---------------------------------------------------------------------
  // Medical records and prescriptions
  // ---------------------------------------------------------------------

  datatype MedicalRecord = MedicalRecord(
    id: nat,
    patient: nat,
    appointment: Option<nat>,
    createdBy: Option<nat>,
    symptoms: string,
    diagnosis: string,
    notes: string,
    createdAt: int)

  /** The default listing order of medical records: most recently created first. */
  predicate RecordNewerOrSame(a: MedicalRecord, b: MedicalRecord) {
    a.createdAt >= b.createdAt
  }

  datatype PrescriptionStatus = Pending | Dispensed | Withdrawn {
    /** The stored value; `Withdrawn` is the choice stored as "CANCELLED". */
    function Code(): string {
      match this
      case Pending => "PENDING"
      case Dispensed => "DISPENSED"
      case Withdrawn => "CANCELLED"
    }
  }

  const DefaultPrescriptionStatus: PrescriptionStatus := Pending

  /** Patient statuses have distinct stored values, and a new profile is ACTIVE. */
  lemma PatientStatusCodes()
    ensures forall a: PatientStatus, b: PatientStatus :: a.Code() == b.Code() ==> a == b
    ensures DefaultPatientStatus.Code() == "ACTIVE"
  {
  }

  /** Appointment statuses have distinct stored values, and a new appointment is REQUESTED. */
  lemma AppointmentStatusCodes()
    ensures forall a: AppointmentStatus, b: AppointmentStatus :: a.Code() == b.Code() ==> a == b
    ensures DefaultAppointmentStatus.Code() == "REQUESTED"
  {
  }

  /** Prescription statuses have distinct stored values, and a new prescription is PENDING. */
  lemma PrescriptionStatusCodes()
    ensures forall a: PrescriptionStatus, b: PrescriptionStatus :: a.Code() == b.Code() ==> a == b
    ensures DefaultPrescriptionStatus.Code() == "PENDING"
  {
  }

  /** The tables the account views read and write. */
  datatype Db = Db(
    users: seq<User>,
    patients: seq<Patient>,
    appointments: seq<Appointment>,
    records: seq<MedicalRecord>)
}

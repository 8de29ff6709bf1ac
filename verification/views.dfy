/** The account API's view sets (accounts/views.py): who may list which
    doctors, patients, appointments and medical records, and what creating
    or changing those rows does for each role.

    A request is made by a `Principal`; every view set here requires an
    authenticated user first. A list holds each row the role may see, as
    often as it is stored, in the order the query asks for: newest first
    where the query orders by `-created_at`, the model's default order where
    it relies on that, and table order where the query has no order. */
module AccountViews {
  import opened Common
  import opened Roles
  import opened Records
  import opened Permissions
  import opened Serializers

  /** How a request ends. */
  datatype Outcome<+T> =
    | Done(value: T)
    | Invalid(error: SerializerError)     // a serializer's validation error
    | BadRequest(detail: string)          // a 400 answered by the view itself
    | Unauthenticated
    | Forbidden(detail: string)
    | NotFound
    | IntegrityError                      // the database refuses the row
    | Crash                               // an unhandled exception in the view
  {
    /** The HTTP status of the response, given the status of a success. */
    function Status(success: nat): nat {
      match this
      case Done(_) => success
      case Invalid(_) => 400
      case BadRequest(_) => 400
      case Unauthenticated => 401
      case Forbidden(_) => 403
      case NotFound => 404
      case IntegrityError => 500
      case Crash => 500
    }
  }

  /** A saved row and the table after saving it. */
  datatype Saved<T> = Saved(row: T, table: seq<T>)

  function UserById(users: seq<User>, id: nat): (r: Option<User>)
    ensures r.Some? ==> r.value in users && r.value.id == id
    ensures r.None? ==> forall u :: u in users ==> u.id != id
  {
    FindFirst(users, (u: User) => u.id == id)
  }

  function Usernames(users: seq<User>): set<string> {
    set u | u in users :: u.username
  }

  // ---------------------------------------------------------------------
  // Joins through the patient profile
  // ---------------------------------------------------------------------

  ghost predicate UniquePatientIds(patients: seq<Patient>) {
    forall i, j :: 0 <= i < j < |patients| ==> patients[i].id != patients[j].id
  }

  /** The profile `patientId` belongs to user `userId` (`patient__user`). */
  ghost predicate ProfileOwnedBy(patients: seq<Patient>, patientId: nat, userId: nat) {
    exists pr :: pr in patients && pr.id == patientId && pr.user == userId
  }

  /** The profile `patientId` is assigned to doctor `doctorId` (`patient__assigned_doctor`). */
  ghost predicate ProfileAssignedTo(patients: seq<Patient>, patientId: nat, doctorId: nat) {
    exists pr :: pr in patients && pr.id == patientId && pr.assignedDoctor == Some(doctorId)
  }

  /** With unique primary keys, looking a profile up by key finds the one that has it. */
  lemma {:induction false} PatientByIdFinds(patients: seq<Patient>, pr: Patient)
    requires UniquePatientIds(patients)
    requires pr in patients
    ensures PatientById(patients, pr.id) == Some(pr)
    decreases |patients|
  {
    if patients[0] != pr {
      assert pr in patients[1..];
      assert UniquePatientIds(patients[1..]) by {
        forall i, j | 0 <= i < j < |patients[1..]| ensures patients[1..][i].id != patients[1..][j].id {
          assert patients[1..][i] == patients[i + 1] && patients[1..][j] == patients[j + 1];
        }
      }
      PatientByIdFinds(patients[1..], pr);
      var k :| 0 <= k < |patients| && patients[k] == pr;
      assert k > 0;
    }
  }

  predicate OwnedBy(patients: seq<Patient>, patientId: nat, userId: nat) {
    var pr := PatientById(patients, patientId);
    pr.Some? && pr.value.user == userId
  }

  predicate AssignedTo(patients: seq<Patient>, patientId: nat, doctorId: nat) {
    var pr := PatientById(patients, patientId);
    pr.Some? && pr.value.assignedDoctor == Some(doctorId)
  }

  /** The joins agree with the relations they stand for (the second direction
      needs primary keys to be unique). */
  lemma JoinsAgree(patients: seq<Patient>, patientId: nat, userId: nat)
    ensures OwnedBy(patients, patientId, userId) ==> ProfileOwnedBy(patients, patientId, userId)
    ensures AssignedTo(patients, patientId, userId) ==> ProfileAssignedTo(patients, patientId, userId)
    ensures UniquePatientIds(patients) && ProfileOwnedBy(patients, patientId, userId) ==> OwnedBy(patients, patientId, userId)
    ensures UniquePatientIds(patients) && ProfileAssignedTo(patients, patientId, userId) ==> AssignedTo(patients, patientId, userId)
  {
    if UniquePatientIds(patients) && ProfileOwnedBy(patients, patientId, userId) {
      var pr :| pr in patients && pr.id == patientId && pr.user == userId;
      PatientByIdFinds(patients, pr);
    }
    if UniquePatientIds(patients) && ProfileAssignedTo(patients, patientId, userId) {
      var pr :| pr in patients && pr.id == patientId && pr.assignedDoctor == Some(userId);
      PatientByIdFinds(patients, pr);
    }
  }

  // ---------------------------------------------------------------------
  // Users and doctors
  // ---------------------------------------------------------------------

  /** `UserViewSet.create`: only an authenticated administrator; the
      serializer is the administrator's user-creation one, as written, so a
      doctor is never created this way. */
  function UserCreate(users: seq<User>, p: Principal, input: AdminUserInput, id: nat): (r: Outcome<NewAccount>)
    ensures p.Anonymous? <==> r.Unauthenticated?
    ensures p.Member? && p.user.role != Admin ==> r.Forbidden?
    ensures r.Done? ==> CanManageUsers(p) && r.value.user.username !in Usernames(users)
    ensures r.Done? ==> r.value.user.role != Doctor && CleanUser(r.value.user).None?
    ensures CanManageUsers(p) ==> (r.Done? <==> AdminCreateUser(input, Usernames(users), id).Ok?)
    ensures CanManageUsers(p) && input.role == Some("DOCTOR") ==> r.Invalid?
  {
    if p.Anonymous? then Unauthenticated
    else if !CanManageUsers(p) then Forbidden("You do not have permission to perform this action.")
    else
      AdminCreateUserNeverCreatesDoctor(input, Usernames(users), id);
      match AdminCreateUser(input, Usernames(users), id)
      case Ok(a) => Done(a)
      case Err(e) => Invalid(e)
  }

  /** Corrected: the same view over the corrected serializer, which does create doctors. */
  function UserCreateFixed(users: seq<User>, p: Principal, input: AdminUserInput, id: nat): (r: Outcome<NewAccount>)
    ensures p.Anonymous? <==> r.Unauthenticated?
    ensures p.Member? && p.user.role != Admin ==> r.Forbidden?
    ensures r.Done? ==> CanManageUsers(p) && r.value.user.username !in Usernames(users)
    ensures r.Done? ==> CleanUser(r.value.user).None?
    ensures CanManageUsers(p) ==> (r.Done? <==> AdminCreateUserFixed(input, Usernames(users), id).Ok?)
    ensures CanManageUsers(p) && input.role == Some("DOCTOR") ==>
      (r.Done? <==> AccountAcceptable(input.account, Usernames(users))
                    && input.specialization.Some? && input.specialization.value in OfferedSpecializationKeys)
  {
    if p.Anonymous? then Unauthenticated
    else if !CanManageUsers(p) then Forbidden("You do not have permission to perform this action.")
    else
      assert Parse("DOCTOR") == Some(Doctor);
      match AdminCreateUserFixed(input, Usernames(users), id)
      case Ok(a) => Done(a)
      case Err(e) => Invalid(e)
  }

  /** `DoctorViewSet.get_queryset`. */
  function DoctorList(users: seq<User>, p: Principal): (r: Outcome<seq<User>>)
    ensures p.Anonymous? <==> r.Unauthenticated?
    ensures p.Member? ==> r.Done? && Subsequence(r.value, users)
    ensures p.Member? && p.user.role == Doctor ==> forall u :: u in r.value <==> u in users && u.id == p.user.id
    ensures p.Member? && p.user.role in {Admin, Receptionist} ==> forall u :: u in r.value <==> u in users && u.role == Doctor
    ensures p.Member? && p.user.role !in {Doctor, Admin, Receptionist} ==> r.value == []
  {
    if p.Anonymous? then Unauthenticated
    else
      var me := p.user;
      if me.role == Doctor then Done(Filter(users, (u: User) => u.id == me.id))
      else if me.role in {Admin, Receptionist} then Done(Filter(users, (u: User) => u.role == Doctor))
      else Done([])
  }

  // ---------------------------------------------------------------------
  // Patients
  // ---------------------------------------------------------------------

  /** `PatientViewSet.get_queryset`: a patient's and a doctor's queries have
      no order (table order here); the staff query is newest first. */
  function PatientList(patients: seq<Patient>, p: Principal): (r: Outcome<seq<Patient>>)
    ensures p.Anonymous? <==> r.Unauthenticated?
    ensures p.Member? ==> r.Done? && multiset(r.value) <= multiset(patients)
    ensures p.Member? && p.user.role == Role.Patient ==>
      Subsequence(r.value, patients) && forall x :: x in r.value <==> x in patients && x.user == p.user.id
    ensures p.Member? && p.user.role == Doctor ==>
      Subsequence(r.value, patients) && forall x :: x in r.value <==> x in patients && x.assignedDoctor == Some(p.user.id)
    ensures p.Member? && p.user.role in {Admin, Receptionist} ==>
      multiset(r.value) == multiset(patients) && SortedBy(r.value, PatientNewerOrSame)
    ensures p.Member? && p.user.role in {Nurse, Lab, Pharmacist} ==> r.value == []
  {
    if p.Anonymous? then Unauthenticated
    else
      var me := p.user;
      if me.role == Role.Patient then Done(Filter(patients, (x: Patient) => x.user == me.id))
      else if me.role == Doctor then Done(Filter(patients, (x: Patient) => x.assignedDoctor == Some(me.id)))
      else if me.role in {Admin, Receptionist} then
        NewestFirstOrdersAreTotalPreorders();
        Done(SortBy(patients, PatientNewerOrSame))
      else Done([])
  }

  ghost predicate OneProfilePerUser(patients: seq<Patient>) {
    forall i, j :: 0 <= i < j < |patients| ==> patients[i].user != patients[j].user
  }

  /** With one profile per user (the one-to-one link), a patient sees at most one profile. */
  lemma {:induction false} PatientSeesAtMostOneProfile(patients: seq<Patient>, userId: nat)
    requires OneProfilePerUser(patients)
    ensures Count(patients, (x: Patient) => x.user == userId) <= 1
    decreases |patients|
  {
    if patients != [] {
      var rest := patients[1..];
      assert OneProfilePerUser(rest) by {
        forall i, j | 0 <= i < j < |rest| ensures rest[i].user != rest[j].user {
          assert rest[i] == patients[i + 1] && rest[j] == patients[j + 1];
        }
      }
      if patients[0].user == userId {
        forall x | x in rest ensures x.user != userId {
          var k :| 0 <= k < |rest| && rest[k] == x;
          assert patients[k + 1] == x;
        }
        FilterKeepsNone(rest, (x: Patient) => x.user == userId);
      } else {
        PatientSeesAtMostOneProfile(rest, userId);
      }
    }
  }

  /** `PatientViewSet.create`: only receptionists and administrators; the
      response always carries the password the new user was given. A username
      that is already taken is not caught by the serializer (its username
      field has no uniqueness check) and fails when the user is saved. */
  function PatientCreate(users: seq<User>, p: Principal, input: PatientInput, randomNumber: nat, randomPassword: string, userId: nat, patientId: nat, now: int): (r: Outcome<CreatedPatient>)
    requires 1000 <= randomNumber <= 9999
    requires |randomPassword| == 10 && forall i :: 0 <= i < 10 ==> IsAlphanumeric(randomPassword[i])
    ensures p.Anonymous? <==> r.Unauthenticated?
    ensures p.Member? && p.user.role !in {Receptionist, Admin} ==> r.Forbidden?
    ensures r.Done? ==> p.Member? && p.user.role in {Receptionist, Admin}
    ensures r.Done? ==> r.value.user.role == Role.Patient && r.value.user.username !in Usernames(users)
    ensures r.Done? && input.account.password.None? ==> r.value.generatedPassword == randomPassword
    ensures r.Done? && input.account.password.Some? ==> r.value.generatedPassword == Trim(Python, input.account.password.value)
    ensures p.Member? && p.user.role in {Receptionist, Admin} && !NoBlankSent(input.account) ==> r.Invalid?
    ensures p.Member? && p.user.role in {Receptionist, Admin} && NoBlankSent(input.account) ==>
      var username := if input.account.username.Some? then Trim(Python, input.account.username.value) else "user_" + Decimal(randomNumber);
      && (r.Done? <==> username !in Usernames(users))
      && (r.Done? || r.IntegrityError?)
    ensures r.Done? ==> r.value.patient.createdAt == now
  {
    if p.Anonymous? then Unauthenticated
    else if p.user.role !in {Receptionist, Admin} then Forbidden("Only Admins or Receptionists can create patients.")
    else
      match CreatePatient(input, randomNumber, randomPassword, userId, patientId, now)
      case Err(e) => Invalid(e)
      case Ok(c) => if c.user.username in Usernames(users) then IntegrityError else Done(c)
  }

  // ---------------------------------------------------------------------
  // Appointments
  // ---------------------------------------------------------------------

  /** `AppointmentViewSet.get_queryset`. A patient's appointments are found
      through the profile (`patient__user`); a patient's and a doctor's lists
      keep the model's default order, the staff list is newest first. */
  function AppointmentList(patients: seq<Patient>, appts: seq<Appointment>, p: Principal): (r: Outcome<seq<Appointment>>)
    ensures p.Anonymous? <==> r.Unauthenticated?
    ensures p.Member? ==> r.Done? && multiset(r.value) <= multiset(appts)
    ensures p.Member? && p.user.role in {Role.Patient, Doctor} ==> SortedBy(r.value, ListedNoLaterThan)
    ensures p.Member? && p.user.role == Role.Patient ==>
      forall a :: a in r.value ==> a in appts && ProfileOwnedBy(patients, a.patient, p.user.id)
    ensures p.Member? && p.user.role == Role.Patient && UniquePatientIds(patients) ==>
      forall a :: a in appts && ProfileOwnedBy(patients, a.patient, p.user.id) ==> a in r.value
    ensures p.Member? && p.user.role == Doctor ==> forall a :: a in r.value <==> a in appts && a.doctor == p.user.id
    ensures p.Member? && p.user.role in {Admin, Receptionist} ==>
      multiset(r.value) == multiset(appts) && SortedBy(r.value, AppointmentNewerOrSame)
    ensures p.Member? && p.user.role in {Nurse, Lab, Pharmacist} ==> r.value == []
  {
    if p.Anonymous? then Unauthenticated
    else
      var me := p.user;
      if me.role == Role.Patient then
        var r := ListAppointments(Filter(appts, (a: Appointment) => OwnedBy(patients, a.patient, me.id)));
        forall a | a in appts ensures OwnedBy(patients, a.patient, me.id) ==> ProfileOwnedBy(patients, a.patient, me.id) {
          JoinsAgree(patients, a.patient, me.id);
        }
        forall a | a in appts && UniquePatientIds(patients) ensures ProfileOwnedBy(patients, a.patient, me.id) ==> OwnedBy(patients, a.patient, me.id) {
          JoinsAgree(patients, a.patient, me.id);
        }
        Done(r)
      else if me.role == Doctor then Done(ListAppointments(Filter(appts, (a: Appointment) => a.doctor == me.id)))
      else if me.role in {Admin, Receptionist} then
        NewestFirstOrdersAreTotalPreorders();
        Done(SortBy(appts, AppointmentNewerOrSame))
      else Done([])
  }

  datatype AppointmentRequest = AppointmentRequest(
    patient: Sent<nat>,
    doctor: Option<nat>,
    date: Option<Date>,
    time: Option<Time>,
    status: Option<AppointmentStatus>,
    notes: Option<string>)

  datatype ValidAppointment = ValidAppointment(patient: Option<Patient>, doctor: User, date: Date, time: Time, status: AppointmentStatus, notes: string)

  /** `CreateAppointmentSerializer`: the patient may be omitted, may not be
      `null`, and must exist if given; the doctor is required and must be a user with the DOCTOR role
      (the model limits the choices); date and time are required; the status
      defaults to REQUESTED and the notes to "". */
  function ValidateAppointment(db: Db, req: AppointmentRequest): (r: Result<ValidAppointment, SerializerError>)
    ensures r.Ok? <==> && !req.patient.Null?
                       && (req.patient.Given? ==> PatientById(db.patients, req.patient.value).Some?)
                       && req.doctor.Some? && UserById(db.users, req.doctor.value).Some?
                       && UserById(db.users, req.doctor.value).value.role == Doctor
                       && req.date.Some? && req.time.Some?
    ensures r.Ok? ==> Some(r.value.doctor.id) == req.doctor && r.value.doctor.role == Doctor
    ensures r.Ok? ==> (r.value.patient.Some? <==> req.patient.Given?)
    ensures r.Ok? && req.patient.Given? ==> r.value.patient.value.id == req.patient.value && r.value.patient.value in db.patients
    ensures r.Ok? ==> r.value.status == req.status.GetOr(DefaultAppointmentStatus)
  {
    var patient :- match req.patient
      case Omitted => Ok(None)
      case Null => Err(SerializerError("patient", NotNull))
      case Given(id) =>
        match PatientById(db.patients, id)
        case None => Err(SerializerError("patient", NoSuchObject))
        case Some(pr) => Ok(Some(pr));
    var doctor :- match req.doctor
      case None => Err(SerializerError("doctor", Required))
      case Some(id) =>
        match UserById(db.users, id)
        case Some(u) => if u.role == Doctor then Ok(u) else Err(SerializerError("doctor", NoSuchObject))
        case None => Err(SerializerError("doctor", NoSuchObject));
    var date :- if req.date.Some? then Ok(req.date.value) else Err(SerializerError("date", Required));
    var time :- if req.time.Some? then Ok(req.time.value) else Err(SerializerError("time", Required));
    Ok(ValidAppointment(patient, doctor, date, time, req.status.GetOr(DefaultAppointmentStatus), req.notes.GetOr("")))
  }

  /** `AppointmentViewSet.perform_create`, after validation. A patient books
      for their own profile (whatever patient was sent) and the booking is
      marked as requested by the patient; a receptionist or administrator must
      name the patient; anyone else is refused. A patient user without a
      profile gets a database error, since an appointment needs a patient.
      Saving fails when the doctor's slot is taken. */
  function AppointmentCreate(db: Db, p: Principal, req: AppointmentRequest, id: nat, now: int): (r: Outcome<Saved<Appointment>>)
    ensures p.Anonymous? <==> r.Unauthenticated?
    ensures p.Member? && ValidateAppointment(db, req).Err? ==> r.Invalid?
    ensures r.Done? ==> p.Member? && p.user.role in {Role.Patient, Admin, Receptionist}
    ensures r.Done? ==> r.value.table == db.appointments + [r.value.row]
    ensures r.Done? ==> forall b :: b in db.appointments ==> !SameSlot(b, r.value.row)
    ensures r.Done? ==> Some(r.value.row.doctor) == req.doctor && r.value.row.id == id && r.value.row.createdAt == now
    ensures r.Done? ==> r.value.row.status == req.status.GetOr(DefaultAppointmentStatus)
    ensures r.Done? && p.user.role == Role.Patient ==>
      r.value.row.requestedByPatient && ProfileOf(db.patients, p.user.id).Some?
      && r.value.row.patient == ProfileOf(db.patients, p.user.id).value.id
    ensures r.Done? && p.user.role != Role.Patient ==> !r.value.row.requestedByPatient && req.patient == Given(r.value.row.patient)
    ensures p.Member? && ValidateAppointment(db, req).Ok? ==>
      && (p.user.role !in {Role.Patient, Admin, Receptionist} ==> r.Forbidden?)
      && (p.user.role == Role.Patient && ProfileOf(db.patients, p.user.id).None? ==> r.IntegrityError?)
      && (p.user.role in {Admin, Receptionist} && req.patient.Omitted? ==> r.Forbidden?)
    ensures (&& p.Member? && ValidateAppointment(db, req).Ok?
             && ((p.user.role == Role.Patient && ProfileOf(db.patients, p.user.id).Some?) ||
                 (p.user.role in {Admin, Receptionist} && req.patient.Given?))) ==>
      && (r.Done? <==> forall b :: b in db.appointments ==>
                         !(b.doctor == req.doctor.value && b.date == req.date.value && b.time == req.time.value))
      && (r.Done? || r.IntegrityError?)
  {
    if p.Anonymous? then Unauthenticated
    else
      match ValidateAppointment(db, req)
      case Err(e) => Invalid(e)
      case Ok(v) =>
        var me := p.user;
        var patient: Option<Patient> :=
          if me.role == Role.Patient then ProfileOf(db.patients, me.id)
          else v.patient;
        if me.role !in {Role.Patient, Admin, Receptionist} then Forbidden("You are not allowed to create appointments.")
        else if me.role != Role.Patient && patient.None? then Forbidden("Patient ID is required to create an appointment.")
        else if patient.None? then IntegrityError
        else
          var row := Appointment(id, patient.value.id, v.doctor.id, v.date, v.time, v.status, me.role == Role.Patient, v.notes, now);
          match AddAppointment(db.appointments, row)
          case None => IntegrityError
          case Some(t) => Done(Saved(row, t))
  }

  // ---------------------------------------------------------------------
  // Medical records
  // ---------------------------------------------------------------------

  /** `MedicalRecordViewSet.get_queryset`: every list is newest first. */
  function MedicalRecordList(patients: seq<Patient>, records: seq<MedicalRecord>, p: Principal): (r: Outcome<seq<MedicalRecord>>)
    ensures p.Anonymous? <==> r.Unauthenticated?
    ensures p.Member? ==> r.Done? && multiset(r.value) <= multiset(records) && SortedBy(r.value, RecordNewerOrSame)
    ensures p.Member? && p.user.role == Role.Patient ==>
      forall m :: m in r.value ==> m in records && ProfileOwnedBy(patients, m.patient, p.user.id)
    ensures p.Member? && p.user.role == Doctor ==>
      forall m :: m in r.value ==> m in records && ProfileAssignedTo(patients, m.patient, p.user.id)
    ensures p.Member? && p.user.role == Doctor ==> forall m :: m in r.value ==> AssignedTo(patients, m.patient, p.user.id)
    ensures p.Member? && p.user.role in {Role.Patient, Doctor} && UniquePatientIds(patients) ==>
      forall m :: (m in records && (if p.user.role == Doctor then ProfileAssignedTo(patients, m.patient, p.user.id)
                                    else ProfileOwnedBy(patients, m.patient, p.user.id))) ==> m in r.value
    ensures p.Member? && p.user.role == Lab ==> forall m :: m in r.value <==> m in records && m.createdBy == Some(p.user.id)
    ensures p.Member? && p.user.role == Receptionist ==> r.value == []
    ensures p.Member? && p.user.role in {Admin, Nurse, Pharmacist} ==> multiset(r.value) == multiset(records)
  {
    if p.Anonymous? then Unauthenticated
    else
      var me := p.user;
      NewestFirstOrdersAreTotalPreorders();
      if me.role == Role.Patient then
        forall m | m in records ensures OwnedBy(patients, m.patient, me.id) ==> ProfileOwnedBy(patients, m.patient, me.id)
          ensures UniquePatientIds(patients) ==> (ProfileOwnedBy(patients, m.patient, me.id) ==> OwnedBy(patients, m.patient, me.id)) {
          JoinsAgree(patients, m.patient, me.id);
        }
        Done(SortedFilter(records, (m: MedicalRecord) => OwnedBy(patients, m.patient, me.id), RecordNewerOrSame))
      else if me.role == Doctor then
        forall m | m in records ensures AssignedTo(patients, m.patient, me.id) ==> ProfileAssignedTo(patients, m.patient, me.id)
          ensures UniquePatientIds(patients) ==> (ProfileAssignedTo(patients, m.patient, me.id) ==> AssignedTo(patients, m.patient, me.id)) {
          JoinsAgree(patients, m.patient, me.id);
        }
        Done(SortedFilter(records, (m: MedicalRecord) => AssignedTo(patients, m.patient, me.id), RecordNewerOrSame))
      else if me.role == Lab then Done(SortedFilter(records, (m: MedicalRecord) => m.createdBy == Some(me.id), RecordNewerOrSame))
      else if me.role == Receptionist then Done([])
      else Done(SortBy(records, RecordNewerOrSame))
  }

  /** Every record a doctor can list belongs to a patient that doctor can list. */
  lemma DoctorRecordsAreOfListedPatients(patients: seq<Patient>, records: seq<MedicalRecord>, doctor: User, m: MedicalRecord)
    requires doctor.role == Doctor
    requires m in MedicalRecordList(patients, records, Member(doctor)).value
    ensures exists pr :: pr in PatientList(patients, Member(doctor)).value && pr.id == m.patient
  {
    var pr :| pr in patients && pr.id == m.patient && pr.assignedDoctor == Some(doctor.id);
    assert pr in PatientList(patients, Member(doctor)).value;
  }

  datatype RecordRequest = RecordRequest(
    patient: Sent<nat>,
    appointment: Sent<nat>,
    createdBy: Sent<nat>,
    symptoms: Option<string>,
    diagnosis: Option<string>,
    notes: Option<string>)

  /** The related rows a record request names, each looked up when given; a
      `null` appointment is kept, since it clears the link. */
  datatype RecordLinks = RecordLinks(patient: Option<Patient>, appointment: Sent<nat>, createdBy: Option<User>)

  /** Why a request body was not accepted: a validation error (answered
      with 400), or an exception a validator raised (answered with 500). */
  datatype Rejection = Refused(error: SerializerError) | Raised

  /** `CreateMedicalRecordSerializer` field checks: a given patient or
      appointment must exist, and a given author must exist and be a doctor,
      nurse or lab technician. The patient may not be `null` and is required
      on creation; the appointment and the author may be `null`. A `null`
      author still reaches `validate_created_by`, which reads its role and
      raises, whatever the other fields hold. */
  function ValidateRecordLinks(db: Db, req: RecordRequest, patientRequired: bool): (r: Result<RecordLinks, Rejection>)
    ensures r == Err(Raised) <==> req.createdBy.Null?
    ensures r.Ok? <==> && !req.createdBy.Null? && !req.patient.Null?
                       && (req.patient.Given? ==> PatientById(db.patients, req.patient.value).Some?)
                       && (patientRequired ==> req.patient.Given?)
                       && (req.appointment.Given? ==> exists a :: a in db.appointments && a.id == req.appointment.value)
                       && (req.createdBy.Given? ==>
                            (UserById(db.users, req.createdBy.value).Some?
                             && UserById(db.users, req.createdBy.value).value.role in {Doctor, Nurse, Lab}))
    ensures r.Ok? ==> (r.value.patient.Some? <==> req.patient.Given?)
    ensures r.Ok? && req.patient.Given? ==> r.value.patient.value.id == req.patient.value && r.value.patient.value in db.patients
    ensures r.Ok? ==> r.value.appointment == req.appointment
    ensures r.Ok? && req.createdBy.Given? ==> r.value.createdBy.Some? && r.value.createdBy.value.id == req.createdBy.value
  {
    if req.createdBy.Null? then Err(Raised)
    else
      var patient :- match req.patient
        case Omitted => if patientRequired then Err(Refused(SerializerError("patient", Required))) else Ok(None)
        case Null => Err(Refused(SerializerError("patient", NotNull)))
        case Given(id) =>
          match PatientById(db.patients, id)
          case None => Err(Refused(SerializerError("patient", NoSuchObject)))
          case Some(pr) => Ok(Some(pr));
      var _ :- match req.appointment
        case Given(id) =>
          if exists a :: a in db.appointments && a.id == id then Ok(id) else Err(Refused(SerializerError("appointment", NoSuchObject)))
        case _ => Ok(0);
      var author :- match req.createdBy
        case Given(id) =>
          (match UserById(db.users, id)
           case None => Err(Refused(SerializerError("created_by", NoSuchObject)))
           case Some(u) =>
             match ValidateCreatedBy(u)
             case Err(e) => Err(Refused(SerializerError("created_by", e)))
             case Ok(u') => Ok(Some(u')))
        case _ => Ok(None);
      Ok(RecordLinks(patient, req.appointment, author))
  }

  /** The appointment link a request leaves on a record that had `current`. */
  function LinkedAppointment(current: Option<nat>, sent: Sent<nat>): (r: Option<nat>)
    ensures sent.Given? ==> r == Some(sent.value)
    ensures sent.Null? ==> r.None?
    ensures sent.Omitted? ==> r == current
  {
    match sent
    case Given(id) => Some(id)
    case Null => None
    case Omitted => current
  }

  /** `MedicalRecordViewSet.perform_create`, after validation: a doctor only
      for a patient assigned to them; otherwise only lab technicians and
      administrators; the author is always the requester, whoever was named. */
  function MedicalRecordCreate(db: Db, p: Principal, req: RecordRequest, id: nat, now: int): (r: Outcome<Saved<MedicalRecord>>)
    ensures p.Anonymous? <==> r.Unauthenticated?
    ensures p.Member? && req.createdBy.Null? ==> r.Crash?
    ensures p.Member? && ValidateRecordLinks(db, req, true).Err? && !req.createdBy.Null? ==> r.Invalid?
    ensures r.Done? ==> p.Member? && p.user.role in {Doctor, Lab, Admin}
    ensures r.Done? && p.user.role == Doctor ==> ProfileAssignedTo(db.patients, r.value.row.patient, p.user.id)
    ensures r.Done? ==> r.value.row.createdBy == Some(p.user.id) && Given(r.value.row.patient) == req.patient
    ensures r.Done? ==> r.value.row.appointment == (if req.appointment.Given? then Some(req.appointment.value) else None)
    ensures r.Done? ==> r.value.row.id == id && r.value.row.createdAt == now && r.value.table == db.records + [r.value.row]
    ensures p.Member? && ValidateRecordLinks(db, req, true).Ok? ==>
      && (p.user.role in {Lab, Admin} ==> r.Done?)
      && (p.user.role !in {Doctor, Lab, Admin} ==> r.Forbidden?)
      && (p.user.role == Doctor ==> (r.Done? <==> AssignedTo(db.patients, req.patient.value, p.user.id)))
  {
    if p.Anonymous? then Unauthenticated
    else
      match ValidateRecordLinks(db, req, true)
      case Err(Raised) => Crash
      case Err(Refused(e)) => Invalid(e)
      case Ok(links) =>
        var me := p.user;
        var patient := links.patient.value;
        if me.role == Doctor && patient.assignedDoctor != Some(me.id) then
          Forbidden("You can only add records for your assigned patients.")
        else if me.role !in {Doctor, Lab, Admin} then
          Forbidden("You are not allowed to create medical records.")
        else
          var row := MedicalRecord(id, patient.id, LinkedAppointment(None, links.appointment), Some(me.id),
                                   BlankableText(req.symptoms), BlankableText(req.diagnosis), BlankableText(req.notes), now);
          Done(Saved(row, db.records + [row]))
  }

  /** The record with the given fields of a partial update applied. */
  function ApplyRecordUpdate(m: MedicalRecord, links: RecordLinks, req: RecordRequest): (r: MedicalRecord)
    ensures r.id == m.id && r.createdAt == m.createdAt
    ensures r.patient == (if links.patient.Some? then links.patient.value.id else m.patient)
    ensures links.appointment.Omitted? ==> r.appointment == m.appointment
    ensures links.appointment.Null? ==> r.appointment.None?
    ensures r.createdBy == (if links.createdBy.Some? then Some(links.createdBy.value.id) else m.createdBy)
    ensures req.symptoms.None? ==> r.symptoms == m.symptoms
    ensures req.diagnosis.None? ==> r.diagnosis == m.diagnosis
    ensures req.notes.None? ==> r.notes == m.notes
  {
    MedicalRecord(
      m.id,
      if links.patient.Some? then links.patient.value.id else m.patient,
      LinkedAppointment(m.appointment, links.appointment),
      if links.createdBy.Some? then Some(links.createdBy.value.id) else m.createdBy,
      if req.symptoms.Some? then BlankableText(req.symptoms) else m.symptoms,
      if req.diagnosis.Some? then BlankableText(req.diagnosis) else m.diagnosis,
      if req.notes.Some? then BlankableText(req.notes) else m.notes,
      m.createdAt)
  }

  /** Replaces the rows with key `id` by `row`. */
  function ReplaceRecord(records: seq<MedicalRecord>, id: nat, row: MedicalRecord): (r: seq<MedicalRecord>)
    ensures |r| == |records|
    ensures forall i :: 0 <= i < |records| ==> r[i] == (if records[i].id == id then row else records[i])
  {
    Map(records, (m: MedicalRecord) => if m.id == id then row else m)
  }

  /** The record with key `recordId` among those the requester can list,
      which for a doctor is one of an assigned patient. */
  function FindVisibleRecord(db: Db, p: Principal, recordId: nat): (r: Option<MedicalRecord>)
    requires p.Member?
    ensures r.None? <==> forall m :: m in MedicalRecordList(db.patients, db.records, p).value ==> m.id != recordId
    ensures r.Some? ==> r.value in MedicalRecordList(db.patients, db.records, p).value && r.value.id == recordId
    ensures r.Some? ==> r.value in db.records
    ensures r.Some? && p.user.role == Doctor ==> AssignedTo(db.patients, r.value.patient, p.user.id)
  {
    var visible := MedicalRecordList(db.patients, db.records, p).value;
    var found := FindFirst(visible, (m: MedicalRecord) => m.id == recordId);
    if found.None? then
      assert forall m :: m in visible ==> m.id != recordId;
      found
    else
      assert found.value in visible && found.value.id == recordId;
      assert found.value in multiset(visible);
      found
  }

  /** As written, `MedicalRecordViewSet` partial update: the record is looked
      up among those the requester can list (404 otherwise), the changed
      fields are validated, and a doctor is refused when the record's CURRENT
      patient is not assigned to them. The patient the record is moved to is
      not checked. */
  function MedicalRecordUpdate(db: Db, p: Principal, recordId: nat, req: RecordRequest): (r: Outcome<Saved<MedicalRecord>>)
    ensures p.Anonymous? <==> r.Unauthenticated?
    ensures p.Member? ==> (r.NotFound? <==> forall m :: m in MedicalRecordList(db.patients, db.records, p).value ==> m.id != recordId)
    ensures r.Done? ==> r.value.row.id == recordId && r.value.table == ReplaceRecord(db.records, recordId, r.value.row)
    ensures r.Done? && req.patient.Given? ==> r.value.row.patient == req.patient.value
    ensures p.Member? && !r.NotFound? && req.createdBy.Null? ==> r.Crash?
    ensures r.Done? ==> exists m :: m in MedicalRecordList(db.patients, db.records, p).value && m.id == recordId
    ensures p.Member? && p.user.role == Doctor ==> !r.Forbidden?
  {
    if p.Anonymous? then Unauthenticated
    else
      match FindVisibleRecord(db, p, recordId)
      case None => NotFound
      case Some(m) =>
        match ValidateRecordLinks(db, req, false)
        case Err(Raised) => Crash
        case Err(Refused(e)) => Invalid(e)
        case Ok(links) =>
          if p.user.role == Doctor && !AssignedTo(db.patients, m.patient, p.user.id) then
            Forbidden("You cannot update records for patients not assigned to you.")
          else
            var row := ApplyRecordUpdate(m, links, req);
            Done(Saved(row, ReplaceRecord(db.records, recordId, row)))
  }

  /** The doctor check can never fire, since a doctor only finds records of
      assigned patients; and it only looks at the current patient, so a doctor
      can move one of their records onto a patient who is not assigned to them. */
  lemma DoctorCanMoveRecordToUnassignedPatient(db: Db, doctor: User, m: MedicalRecord, other: Patient)
    requires doctor.role == Doctor
    requires m in MedicalRecordList(db.patients, db.records, Member(doctor)).value
    requires other in db.patients && PatientById(db.patients, other.id) == Some(other)
    requires other.assignedDoctor != Some(doctor.id)
    ensures var r := MedicalRecordUpdate(db, Member(doctor), m.id, RecordRequest(Given(other.id), Omitted, Omitted, None, None, None));
      r.Done? && r.value.row.patient == other.id && !AssignedTo(db.patients, r.value.row.patient, doctor.id)
  {
    var visible := MedicalRecordList(db.patients, db.records, Member(doctor)).value;
    var found := FindFirst(visible, (x: MedicalRecord) => x.id == m.id);
    assert found.Some?;
  }

  /** Corrected: a doctor must also be assigned to the patient a record is moved to. */
  function MedicalRecordUpdateFixed(db: Db, p: Principal, recordId: nat, req: RecordRequest): (r: Outcome<Saved<MedicalRecord>>)
    ensures p.Anonymous? <==> r.Unauthenticated?
    ensures p.Member? ==> (r.NotFound? <==> forall m :: m in MedicalRecordList(db.patients, db.records, p).value ==> m.id != recordId)
    ensures r.Done? ==> r.value.row.id == recordId && r.value.table == ReplaceRecord(db.records, recordId, r.value.row)
    ensures r.Done? && req.patient.Given? ==> r.value.row.patient == req.patient.value
    ensures p.Member? && !r.NotFound? && req.createdBy.Null? ==> r.Crash?
    ensures r.Done? && p.user.role == Doctor ==> ProfileAssignedTo(db.patients, r.value.row.patient, p.user.id)
  {
    if p.Anonymous? then Unauthenticated
    else
      match FindVisibleRecord(db, p, recordId)
      case None => NotFound
      case Some(m) =>
        match ValidateRecordLinks(db, req, false)
        case Err(Raised) => Crash
        case Err(Refused(e)) => Invalid(e)
        case Ok(links) =>
          var row := ApplyRecordUpdate(m, links, req);
          if p.user.role == Doctor && !(AssignedTo(db.patients, m.patient, p.user.id) && AssignedTo(db.patients, row.patient, p.user.id)) then
            Forbidden("You cannot update records for patients not assigned to you.")
          else
            JoinsAgree(db.patients, row.patient, p.user.id);
            Done(Saved(row, ReplaceRecord(db.records, recordId, row)))
  }
}

/** Invoices (billing/models.py, billing/serializers.py, billing/views.py):
    the invoice row and its status, the serializer's field checks, who may
    list, issue and settle invoices, and the unpaid listing.

    Amounts are fixed-point with two decimal places and are modelled as an
    integer number of cents. */
module Billing {
  import opened Common
  import opened Roles
  import opened Records
  import opened Permissions
  import opened Serializers
  import opened AccountViews

  datatype InvoiceStatus = Unpaid | Paid | Cancelled {
    function Code(): string {
      match this
      case Unpaid => "unpaid"
      case Paid => "paid"
      case Cancelled => "cancelled"
    }
  }

  const DefaultInvoiceStatus: InvoiceStatus := Unpaid

  /** The three stored values are distinct and a new invoice is unpaid. */
  lemma InvoiceStatusCodes()
    ensures forall a: InvoiceStatus, b: InvoiceStatus :: a.Code() == b.Code() ==> a == b
    ensures DefaultInvoiceStatus.Code() == "unpaid"
  {
  }

  datatype Invoice = Invoice(
    id: nat,
    patient: nat,
    doctor: Option<nat>,
    appointment: Option<nat>,
    issuedBy: Option<nat>,
    cents: int,
    description: string,
    status: InvoiceStatus,
    createdAt: int)

  /** Every invoice listing's order: most recently created first. */
  predicate InvoiceNewerOrSame(a: Invoice, b: Invoice) {
    a.createdAt >= b.createdAt
  }

  lemma InvoiceOrderIsTotalPreorder()
    ensures TotalPreorder(InvoiceNewerOrSame)
  {
  }

  /** At most ten digits, two of them after the point. */
  const AmountBound: int := 10_000_000_000

  predicate AmountFits(cents: int) {
    -AmountBound < cents < AmountBound
  }

  // ---------------------------------------------------------------------
  // The model's own methods
  // ---------------------------------------------------------------------

  /** What `Invoice.clean` raises. */
  datatype CleanFailure =
    | NameErrorRaised                       // the exception class it names is never imported
    | AmountNotPositive(message: string)    // the validation error evidently meant

  /** As written: an amount of zero or less makes `clean` raise, but the
      exception it raises is not imported, so what escapes is a name error
      rather than a validation error. */
  function CleanInvoice(inv: Invoice): (r: Option<CleanFailure>)
    ensures r.None? <==> inv.cents > 0
    ensures r.Some? ==> r.value == NameErrorRaised
  {
    if inv.cents <= 0 then Some(NameErrorRaised) else None
  }

  /** Corrected: the amount check reports a validation error. */
  function CleanInvoiceFixed(inv: Invoice): (r: Option<CleanFailure>)
    ensures r.None? <==> inv.cents > 0
    ensures r.Some? ==> r.value.AmountNotPositive?
  {
    if inv.cents <= 0 then Some(AmountNotPositive("Amount must be greater than zero.")) else None
  }

  /** The two agree on which invoices pass and differ only in what they raise;
      the invoice with a zero amount shows the difference. */
  lemma CleanRaisesWrongException()
    ensures CleanInvoice(Invoice(1, 1, None, None, None, 0, "", Unpaid, 0)) == Some(NameErrorRaised)
    ensures CleanInvoiceFixed(Invoice(1, 1, None, None, None, 0, "", Unpaid, 0)).value.AmountNotPositive?
    ensures forall inv :: CleanInvoice(inv).None? <==> CleanInvoiceFixed(inv).None?
  {
  }

  /** An invoice that passes `clean` and fits the column has 0 < cents < 10^10. */
  lemma CleanAmountRange(inv: Invoice)
    requires AmountFits(inv.cents) && CleanInvoiceFixed(inv).None?
    ensures 0 < inv.cents < 10_000_000_000
  {
  }

  /** `can_be_paid`. */
  predicate CanBePaid(inv: Invoice) {
    inv.status == Unpaid
  }

  /** The model's `mark_as_paid`: unconditional, and only the status changes. */
  function MarkAsPaid(inv: Invoice): (r: Invoice)
    ensures r.status == Paid
    ensures r.(status := inv.status) == inv
  {
    inv.(status := Paid)
  }

  lemma CanBePaidExactlyUnpaid(inv: Invoice)
    ensures CanBePaid(inv) <==> inv.status.Code() == "unpaid"
    ensures !CanBePaid(MarkAsPaid(inv))
  {
  }

  // ---------------------------------------------------------------------
  // Serializer
  // ---------------------------------------------------------------------

  datatype InvoiceRequest = InvoiceRequest(
    patient: Option<nat>,
    doctor: Option<nat>,
    appointment: Option<nat>,     // `None` also stands for an explicit null
    issuedBy: Option<nat>,
    cents: Option<int>,
    description: Option<string>,
    status: Option<InvoiceStatus>)

  datatype ValidInvoice = ValidInvoice(
    patient: Patient,
    doctor: User,
    appointment: Option<Appointment>,
    issuedBy: Option<User>,
    cents: int,
    description: string,
    status: InvoiceStatus)

  function AppointmentById(appts: seq<Appointment>, id: nat): (r: Option<Appointment>)
    ensures r.Some? ==> r.value in appts && r.value.id == id
    ensures r.None? ==> forall a :: a in appts ==> a.id != id
  {
    FindFirst(appts, (a: Appointment) => a.id == id)
  }

  /** `InvoiceSerializer` field checks: the patient is required and must
      exist; the doctor is required and must be a DOCTOR user; the appointment
      may be left out or null; a given issuer must be an administrator or a
      receptionist; the amount is required and must fit the column. The
      amount's sign is not checked here. */
  function ValidateInvoice(db: Db, req: InvoiceRequest): (r: Result<ValidInvoice, SerializerError>)
    ensures r.Ok? ==> req.patient.Some? && r.value.patient.id == req.patient.value && r.value.patient in db.patients
    ensures r.Ok? ==> req.doctor.Some? && r.value.doctor.id == req.doctor.value && r.value.doctor.role == Doctor && r.value.doctor in db.users
    ensures r.Ok? ==> (r.value.appointment.Some? <==> req.appointment.Some?)
    ensures r.Ok? && req.issuedBy.Some? ==> r.value.issuedBy.Some? && r.value.issuedBy.value.role in {Admin, Receptionist}
    ensures r.Ok? ==> req.cents == Some(r.value.cents) && AmountFits(r.value.cents)
    ensures r.Ok? ==> r.value.status == req.status.GetOr(DefaultInvoiceStatus)
    ensures r.Ok? <==> && req.patient.Some? && PatientById(db.patients, req.patient.value).Some?
                       && req.doctor.Some? && UserById(db.users, req.doctor.value).Some?
                       && UserById(db.users, req.doctor.value).value.role == Doctor
                       && (req.appointment.Some? ==> AppointmentById(db.appointments, req.appointment.value).Some?)
                       && (req.issuedBy.Some? ==>
                            (UserById(db.users, req.issuedBy.value).Some?
                             && UserById(db.users, req.issuedBy.value).value.role in {Admin, Receptionist}))
                       && req.cents.Some? && AmountFits(req.cents.value)
    ensures r.Ok? && req.appointment.Some? ==> r.value.appointment == AppointmentById(db.appointments, req.appointment.value)
  {
    var patient :- match req.patient
      case None => Err(SerializerError("patient", Required))
      case Some(id) =>
        match PatientById(db.patients, id)
        case None => Err(SerializerError("patient", NoSuchObject))
        case Some(pr) => Ok(pr);
    var doctor :- match req.doctor
      case None => Err(SerializerError("doctor", Required))
      case Some(id) =>
        match UserById(db.users, id)
        case Some(u) => if u.role == Doctor then Ok(u) else Err(SerializerError("doctor", NoSuchObject))
        case None => Err(SerializerError("doctor", NoSuchObject));
    var appointment :- match req.appointment
      case None => Ok(None)
      case Some(id) =>
        match AppointmentById(db.appointments, id)
        case None => Err(SerializerError("appointment", NoSuchObject))
        case Some(a) => Ok(Some(a));
    var issuer :- match req.issuedBy
      case None => Ok(None)
      case Some(id) =>
        match UserById(db.users, id)
        case Some(u) => if u.role in {Admin, Receptionist} then Ok(Some(u)) else Err(SerializerError("issued_by", NoSuchObject))
        case None => Err(SerializerError("issued_by", NoSuchObject));
    var cents :- match req.cents
      case None => Err(SerializerError("amount", Required))
      case Some(c) => if AmountFits(c) then Ok(c) else Err(SerializerError("amount", Rejected("Ensure that there are no more than 10 digits in total.")));
    Ok(ValidInvoice(patient, doctor, appointment, issuer, cents, BlankableText(req.description), req.status.GetOr(DefaultInvoiceStatus)))
  }

  /** `InvoiceSerializer.create`: with a request, a missing issuer defaults to the requester. */
  function IssuedByDefault(supplied: Option<nat>, requester: Option<User>): (r: Option<nat>)
    ensures supplied.Some? ==> r == supplied
    ensures supplied.None? && requester.Some? ==> r == Some(requester.value.id)
    ensures supplied.None? && requester.None? ==> r.None?
  {
    if requester.Some? && supplied.None? then Some(requester.value.id) else supplied
  }

  // ---------------------------------------------------------------------
  // Views
  // ---------------------------------------------------------------------

  /** `IsAdminOrReceptionist` reads the role of the request's user without
      checking that there is one: an anonymous request makes it fail with an
      attribute error (`None` here). */
  function IsAdminOrReceptionist(p: Principal): (r: Option<bool>)
    ensures r.None? <==> p.Anonymous?
    ensures r == Some(true) <==> RolePermission(Admin, p) || RolePermission(Receptionist, p)
  {
    if p.Anonymous? then None else Some(p.user.role in {Admin, Receptionist})
  }

  /** `InvoiceViewSet.get_queryset`: every list is newest first. */
  function InvoiceList(patients: seq<Patient>, invoices: seq<Invoice>, p: Principal): (r: Outcome<seq<Invoice>>)
    ensures p.Anonymous? <==> r.Unauthenticated?
    ensures p.Member? ==> r.Done? && multiset(r.value) <= multiset(invoices) && SortedBy(r.value, InvoiceNewerOrSame)
    ensures p.Member? && p.user.role in {Admin, Receptionist} ==> multiset(r.value) == multiset(invoices)
    ensures p.Member? && p.user.role == Doctor ==> forall i :: i in r.value <==> i in invoices && i.doctor == Some(p.user.id)
    ensures p.Member? && p.user.role == Role.Patient ==>
      if ProfileOf(patients, p.user.id).None? then r.value == []
      else forall i :: i in r.value <==> i in invoices && i.patient == ProfileOf(patients, p.user.id).value.id
    ensures p.Member? && p.user.role in {Nurse, Lab, Pharmacist} ==> r.value == []
  {
    if p.Anonymous? then Unauthenticated
    else
      var me := p.user;
      InvoiceOrderIsTotalPreorder();
      if me.role in {Admin, Receptionist} then Done(SortBy(invoices, InvoiceNewerOrSame))
      else if me.role == Doctor then Done(SortedFilter(invoices, (i: Invoice) => i.doctor == Some(me.id), InvoiceNewerOrSame))
      else if me.role == Role.Patient then
        match ProfileOf(patients, me.id)
        case None => Done([])
        case Some(pr) => Done(SortedFilter(invoices, (i: Invoice) => i.patient == pr.id, InvoiceNewerOrSame))
      else Done([])
  }

  /** `InvoiceViewSet.perform_create`, after the serializer's checks: only
      receptionists and administrators; with an appointment, it must be the
      patient's and its doctor replaces the one sent; the issuer is always
      the requester. The raw ids are tested for Python truthiness, so an id of
      0 counts as missing. */
  function InvoiceCreate(db: Db, invoices: seq<Invoice>, p: Principal, req: InvoiceRequest, id: nat, now: int): (r: Outcome<Saved<Invoice>>)
    ensures p.Anonymous? <==> r.Unauthenticated?
    ensures p.Member? && ValidateInvoice(db, req).Err? ==> r.Invalid?
    ensures p.Member? && ValidateInvoice(db, req).Ok? && p.user.role !in {Admin, Receptionist} ==> r.Forbidden?
    ensures r.Done? ==> p.Member? && p.user.role in {Admin, Receptionist}
    ensures r.Done? ==> r.value.row.issuedBy == Some(p.user.id) && r.value.table == invoices + [r.value.row]
    ensures r.Done? ==> Some(r.value.row.patient) == req.patient && r.value.row.id == id
    ensures r.Done? ==> r.value.row.status == req.status.GetOr(DefaultInvoiceStatus) && Some(r.value.row.cents) == req.cents
    ensures r.Done? && r.value.row.appointment.Some? ==>
      exists a :: a in db.appointments && a.id == r.value.row.appointment.value
                  && a.patient == r.value.row.patient && r.value.row.doctor == Some(a.doctor)
    ensures r.Done? && r.value.row.appointment.None? && r.value.row.doctor.Some? ==>
      r.value.row.doctor == req.doctor && exists u :: u in db.users && u.id == req.doctor.value && u.role == Doctor
    ensures r.Done? ==> r.value.row.createdAt == now
    ensures p.Member? && ValidateInvoice(db, req).Ok? && p.user.role in {Admin, Receptionist} ==>
      (r.Done? <==> && req.patient.value != 0
                    && (req.appointment.Some? && req.appointment.value != 0 ==>
                         AppointmentById(db.appointments, req.appointment.value).value.patient == req.patient.value))
    ensures r.Done? || r.Invalid? || r.Forbidden? || r.Unauthenticated?
  {
    if p.Anonymous? then Unauthenticated
    else
      match ValidateInvoice(db, req)
      case Err(e) => Invalid(e)
      case Ok(v) =>
        var me := p.user;
        if me.role !in {Receptionist, Admin} then Forbidden("Only Admins or Receptionists can issue invoices.")
        else if req.patient.value == 0 then Invalid(SerializerError("patient", Rejected("Patient ID is required.")))
        else
          var patient := v.patient;
          var link: Result<(Option<nat>, Option<nat>), SerializerError> :=
            if req.appointment.Some? && req.appointment.value != 0 then
              var a := v.appointment.value;
              if a.patient == patient.id then Ok((Some(a.id), Some(a.doctor)))
              else Err(SerializerError("appointment", Rejected("Invalid appointment for this patient.")))
            else if req.doctor.value != 0 then Ok((None, Some(v.doctor.id)))
            else Ok((None, None));
          match link
          case Err(e) => Invalid(e)
          case Ok((appointment, doctor)) =>
            var row := Invoice(id, patient.id, doctor, appointment, Some(me.id), v.cents, v.description, v.status, now);
            Done(Saved(row, invoices + [row]))
  }

  /** The view never checks the amount's sign: a negative invoice is issued. */
  lemma CreateAcceptsNegativeAmount(db: Db, admin: User, pr: Patient, doctor: User)
    requires admin.role == Admin
    requires pr in db.patients && pr.id > 0 && PatientById(db.patients, pr.id) == Some(pr)
    requires doctor in db.users && doctor.role == Doctor && doctor.id > 0 && UserById(db.users, doctor.id) == Some(doctor)
    ensures var r := InvoiceCreate(db, [], Member(admin), InvoiceRequest(Some(pr.id), Some(doctor.id), None, None, Some(-100), None, None), 1, 0);
      r.Done? && r.value.row.cents == -100 && CleanInvoice(r.value.row).Some?
  {
  }

  /** Replaces the invoice with key `id` by `row`. */
  function ReplaceInvoice(invoices: seq<Invoice>, id: nat, row: Invoice): (r: seq<Invoice>)
    ensures |r| == |invoices|
    ensures forall i :: 0 <= i < |invoices| ==> r[i] == (if invoices[i].id == id then row else invoices[i])
  {
    Map(invoices, (x: Invoice) => if x.id == id then row else x)
  }

  /** The invoice with key `invoiceId` among those the requester can list
      (`get_object`); receptionists and administrators can list every invoice. */
  function FindListedInvoice(patients: seq<Patient>, invoices: seq<Invoice>, p: Principal, invoiceId: nat): (r: Option<Invoice>)
    requires p.Member?
    ensures r.None? <==> forall i :: i in InvoiceList(patients, invoices, p).value ==> i.id != invoiceId
    ensures r.Some? ==> r.value in InvoiceList(patients, invoices, p).value && r.value in invoices && r.value.id == invoiceId
    ensures p.user.role in {Admin, Receptionist} ==> (r.None? <==> forall i :: i in invoices ==> i.id != invoiceId)
  {
    var visible := InvoiceList(patients, invoices, p).value;
    var found := FindFirst(visible, (i: Invoice) => i.id == invoiceId);
    if found.Some? then
      assert found.value in multiset(visible);
      found
    else
      assert p.user.role in {Admin, Receptionist} ==> forall i :: i in invoices ==> i in visible by {
        if p.user.role in {Admin, Receptionist} {
          forall i | i in invoices ensures i in visible {
            assert i in multiset(invoices);
          }
        }
      }
      found
  }

  /** The `mark_as_paid` action. Its only permission is `IsAdminOrReceptionist`
      (the authentication check is replaced, not added to), so an anonymous
      request crashes. An already paid invoice is refused with 400 and left
      alone; any other, a cancelled one included, becomes paid. */
  function MarkAsPaidView(patients: seq<Patient>, invoices: seq<Invoice>, p: Principal, invoiceId: nat): (r: Outcome<Saved<Invoice>>)
    ensures p.Anonymous? <==> r.Crash?
    ensures p.Member? && p.user.role !in {Admin, Receptionist} ==> r.Forbidden?
    ensures p.Member? && p.user.role in {Admin, Receptionist} ==>
      (r.NotFound? <==> forall i :: i in invoices ==> i.id != invoiceId)
    ensures r.BadRequest? ==> exists i :: i in invoices && i.id == invoiceId && i.status == Paid
    ensures r.Done? ==> exists i :: i in invoices && i.id == invoiceId && i.status != Paid && r.value.row == MarkAsPaid(i)
    ensures r.Done? ==> r.value.table == ReplaceInvoice(invoices, invoiceId, r.value.row)
  {
    match IsAdminOrReceptionist(p)
    case None => Crash
    case Some(false) => Forbidden("You do not have permission to perform this action.")
    case Some(true) =>
      match FindListedInvoice(patients, invoices, p, invoiceId)
      case None => NotFound
      case Some(inv) =>
        if inv.status == Paid then BadRequest("Invoice is already marked as paid.")
        else
          var row := MarkAsPaid(inv);
          Done(Saved(row, ReplaceInvoice(invoices, invoiceId, row)))
  }

  /** The action is more permissive than `can_be_paid`: a cancelled invoice,
      which cannot be paid by the model's own rule, is marked paid. */
  lemma MarkAsPaidViewIgnoresCanBePaid(patients: seq<Patient>, receptionist: User, inv: Invoice)
    requires receptionist.role == Receptionist && inv.status == InvoiceStatus.Cancelled
    ensures !CanBePaid(inv)
    ensures var r := MarkAsPaidView(patients, [inv], Member(receptionist), inv.id);
      r.Done? && r.value.row.status == Paid && r.value.table == [MarkAsPaid(inv)]
  {
    var visible := InvoiceList(patients, [inv], Member(receptionist)).value;
    assert visible == [inv];
  }

  /** The `unpaid` action: receptionists and administrators get exactly the unpaid invoices. */
  function UnpaidView(invoices: seq<Invoice>, p: Principal): (r: Outcome<seq<Invoice>>)
    ensures p.Anonymous? <==> r.Unauthenticated?
    ensures p.Member? && p.user.role !in {Admin, Receptionist} ==> r.Forbidden?
    ensures r.Done? ==> Subsequence(r.value, invoices) && forall i :: i in r.value <==> i in invoices && i.status == Unpaid
    ensures r.Done? ==> forall i :: i in r.value ==> CanBePaid(i)
    ensures p.Member? && p.user.role in {Admin, Receptionist} ==> r.Done?
  {
    if p.Anonymous? then Unauthenticated
    else if p.user.role !in {Receptionist, Admin} then Forbidden("Not authorized to view unpaid invoices.")
    else Done(Filter(invoices, (i: Invoice) => i.status == Unpaid))
  }
}

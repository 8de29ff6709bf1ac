/** The pure parts of the doctor's dashboard (clinic-frontend/src/pages/DoctorDashboard.jsx):
    the pending-appointment count, which control each appointment row
    offers, the local effect of approving or declining, and the consultation
    form with its prescription and lab-request rows and the record it sends. */
module Doctor {
  import opened Common

  datatype AppointmentRow = AppointmentRow(
    id: int,
    status: Option<string>,
    patientId: Option<int>,        // a `patient_id` field
    nestedPatientId: Option<int>)  // the id of a nested `patient` object

  // ---------------------------------------------------------------------
  // Pending appointments and row controls
  // ---------------------------------------------------------------------

  /** A status waiting for the doctor's decision, in any letter case. */
  predicate Pending(status: Option<string>) {
    status.Some? && Upper(status.value) in {"REQUESTED", "PENDING"}
  }

  /** The pending-appointments figure of the stats card. */
  function PendingCount(appointments: seq<AppointmentRow>): (n: nat)
    ensures n <= |appointments|
    ensures n == 0 <==> forall i :: 0 <= i < |appointments| ==> !Pending(appointments[i].status)
  {
    var n := Count(appointments, (a: AppointmentRow) => Pending(a.status));
    assert n == 0 <==> forall i :: 0 <= i < |appointments| ==> !Pending(appointments[i].status) by {
      if forall i :: 0 <= i < |appointments| ==> !Pending(appointments[i].status) {
        FilterKeepsNone(appointments, (a: AppointmentRow) => Pending(a.status));
      }
    }
    n
  }

  /** The control an appointment row shows. */
  datatype Control = ApproveOrDecline | StartConsultation | ShowCompleted | ShowStatus(text: Option<string>)

  function ControlFor(a: AppointmentRow): (c: Control)
    ensures c == ApproveOrDecline <==> Pending(a.status)
    ensures c == StartConsultation <==> a.status.Some? && Upper(a.status.value) in {"ACCEPTED", "APPROVED"}
    ensures c == ShowCompleted <==> a.status.Some? && Upper(a.status.value) in {"COMPLETED", "DONE"}
    ensures c.ShowStatus? ==> c.text == a.status
  {
    if a.status.None? then ShowStatus(None)
    else
      var s := Upper(a.status.value);
      if s == "REQUESTED" || s == "PENDING" then ApproveOrDecline
      else if s == "ACCEPTED" || s == "APPROVED" then StartConsultation
      else if s == "COMPLETED" || s == "DONE" then ShowCompleted
      else ShowStatus(a.status)
  }

  /** The pending figure counts exactly the rows that offer approve and decline. */
  lemma PendingCountsApprovableRows(appointments: seq<AppointmentRow>)
    ensures PendingCount(appointments) == Count(appointments, (a: AppointmentRow) => ControlFor(a) == ApproveOrDecline)
  {
    FilterExt(appointments, (a: AppointmentRow) => Pending(a.status), (a: AppointmentRow) => ControlFor(a) == ApproveOrDecline);
  }

  /** The local update after the server accepted an approval or a decline:
      every row with that id gets the new status, nothing else changes. */
  function SetStatus(appointments: seq<AppointmentRow>, id: int, status: string): (r: seq<AppointmentRow>)
    ensures |r| == |appointments|
    ensures forall i :: 0 <= i < |r| ==>
      r[i] == (if appointments[i].id == id then appointments[i].(status := Some(status)) else appointments[i])
  {
    Map(appointments, (a: AppointmentRow) => if a.id == id then a.(status := Some(status)) else a)
  }

  /** Approving sets ACCEPTED; a failed request changes nothing. */
  function Approve(appointments: seq<AppointmentRow>, target: AppointmentRow, succeeded: bool): (r: seq<AppointmentRow>)
    ensures |r| == |appointments|
    ensures forall i :: 0 <= i < |r| ==> r[i].id == appointments[i].id
    ensures forall i :: 0 <= i < |r| && (!succeeded || appointments[i].id != target.id) ==> r[i] == appointments[i]
    ensures succeeded ==> forall i :: 0 <= i < |r| && appointments[i].id == target.id ==> r[i].status == Some("ACCEPTED")
  {
    if succeeded then SetStatus(appointments, target.id, "ACCEPTED") else appointments
  }

  /** Declining asks for confirmation first; it sets DECLINED when confirmed and accepted by the server. */
  function Decline(appointments: seq<AppointmentRow>, target: AppointmentRow, confirmed: bool, succeeded: bool): (r: seq<AppointmentRow>)
    ensures |r| == |appointments|
    ensures forall i :: 0 <= i < |r| ==> r[i].id == appointments[i].id
    ensures forall i :: 0 <= i < |r| && (!(confirmed && succeeded) || appointments[i].id != target.id) ==> r[i] == appointments[i]
    ensures confirmed && succeeded ==> forall i :: 0 <= i < |r| && appointments[i].id == target.id ==> r[i].status == Some("DECLINED")
  {
    if confirmed && succeeded then SetStatus(appointments, target.id, "DECLINED") else appointments
  }

  /** After an approval or a decline the count of pending rows in the list
      drops by exactly the pending rows with that id. (The page's own figure
      is recomputed from a fresh fetch, not from this local update.) */
  lemma {:induction false} DecisionClearsPending(appointments: seq<AppointmentRow>, id: int, status: string)
    requires status in {"ACCEPTED", "DECLINED"}
    ensures PendingCount(SetStatus(appointments, id, status)) + Count(appointments, (a: AppointmentRow) => a.id == id && Pending(a.status))
      == PendingCount(appointments)
    decreases |appointments|
  {
    if appointments != [] {
      var r := SetStatus(appointments, id, status);
      DecisionClearsPending(appointments[1..], id, status);
      assert r[1..] == SetStatus(appointments[1..], id, status);
      DecidedIsNotPending(status);
    }
  }

  /** The two decided statuses are not pending: their length alone rules it out. */
  lemma DecidedIsNotPending(status: string)
    requires status in {"ACCEPTED", "DECLINED"}
    ensures !Pending(Some(status))
  {
    assert |Upper(status)| == 8;
  }

  // ---------------------------------------------------------------------
  // Consultation form
  // ---------------------------------------------------------------------

  datatype Prescription = Prescription(drug: string, dosage: string, frequency: string, duration: string)

  const EmptyPrescription: Prescription := Prescription("", "", "", "")

  datatype PrescriptionField = Drug | Dosage | Frequency | Duration

  function SetField(p: Prescription, field: PrescriptionField, value: string): Prescription {
    match field
    case Drug => p.(drug := value)
    case Dosage => p.(dosage := value)
    case Frequency => p.(frequency := value)
    case Duration => p.(duration := value)
  }

  datatype Form = Form(
    diagnosis: string,
    notes: string,
    prescriptions: seq<Prescription>,
    labRequests: seq<string>,
    admissionRequired: bool,
    followUpDate: string)

  /** Both row lists always hold at least one row. */
  predicate Rows(f: Form) {
    |f.prescriptions| >= 1 && |f.labRequests| >= 1
  }

  /** The form a new consultation starts with. */
  const EmptyForm: Form := Form("", "", [EmptyPrescription], [""], false, "")

  function AddPrescriptionRow(f: Form): (r: Form)
    ensures r.prescriptions == f.prescriptions + [EmptyPrescription]
    ensures r.(prescriptions := f.prescriptions) == f
  {
    f.(prescriptions := f.prescriptions + [EmptyPrescription])
  }

  /** Removes the row at `index`, unless it is the only one (an index past the end removes nothing). */
  function RemovePrescriptionRow(f: Form, index: int): (r: Form)
    ensures r.(prescriptions := f.prescriptions) == f
    ensures |f.prescriptions| <= 1 ==> r == f
    ensures |f.prescriptions| > 1 && 0 <= index < |f.prescriptions| ==>
      r.prescriptions == f.prescriptions[..index] + f.prescriptions[index + 1..]
    ensures !(0 <= index < |f.prescriptions|) ==> r == f
  {
    if |f.prescriptions| > 1 then f.(prescriptions := RemoveAt(f.prescriptions, index)) else f
  }

  /** Keeps every element but the one at `index`, in order. */
  function RemoveAt<T>(s: seq<T>, index: int): (r: seq<T>)
    ensures 0 <= index < |s| ==> |r| == |s| - 1
    ensures 0 <= index < |s| ==> forall j :: 0 <= j < |r| ==> r[j] == (if j < index then s[j] else s[j + 1])
    ensures !(0 <= index < |s|) ==> r == s
  {
    if 0 <= index < |s| then s[..index] + s[index + 1..] else s
  }

  /** Changes one field of one row. */
  function UpdatePrescriptionField(f: Form, index: nat, field: PrescriptionField, value: string): (r: Form)
    requires index < |f.prescriptions|
    ensures r.(prescriptions := f.prescriptions) == f
    ensures |r.prescriptions| == |f.prescriptions|
    ensures forall i :: 0 <= i < |f.prescriptions| && i != index ==> r.prescriptions[i] == f.prescriptions[i]
    ensures r.prescriptions[index] == SetField(f.prescriptions[index], field, value)
  {
    f.(prescriptions := f.prescriptions[index := SetField(f.prescriptions[index], field, value)])
  }

  function AddLabRow(f: Form): (r: Form)
    ensures r.labRequests == f.labRequests + [""]
    ensures r.(labRequests := f.labRequests) == f
  {
    f.(labRequests := f.labRequests + [""])
  }

  function RemoveLabRow(f: Form, index: int): (r: Form)
    ensures r.(labRequests := f.labRequests) == f
    ensures |f.labRequests| <= 1 ==> r == f
    ensures |f.labRequests| > 1 && 0 <= index < |f.labRequests| ==>
      r.labRequests == f.labRequests[..index] + f.labRequests[index + 1..]
    ensures !(0 <= index < |f.labRequests|) ==> r == f
  {
    if |f.labRequests| > 1 then f.(labRequests := RemoveAt(f.labRequests, index)) else f
  }

  function UpdateLabField(f: Form, index: nat, value: string): (r: Form)
    requires index < |f.labRequests|
    ensures r.(labRequests := f.labRequests) == f
    ensures |r.labRequests| == |f.labRequests|
    ensures forall i :: 0 <= i < |f.labRequests| && i != index ==> r.labRequests[i] == f.labRequests[i]
    ensures r.labRequests[index] == value
  {
    f.(labRequests := f.labRequests[index := value])
  }

  /** Every edit of the form keeps at least one row in each list. */
  lemma EditsKeepRows(f: Form, index: int, field: PrescriptionField, value: string)
    requires Rows(f)
    ensures Rows(EmptyForm)
    ensures Rows(AddPrescriptionRow(f)) && Rows(AddLabRow(f))
    ensures Rows(RemovePrescriptionRow(f, index)) && Rows(RemoveLabRow(f, index))
    ensures 0 <= index < |f.prescriptions| ==> Rows(UpdatePrescriptionField(f, index, field, value))
    ensures 0 <= index < |f.labRequests| ==> Rows(UpdateLabField(f, index, value))
  {
  }

  // ---------------------------------------------------------------------
  // Starting and saving a consultation
  // ---------------------------------------------------------------------

  /** A JavaScript `a || b` on two numeric ids: 0 counts as missing. */
  function IdOr(a: Option<int>, b: Option<int>): (r: Option<int>)
    ensures a.Some? && a.value != 0 ==> r == a
    ensures !(a.Some? && a.value != 0) ==> r == b
  {
    if a.Some? && a.value != 0 then a else b
  }

  datatype Consultation = Consultation(patientId: Option<int>, appointment: AppointmentRow, form: Form)

  /** Opening the consultation for an appointment: the patient is taken from
      the appointment and the form starts empty. */
  function StartConsultationFor(a: AppointmentRow): (c: Consultation)
    ensures c.form == EmptyForm && Rows(c.form) && c.appointment == a
    ensures c.patientId == IdOr(a.patientId, a.nestedPatientId)
  {
    Consultation(IdOr(a.patientId, a.nestedPatientId), a, EmptyForm)
  }

  /** The structured notes sent with the record. */
  datatype NotesPayload = NotesPayload(
    prescriptions: seq<Prescription>,
    labRequests: seq<string>,
    admissionRequired: bool,
    followUpDate: string,
    consultationNotes: string)

  datatype RecordPayload = RecordPayload(patient: Option<int>, appointment: int, diagnosis: string, notes: NotesPayload)

  /** The record a save sends, or none when no patient or appointment is
      selected. Only prescriptions with a drug and only non-blank lab
      requests are kept, in order. */
  function SavePayload(selectedPatient: Option<Option<int>>, appointment: Option<AppointmentRow>, f: Form): (r: Option<RecordPayload>)
    ensures r.None? <==> selectedPatient.None? || appointment.None?
    ensures r.Some? ==> r.value.patient == selectedPatient.value && r.value.appointment == appointment.value.id
    ensures r.Some? ==> (r.value.diagnosis == f.diagnosis && r.value.notes.consultationNotes == f.notes
      && r.value.notes.admissionRequired == f.admissionRequired && r.value.notes.followUpDate == f.followUpDate)
    ensures r.Some? ==> var n := r.value.notes;
      && Subsequence(n.prescriptions, f.prescriptions)
      && (forall p :: p in n.prescriptions ==> p in f.prescriptions && !Blank(JavaScript, p.drug))
      && (forall p :: p in f.prescriptions && !Blank(JavaScript, p.drug) ==> p in n.prescriptions)
      && Subsequence(n.labRequests, f.labRequests)
      && (forall l :: l in n.labRequests ==> l in f.labRequests && !Blank(JavaScript, l))
      && (forall l :: l in f.labRequests && !Blank(JavaScript, l) ==> l in n.labRequests)
  {
    if selectedPatient.None? || appointment.None? then None
    else
      Some(RecordPayload(selectedPatient.value, appointment.value.id, f.diagnosis,
        NotesPayload(Filter(f.prescriptions, (p: Prescription) => !Blank(JavaScript, p.drug)),
                     Filter(f.labRequests, (l: string) => !Blank(JavaScript, l)),
                     f.admissionRequired, f.followUpDate, f.notes)))
  }

  /** A form saved straight after opening sends no prescription and no lab request. */
  lemma UntouchedFormSendsNoRows(a: AppointmentRow)
    ensures var c := StartConsultationFor(a);
      var r := SavePayload(Some(c.patientId), Some(a), c.form).value;
      r.notes.prescriptions == [] && r.notes.labRequests == []
  {
    var c := StartConsultationFor(a);
    var n := SavePayload(Some(c.patientId), Some(a), c.form).value.notes;
    assert Blank(JavaScript, "");
    assert forall p :: p in n.prescriptions ==> p == EmptyPrescription;
    assert forall l :: l in n.labRequests ==> l == "";
  }
}

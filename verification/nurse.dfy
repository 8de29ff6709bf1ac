/** The pure parts of the nurse's dashboard (clinic-frontend/src/pages/NurseDashboard.jsx):
    response normalisation, age, the latest-appointment summary per patient,
    the patient search, the local effect of a saved bedside action, and which
    alerts are announced. */
module Nurse {
  import opened Common
  import opened Records

  // ---------------------------------------------------------------------
  // Response normalisation
  // ---------------------------------------------------------------------

  /** A JSON value as a response body carries it. */
  datatype Json = JNull | JBool(b: bool) | JNum(n: int) | JStr(s: string) | JArr(items: seq<Json>) | JObj(fields: map<string, Json>)

  /** A list response, paginated or not: an array as it is, the `results` array of an object, else nothing. */
  function Normalize(data: Json): (r: seq<Json>)
    ensures data.JArr? ==> r == data.items
    ensures data.JObj? && "results" in data.fields && data.fields["results"].JArr? ==> r == data.fields["results"].items
    ensures !data.JArr? && !(data.JObj? && "results" in data.fields && data.fields["results"].JArr?) ==> r == []
  {
    match data
    case JArr(items) => items
    case JObj(fields) => if "results" in fields && fields["results"].JArr? then fields["results"].items else []
    case _ => []
  }

  /** Normalising a normalised list changes nothing. */
  lemma NormalizeIdempotent(data: Json)
    ensures Normalize(JArr(Normalize(data))) == Normalize(data)
  {
  }

  // ---------------------------------------------------------------------
  // Age
  // ---------------------------------------------------------------------

  /** `a` is on or before `b`. */
  predicate DateNoLater(a: Date, b: Date) {
    a == b || DateLess(a, b)
  }

  /** Whole years from `birth` to `today`, none without a birth date: the
      number of birthdays reached, so the birthday in year `birth.year + age`
      is on or before today and the next one is after it. */
  function CalculateAge(birth: Option<Date>, today: Date): (age: Option<int>)
    ensures birth.None? <==> age.None?
    ensures birth.Some? ==> var b := birth.value;
      && DateNoLater(Date(b.year + age.value, b.month, b.day), today)
      && DateLess(today, Date(b.year + age.value + 1, b.month, b.day))
  {
    match birth
    case None => None
    case Some(b) =>
      var years := today.year - b.year;
      var monthDiff := today.month - b.month;
      Some(if monthDiff < 0 || (monthDiff == 0 && today.day < b.day) then years - 1 else years)
  }

  // ---------------------------------------------------------------------
  // Latest appointment per patient
  // ---------------------------------------------------------------------

  /** How an appointment names its patient: a bare id, a nested object, or not at all. */
  datatype PatientField = PatientId(id: int) | PatientObject(nestedId: Option<int>) | NoPatient

  datatype AppointmentRow = AppointmentRow(
    patient: PatientField,
    patientId: Option<int>,      // a separate `patient_id` field
    date: Date,
    time: Option<Time>,          // missing time counts as midnight
    status: Option<string>,
    doctorName: Option<string>)

  /** An appointment belongs to a patient if any of its three patient references names them. */
  predicate BelongsTo(a: AppointmentRow, pid: int) {
    a.patient == PatientId(pid) || a.patient == PatientObject(Some(pid)) || a.patientId == Some(pid)
  }

  function TimeOrMidnight(t: Option<Time>): Time {
    t.GetOr(Time(0, 0, 0))
  }

  /** `a` is strictly later than `b` by date and time. */
  predicate Later(a: AppointmentRow, b: AppointmentRow) {
    DateLess(b.date, a.date) || (a.date == b.date && TimeLess(TimeOrMidnight(b.time), TimeOrMidnight(a.time)))
  }

  /** The first of the latest appointments: what a stable newest-first sort puts at the front. */
  function Latest(s: seq<AppointmentRow>): (r: AppointmentRow)
    requires |s| > 0
    ensures r in s
    ensures forall i :: 0 <= i < |s| ==> !Later(s[i], r)
    ensures exists i :: 0 <= i < |s| && s[i] == r && forall j :: 0 <= j < i ==> Later(r, s[j])
    decreases |s|
  {
    if |s| == 1 then s[0]
    else
      var rest := Latest(s[1..]);
      if Later(rest, s[0]) then
        assert forall i :: 0 <= i < |s| ==> !Later(s[i], rest) by {
          forall i | 0 <= i < |s| ensures !Later(s[i], rest) {
            if i > 0 { assert s[i] == s[1..][i - 1]; }
          }
        }
        assert exists i :: 0 <= i < |s| && s[i] == rest && forall j :: 0 <= j < i ==> Later(rest, s[j]) by {
          var k :| 0 <= k < |s[1..]| && s[1..][k] == rest && forall j :: 0 <= j < k ==> Later(rest, s[1..][j]);
          assert s[k + 1] == rest;
          forall j | 0 <= j < k + 1 ensures Later(rest, s[j]) {
            if j > 0 { assert s[j] == s[1..][j - 1]; }
          }
        }
        rest
      else
        assert forall i :: 0 <= i < |s| ==> !Later(s[i], s[0]) by {
          forall i | 0 <= i < |s| ensures !Later(s[i], s[0]) {
            if i > 0 { assert s[i] == s[1..][i - 1]; }
          }
        }
        s[0]
  }

  /** The badge label for an appointment status, matched case-insensitively. */
  function StatusLabel(status: Option<string>): (badge: string)
    ensures Truthy(status) && Upper(status.value) in {"REQUESTED", "PENDING"} ==> badge == "Pending"
    ensures Truthy(status) && Upper(status.value) in {"ACCEPTED", "APPROVED"} ==> badge == "Approved"
    ensures Truthy(status) && Upper(status.value) in {"COMPLETED", "DONE"} ==> badge == "Completed"
    ensures Truthy(status) && Upper(status.value) == "DECLINED" ==> badge == "Declined"
    ensures Truthy(status) && Upper(status.value) == "CANCELLED" ==> badge == "Cancelled"
    ensures Truthy(status) && Upper(status.value) !in StatusKeys ==> badge == status.value
    ensures !Truthy(status) ==> badge == "Unknown"
  {
    var key := if status.Some? then Upper(status.value) else "";
    if key == "REQUESTED" || key == "PENDING" then "Pending"
    else if key == "ACCEPTED" || key == "APPROVED" then "Approved"
    else if key == "DECLINED" then "Declined"
    else if key == "CANCELLED" then "Cancelled"
    else if key == "COMPLETED" || key == "DONE" then "Completed"
    else OrElse(status, "Unknown")
  }

  const StatusKeys: set<string> := {"REQUESTED", "PENDING", "ACCEPTED", "APPROVED", "DECLINED", "CANCELLED", "COMPLETED", "DONE"}

  /** Statuses that differ only in letter case get the same label. */
  lemma StatusLabelIgnoresCase(s: string, t: string)
    requires Upper(s) == Upper(t) && Upper(s) in StatusKeys
    ensures StatusLabel(Some(s)) == StatusLabel(Some(t))
  {
    assert |Upper(s)| > 0;
  }

  datatype Summary = Summary(badge: string, doctor: Option<string>)

  /** The status column of the patient table: the latest of the patient's appointments. */
  function AppointmentSummary(appointments: seq<AppointmentRow>, pid: int): (r: Summary)
    ensures (forall i :: 0 <= i < |appointments| ==> !BelongsTo(appointments[i], pid)) <==> r == Summary("No Appointment", None)
    ensures r.doctor.Some? <==> exists i :: 0 <= i < |appointments| && BelongsTo(appointments[i], pid)
    ensures r.doctor.Some? ==> exists a :: (a in appointments && BelongsTo(a, pid) && r.badge == StatusLabel(a.status)
      && r.doctor.value == OrElse(a.doctorName, "Unknown Doctor")
      && forall b :: b in appointments && BelongsTo(b, pid) ==> !Later(b, a))
  {
    var mine := Filter(appointments, a => BelongsTo(a, pid));
    if |mine| == 0 then Summary("No Appointment", None)
    else
      var a := Latest(mine);
      Summary(StatusLabel(a.status), Some(OrElse(a.doctorName, "Unknown Doctor")))
  }

  // ---------------------------------------------------------------------
  // Patients: search and bedside actions
  // ---------------------------------------------------------------------

  /** Vital signs as entered (kept as text). */
  datatype Vitals = Vitals(temperature: Option<string>, bloodPressure: Option<string>, heartRate: Option<string>, respiratoryRate: Option<string>)

  datatype PatientRow = PatientRow(
    id: int,
    fullName: Option<string>,
    name: Option<string>,
    firstName: Option<string>,
    lastName: Option<string>,
    username: Option<string>,
    status: Option<string>,
    vitals: Vitals)

  /** The name shown: `full_name`, else `name`, else first and last name joined and trimmed. */
  function DisplayName(p: PatientRow): (n: string)
    ensures Truthy(p.fullName) ==> n == p.fullName.value
    ensures !Truthy(p.fullName) && Truthy(p.name) ==> n == p.name.value
    ensures !Truthy(p.fullName) && !Truthy(p.name) ==> n == Trim(JavaScript, OrElse(p.firstName, "") + " " + OrElse(p.lastName, ""))
  {
    OrElse(p.fullName, OrElse(p.name, Trim(JavaScript, OrElse(p.firstName, "") + " " + OrElse(p.lastName, ""))))
  }

  predicate MatchesSearch(p: PatientRow, search: string) {
    var term := Lower(search);
    Includes(Lower(DisplayName(p)), term) || (Truthy(p.username) && Includes(Lower(p.username.value), term))
  }

  /** The patients shown for a search: those whose name or username contains it, ignoring case, in order. */
  function FilterPatients(patients: seq<PatientRow>, search: string): (r: seq<PatientRow>)
    ensures Subsequence(r, patients)
    ensures forall p :: p in r ==> MatchesSearch(p, search)
    ensures forall p :: p in patients && MatchesSearch(p, search) ==> p in r
    ensures search == "" ==> r == patients
  {
    if search == "" then
      assert forall p :: p in patients ==> MatchesSearch(p, search) by {
        forall p | p in patients ensures MatchesSearch(p, search) {
          IncludesEmpty(Lower(DisplayName(p)));
        }
      }
      FilterKeepsAll(patients, p => MatchesSearch(p, search));
      Filter(patients, p => MatchesSearch(p, search))
    else
      Filter(patients, p => MatchesSearch(p, search))
  }

  /** The action a nurse records at the bedside. */
  datatype Action = View | Admit | Discharge | Attend | Other(name: string)

  function ActionName(a: Action): string {
    match a
    case View => "View"
    case Admit => "Admit"
    case Discharge => "Discharge"
    case Attend => "Attend"
    case Other(n) => n
  }

  /** The status an action gives: the three bedside actions set their own, any other keeps the acted patient's. */
  function StatusAfter(action: Action, acted: PatientRow): (s: Option<string>)
    ensures action == Admit ==> s == Some("Admitted")
    ensures action == Discharge ==> s == Some("Discharged")
    ensures action == Attend ==> s == Some("Attended")
    ensures action !in {Admit, Discharge, Attend} ==> s == acted.status
  {
    match action
    case Admit => Some("Admitted")
    case Discharge => Some("Discharged")
    case Attend => Some("Attended")
    case _ => acted.status
  }

  /** An entered vital replaces the old one only when it is non-empty. */
  function Keep(entered: Option<string>, prior: Option<string>): (v: Option<string>)
    ensures Truthy(entered) ==> v == entered
    ensures !Truthy(entered) ==> v == prior
  {
    if entered.Some? && entered.value != "" then entered else prior
  }

  function UpdateVitals(prior: Vitals, entered: Vitals): Vitals {
    Vitals(Keep(entered.temperature, prior.temperature), Keep(entered.bloodPressure, prior.bloodPressure),
           Keep(entered.heartRate, prior.heartRate), Keep(entered.respiratoryRate, prior.respiratoryRate))
  }

  /** Which actions have been completed for which patient. */
  type Completed = map<int, set<string>>

  datatype Board = Board(patients: seq<PatientRow>, completed: Completed)

  /** The local effect of saving an action, once the server accepted it
      (`saved`): every row with the acted patient's id gets the new status and
      the entered vitals, and the action is ticked for that patient only. A
      view, or a rejected save, changes nothing. */
  function SaveAction(board: Board, acted: PatientRow, action: Action, entered: Vitals, saved: bool): (r: Board)
    ensures action == View || !saved ==> r == board
    ensures |r.patients| == |board.patients|
    ensures forall i :: 0 <= i < |board.patients| && board.patients[i].id != acted.id ==> r.patients[i] == board.patients[i]
    ensures action != View && saved ==> forall i :: 0 <= i < |board.patients| && board.patients[i].id == acted.id ==>
      r.patients[i] == board.patients[i].(status := StatusAfter(action, acted), vitals := UpdateVitals(board.patients[i].vitals, entered))
    ensures r.completed.Keys == board.completed.Keys + (if action != View && saved then {acted.id} else {})
    ensures forall id :: id in board.completed && id != acted.id ==> r.completed[id] == board.completed[id]
    ensures action != View && saved ==> r.completed[acted.id] == (if acted.id in board.completed then board.completed[acted.id] else {}) + {ActionName(action)}
  {
    if action == View || !saved then board
    else
      var status := StatusAfter(action, acted);
      var patients := Map(board.patients, (p: PatientRow) =>
        if p.id == acted.id then p.(status := status, vitals := UpdateVitals(p.vitals, entered)) else p);
      var done := if acted.id in board.completed then board.completed[acted.id] else {};
      Board(patients, board.completed[acted.id := done + {ActionName(action)}])
  }

  /** Ticking an action twice is ticking it once. */
  lemma SaveActionTickIdempotent(board: Board, acted: PatientRow, action: Action, entered: Vitals)
    requires action != View
    ensures var once := SaveAction(board, acted, action, entered, true);
      SaveAction(once, acted, action, entered, true).completed == once.completed
  {
  }

  // ---------------------------------------------------------------------
  // Alerts
  // ---------------------------------------------------------------------

  datatype Alert = Alert(id: int, acknowledged: bool, message: string)

  /** The ids in a list of alerts. */
  function Ids(s: seq<Alert>): set<int> {
    set a | a in s :: a.id
  }

  /** What announcing `alerts` against the remembered `shown` ids yields:
      only unread alerts not shown before, no id twice, the shown ids grown
      by exactly the announced ones, and every unread alert's id remembered. */
  predicate Announced(alerts: seq<Alert>, shown: set<int>, r: (seq<Alert>, set<int>)) {
    && (forall a :: a in r.0 ==> a in alerts && !a.acknowledged && a.id !in shown)
    && (forall i, j :: 0 <= i < j < |r.0| ==> r.0[i].id != r.0[j].id)
    && r.1 == shown + Ids(r.0)
    && (forall a :: a in alerts && !a.acknowledged ==> a.id in r.1)
  }

  /** Announcing the unread alerts of a full reload, one at a time: an alert
      is shown unless its id has been shown before, and its id is then remembered. */
  function {:induction false} AnnounceOnLoad(alerts: seq<Alert>, shown: set<int>): (r: (seq<Alert>, set<int>))
    ensures Announced(alerts, shown, r)
    decreases |alerts|
  {
    if alerts == [] then ([], shown)
    else
      var a := alerts[0];
      var tail := alerts[1..];
      assert alerts == [a] + tail;
      if !a.acknowledged && a.id !in shown then
        var rest := AnnounceOnLoad(tail, shown + {a.id});
        AnnounceFresh(a, tail, shown, rest);
        ([a] + rest.0, rest.1)
      else
        AnnounceOnLoad(tail, shown)
  }

  lemma AnnounceFresh(a: Alert, tail: seq<Alert>, shown: set<int>, rest: (seq<Alert>, set<int>))
    requires !a.acknowledged && a.id !in shown
    requires Announced(tail, shown + {a.id}, rest)
    ensures Announced([a] + tail, shown, ([a] + rest.0, rest.1))
  {
    var out := [a] + rest.0;
    IdsCons(a, rest.0);
    forall i, j | 0 <= i < j < |out| ensures out[i].id != out[j].id {
      assert out[j] == rest.0[j - 1];
      if i > 0 { assert out[i] == rest.0[i - 1]; }
    }
    forall b | b in out ensures b in [a] + tail && !b.acknowledged && b.id !in shown {
      if b != a { assert b in rest.0; }
    }
  }

  lemma IdsCons(a: Alert, s: seq<Alert>)
    ensures Ids([a] + s) == {a.id} + Ids(s)
  {
    assert forall b :: b in [a] + s <==> b == a || b in s;
  }

  /** Announcing on a poll: the new unread alerts are selected against the
      remembered ids first, then all announced and remembered. */
  function AnnounceOnPoll(alerts: seq<Alert>, shown: set<int>): (r: (seq<Alert>, set<int>))
    ensures forall a :: a in r.0 ==> a in alerts && !a.acknowledged && a.id !in shown
    ensures r.1 == shown + Ids(r.0)
    ensures forall a :: a in alerts && !a.acknowledged ==> a.id in r.1
  {
    var unseen := Filter(alerts, (a: Alert) => a.id !in shown && !a.acknowledged);
    (unseen, shown + Ids(unseen))
  }

  /** An alert already announced is never announced again, on a reload or a poll. */
  lemma AnnouncedOnce(alerts: seq<Alert>, later: seq<Alert>, shown: set<int>)
    ensures var (first, remembered) := AnnounceOnLoad(alerts, shown);
      (forall a :: a in AnnounceOnLoad(later, remembered).0 ==> a.id !in Ids(first))
      && (forall a :: a in AnnounceOnPoll(later, remembered).0 ==> a.id !in Ids(first))
  {
  }
}

/** The pure parts of the receptionist's patient page (clinic-frontend/src/pages/PatientDetails.jsx):
    which appointments belong to the page's patient, the append-only notes
    for the doctor, and the list of distinct doctors the patient has seen. */
module PatientDetails {
  import opened Common

  datatype AppointmentRow = AppointmentRow(
    nestedPatientId: Option<int>,    // the id of the nested `patient` object
    doctorName: Option<string>,
    doctorSpecialty: Option<string>)

  // ---------------------------------------------------------------------
  // The patient's appointments
  // ---------------------------------------------------------------------

  /** The appointments of the patient whose id the route names, in order. A
      route id that does not parse as a number matches nothing. */
  function PatientAppointments(appointments: seq<AppointmentRow>, routeId: Option<int>): (r: seq<AppointmentRow>)
    ensures Subsequence(r, appointments)
    ensures forall a :: a in r ==> routeId.Some? && a.nestedPatientId == routeId
    ensures routeId.Some? ==> forall a :: a in appointments && a.nestedPatientId == routeId ==> a in r
  {
    Filter(appointments, (a: AppointmentRow) => routeId.Some? && a.nestedPatientId == routeId)
  }

  // ---------------------------------------------------------------------
  // Notes for the doctor
  // ---------------------------------------------------------------------

  /** The line a note becomes: the date in brackets, then the note as typed. */
  function Entry(today: string, note: string): string {
    "[" + today + "] " + note
  }

  /** The notes after saving `note`: appended on a new line after the old
      notes, or alone when there were none. */
  function AppendNote(notes: Option<string>, today: string, note: string): (r: string)
    ensures Truthy(notes) ==> |notes.value| < |r| && r[..|notes.value|] == notes.value && r[|notes.value|..] == "\n" + Entry(today, note)
    ensures !Truthy(notes) ==> r == Entry(today, note)
  {
    if notes.Some? && notes.value != "" then notes.value + "\n" + Entry(today, note) else Entry(today, note)
  }

  datatype NotesState = NotesState(notes: Option<string>, draft: string)

  /** Saving the draft: a blank draft does nothing and sends nothing; a save
      the server accepts appends the entry and empties the draft; a refused
      one leaves everything as it was. */
  function SaveNotes(s: NotesState, today: string, succeeded: bool): (r: NotesState)
    ensures Blank(JavaScript, s.draft) || !succeeded ==> r == s
    ensures !Blank(JavaScript, s.draft) && succeeded ==> r == NotesState(Some(AppendNote(s.notes, today, s.draft)), "")
  {
    if Blank(JavaScript, s.draft) || !succeeded then s
    else NotesState(Some(AppendNote(s.notes, today, s.draft)), "")
  }

  /** Notes only grow: whatever is saved, the earlier notes stay a prefix of the new ones. */
  lemma NotesAreAppendOnly(s: NotesState, today: string, succeeded: bool)
    requires s.notes.Some?
    ensures var r := SaveNotes(s, today, succeeded);
      r.notes.Some? && |s.notes.value| <= |r.notes.value| && r.notes.value[..|s.notes.value|] == s.notes.value
  {
  }

  // ---------------------------------------------------------------------
  // Distinct doctors
  // ---------------------------------------------------------------------

  datatype Doctor = Doctor(name: string, specialty: Option<string>)

  predicate Named(a: AppointmentRow) {
    Truthy(a.doctorName)
  }

  /** The de-duplication key: name and specialty (a missing specialty counts as empty). */
  function DoctorKey(d: Doctor): string {
    d.name + "|" + OrElse(d.specialty, "")
  }

  /** The doctor an appointment names (meaningful for named appointments only). */
  function DoctorOf(a: AppointmentRow): Doctor {
    Doctor(a.doctorName.GetOr(""), a.doctorSpecialty)
  }

  /** An insertion-ordered map from keys to doctors, as JavaScript's `Map`. */
  type Table = seq<(string, Doctor)>

  predicate DistinctKeys(t: Table) {
    forall i, j :: 0 <= i < j < |t| ==> t[i].0 != t[j].0
  }

  predicate HasKey(t: Table, k: string) {
    exists i :: 0 <= i < |t| && t[i].0 == k
  }

  /** `map.set(k, v)`: an existing key keeps its place and takes the new value; a new key goes last. */
  function Put(t: Table, k: string, v: Doctor): (r: Table)
    requires DistinctKeys(t)
    ensures DistinctKeys(r)
    ensures HasKey(t, k) ==> |r| == |t|
    ensures !HasKey(t, k) ==> r == t + [(k, v)]
    ensures forall i :: 0 <= i < |t| ==> r[i] == (if t[i].0 == k then (k, v) else t[i])
  {
    if HasKey(t, k) then Map(t, (p: (string, Doctor)) => if p.0 == k then (k, v) else p)
    else t + [(k, v)]
  }

  /** The doctors the named appointments name. */
  function {:induction false} Doctors(appointments: seq<AppointmentRow>): (ds: set<Doctor>)
    decreases |appointments|
  {
    if appointments == [] then {}
    else
      var last := appointments[|appointments| - 1];
      Doctors(appointments[..|appointments| - 1]) + (if Named(last) then {DoctorOf(last)} else {})
  }

  /** A doctor is in `Doctors` exactly when some named appointment names them. */
  lemma {:induction false} DoctorsOfNamed(appointments: seq<AppointmentRow>, d: Doctor)
    ensures d in Doctors(appointments) <==> exists a :: a in appointments && Named(a) && d == DoctorOf(a)
    decreases |appointments|
  {
    if appointments != [] {
      var init := appointments[..|appointments| - 1];
      var last := appointments[|appointments| - 1];
      assert appointments == init + [last];
      DoctorsOfNamed(init, d);
      if d in Doctors(appointments) && !(d in Doctors(init)) {
        assert last in appointments;
      }
      if exists a :: a in appointments && Named(a) && d == DoctorOf(a) {
        var a :| a in appointments && Named(a) && d == DoctorOf(a);
        if a != last {
          assert a in init;
        }
      }
    }
  }

  /** What the table built from `appointments` holds: distinct keys, each
      the key of its doctor; only doctors the appointments name; and an
      entry for every one of them. */
  predicate Faithful(appointments: seq<AppointmentRow>, t: Table) {
    Represents(t, Doctors(appointments))
  }

  /** A table represents a set of doctors when its keys are distinct, each
      the key of its doctor, its doctors are from the set, and every doctor
      of the set has its key in the table. */
  predicate Represents(t: Table, ds: set<Doctor>) {
    && DistinctKeys(t)
    && (forall i :: 0 <= i < |t| ==> t[i].0 == DoctorKey(t[i].1) && t[i].1 in ds)
    && (forall d :: d in ds ==> HasKey(t, DoctorKey(d)))
  }

  /** The table built from the named appointments, in order. */
  function {:induction false} Collect(appointments: seq<AppointmentRow>): (table: Table)
    ensures Faithful(appointments, table)
    decreases |appointments|
  {
    if appointments == [] then []
    else
      var init := appointments[..|appointments| - 1];
      var last := appointments[|appointments| - 1];
      var t := Collect(init);
      if !Named(last) then
        assert Doctors(appointments) == Doctors(init);
        t
      else
        var d := DoctorOf(last);
        PutKeepsFaithful(init, appointments, t, d);
        Put(t, DoctorKey(d), d)
  }

  lemma PutKeepsFaithful(init: seq<AppointmentRow>, appointments: seq<AppointmentRow>, t: Table, d: Doctor)
    requires Faithful(init, t)
    requires Doctors(appointments) == Doctors(init) + {d}
    ensures Faithful(appointments, Put(t, DoctorKey(d), d))
  {
    var r := Put(t, DoctorKey(d), d);
    forall i | 0 <= i < |r| ensures r[i].0 == DoctorKey(r[i].1) && r[i].1 in Doctors(appointments) {
      if i < |t| {
        var entry := t[i];
        assert entry.0 == DoctorKey(entry.1) && entry.1 in Doctors(init);
      }
    }
    forall e | e in Doctors(appointments) ensures HasKey(r, DoctorKey(e)) {
      if e in Doctors(init) {
        var i :| 0 <= i < |t| && t[i].0 == DoctorKey(e);
        assert r[i].0 == t[i].0;
      } else if HasKey(t, DoctorKey(d)) {
        var i :| 0 <= i < |t| && t[i].0 == DoctorKey(d);
        assert r[i].0 == DoctorKey(d);
      } else {
        assert r[|t|].0 == DoctorKey(d);
      }
    }
  }

  /** The doctors of a table, in its order. */
  function Values(t: Table): (r: seq<Doctor>)
    ensures |r| == |t| && forall i :: 0 <= i < |t| ==> r[i] == t[i].1
  {
    seq(|t|, i requires 0 <= i < |t| => t[i].1)
  }

  lemma RepresentedFromSet(t: Table, ds: set<Doctor>)
    requires Represents(t, ds)
    ensures forall d :: d in Values(t) ==> d in ds
  {
    var r := Values(t);
    forall d | d in r ensures d in ds {
      var i :| 0 <= i < |r| && r[i] == d;
      assert t[i].1 == d;
    }
  }

  lemma RepresentedCovers(t: Table, ds: set<Doctor>)
    requires Represents(t, ds)
    ensures forall d :: d in ds ==> exists e :: e in Values(t) && DoctorKey(e) == DoctorKey(d)
  {
    var r := Values(t);
    forall d | d in ds ensures exists e :: e in r && DoctorKey(e) == DoctorKey(d) {
      var i :| 0 <= i < |t| && t[i].0 == DoctorKey(d);
      assert r[i] in r;
    }
  }

  /** The doctors the patient has seen: no two with the same key, each one
      a doctor some appointment names, and every named doctor's key present. */
  function DoctorsAssigned(appointments: seq<AppointmentRow>): (r: seq<Doctor>)
    ensures forall i, j :: 0 <= i < j < |r| ==> DoctorKey(r[i]) != DoctorKey(r[j])
    ensures forall d :: d in r ==> d in Doctors(appointments)
    ensures forall d :: d in Doctors(appointments) ==> exists e :: e in r && DoctorKey(e) == DoctorKey(d)
  {
    var t := Collect(appointments);
    RepresentedFromSet(t, Doctors(appointments));
    RepresentedCovers(t, Doctors(appointments));
    Values(t)
  }

  /** Every appointment that names a doctor is represented, by key, in the list. */
  lemma EveryNamedDoctorListed(appointments: seq<AppointmentRow>, a: AppointmentRow)
    requires a in appointments && Named(a)
    ensures exists e :: e in DoctorsAssigned(appointments) && DoctorKey(e) == DoctorKey(DoctorOf(a))
  {
    DoctorsOfNamed(appointments, DoctorOf(a));
    assert a in appointments && Named(a) && DoctorOf(a) == DoctorOf(a);
    assert DoctorOf(a) in Doctors(appointments);
    var listed := DoctorsAssigned(appointments);
    assert exists e :: e in listed && DoctorKey(e) == DoctorKey(DoctorOf(a));
  }
}

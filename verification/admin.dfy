/** The pure parts of the administrator's dashboard (clinic-frontend/src/pages/AdminDashboard.jsx):
    the new-user form and the payload it sends, role editing, the user
    search, deletion and the stats figures. */
module Admin {
  import opened Common
  import Serializers

  /** The specialisations the form offers. */
  const DoctorSpecializations: seq<string> :=
    ["General Practitioner", "Neurosurgeon", "Pediatrician", "Cardiologist", "Dermatologist", "Other"]

  // ---------------------------------------------------------------------
  // New-user form
  // ---------------------------------------------------------------------

  datatype NewUserForm = NewUserForm(
    username: string,
    email: string,
    password: string,
    role: string,
    specialization: string,
    firstName: string,
    lastName: string)

  /** The form when opened and after a successful add. */
  const EmptyNewUser: NewUserForm := NewUserForm("", "", "", "RECEPTIONIST", "", "", "")

  datatype FormField = Username | Email | Password | RoleField | Specialization | FirstName | LastName

  function SetFormField(f: NewUserForm, name: FormField, value: string): NewUserForm {
    match name
    case Username => f.(username := value)
    case Email => f.(email := value)
    case Password => f.(password := value)
    case RoleField => f.(role := value)
    case Specialization => f.(specialization := value)
    case FirstName => f.(firstName := value)
    case LastName => f.(lastName := value)
  }

  /** Typing into the form: the field takes the value, and choosing any role
      but DOCTOR also clears the specialisation. */
  function InputChange(f: NewUserForm, name: FormField, value: string): (r: NewUserForm)
    ensures name != RoleField ==> r == SetFormField(f, name, value)
    ensures name == RoleField ==> r.role == value && r.(role := f.role, specialization := f.specialization) == f
    ensures name == RoleField && value != "DOCTOR" ==> r.specialization == ""
    ensures name == RoleField && value == "DOCTOR" ==> r.specialization == f.specialization
  {
    var updated := SetFormField(f, name, value);
    if name == RoleField && value != "DOCTOR" then updated.(specialization := "") else updated
  }

  /** Whatever was typed, a form whose role is not DOCTOR holds no specialisation
      once its role has been chosen through the form. */
  lemma ChosenRoleKeepsSpecializationConsistent(f: NewUserForm, value: string)
    ensures var r := InputChange(f, RoleField, value); r.role != "DOCTOR" ==> r.specialization == ""
  {
  }

  datatype AddPayload = AddPayload(
    username: string,
    email: string,
    password: string,
    firstName: string,
    lastName: string,
    role: string,
    specialization: Option<string>)

  /** Adding a user: a doctor without a specialisation is refused before any
      request; otherwise the payload carries the form, with the specialisation
      only for a doctor. */
  function AddUserPayload(f: NewUserForm): (r: Option<AddPayload>)
    ensures r.None? <==> f.role == "DOCTOR" && f.specialization == ""
    ensures r.Some? ==> (r.value.specialization.Some? <==> f.role == "DOCTOR")
    ensures r.Some? && r.value.specialization.Some? ==> r.value.specialization.value == f.specialization
    ensures r.Some? ==> (r.value.(specialization := None) ==
      AddPayload(f.username, f.email, f.password, f.firstName, f.lastName, f.role, None))
  {
    if f.role == "DOCTOR" && f.specialization == "" then None
    else Some(AddPayload(f.username, f.email, f.password, f.firstName, f.lastName, f.role,
                         if f.role == "DOCTOR" then Some(f.specialization) else None))
  }

  /** The server's input for an add payload. */
  function AsServerInput(p: AddPayload): Serializers.AdminUserInput {
    Serializers.AdminUserInput(
      Serializers.AccountFields(Some(p.username), Some(p.email), Some(p.firstName), Some(p.lastName), Some(p.password)),
      Some(p.role), p.specialization)
  }

  /** The form offers the same display names the user-creation serializer
      checks against, and none of them is a stored key: a doctor added with
      any offered specialisation is refused, by the serializer as written and
      by one that checks stored keys alike. */
  lemma DashboardDoctorRefused(f: NewUserForm, taken: set<string>, id: nat)
    requires f.role == "DOCTOR" && f.specialization in DoctorSpecializations
    ensures DoctorSpecializations == Serializers.OfferedSpecializations
    ensures AddUserPayload(f).Some?
    ensures Serializers.AdminCreateUser(AsServerInput(AddUserPayload(f).value), taken, id).Err?
    ensures Serializers.AdminCreateUserFixed(AsServerInput(AddUserPayload(f).value), taken, id).Err?
  {
    Serializers.AdminCreateUserNeverCreatesDoctor(AsServerInput(AddUserPayload(f).value), taken, id);
    Serializers.OfferedAreNotKeys();
    Serializers.OfferedKeysAreStoredKeys();
  }

  // ---------------------------------------------------------------------
  // Users table
  // ---------------------------------------------------------------------

  datatype UserRow = UserRow(
    id: int,
    username: Option<string>,
    email: Option<string>,
    firstName: Option<string>,
    lastName: Option<string>,
    role: Option<string>,
    specialization: Option<string>,
    isActive: bool)

  /** A string field interpolated into a template: a missing one prints as "undefined". */
  function Interpolated(o: Option<string>): string {
    o.GetOr("undefined")
  }

  predicate MatchesSearch(u: UserRow, search: string) {
    var term := Lower(search);
    || (u.username.Some? && Includes(Lower(u.username.value), term))
    || (u.email.Some? && Includes(Lower(u.email.value), term))
    || Includes(Lower(Interpolated(u.firstName) + " " + Interpolated(u.lastName)), term)
  }

  predicate MatchesRole(u: UserRow, roleFilter: string) {
    roleFilter == "" || u.role == Some(roleFilter)
  }

  /** The rows shown: matching the search and the role filter ("" means any role), in order. */
  function FilteredUsers(users: seq<UserRow>, search: string, roleFilter: string): (r: seq<UserRow>)
    ensures Subsequence(r, users)
    ensures forall u :: u in r ==> MatchesSearch(u, search) && MatchesRole(u, roleFilter)
    ensures forall u :: u in users && MatchesSearch(u, search) && MatchesRole(u, roleFilter) ==> u in r
    ensures search == "" && roleFilter == "" ==> r == users
  {
    var keep := (u: UserRow) => MatchesSearch(u, search) && MatchesRole(u, roleFilter);
    if search == "" && roleFilter == "" then
      assert forall u :: u in users ==> keep(u) by {
        forall u | u in users ensures keep(u) {
          IncludesEmpty(Lower(Interpolated(u.firstName) + " " + Interpolated(u.lastName)));
        }
      }
      FilterKeepsAll(users, keep);
      Filter(users, keep)
    else
      Filter(users, keep)
  }

  /** Deleting, once confirmed and accepted: exactly the rows with that id go, the rest stay in order. */
  function DeleteUser(users: seq<UserRow>, id: int, confirmed: bool, succeeded: bool): (r: seq<UserRow>)
    ensures !(confirmed && succeeded) ==> r == users
    ensures confirmed && succeeded ==> (Subsequence(r, users)
      && (forall u :: u in r ==> u.id != id)
      && (forall u :: u in users && u.id != id ==> u in r))
  {
    if confirmed && succeeded then Filter(users, (u: UserRow) => u.id != id) else users
  }

  datatype Stats = Stats(total: nat, doctors: nat, nurses: nat, active: nat)

  function UserStats(users: seq<UserRow>): (s: Stats)
    ensures s.total == |users|
    ensures s.doctors <= s.total && s.nurses <= s.total && s.active <= s.total
    ensures s.doctors + s.nurses <= s.total
  {
    var s := Stats(|users|,
          Count(users, (u: UserRow) => u.role == Some("DOCTOR")),
          Count(users, (u: UserRow) => u.role == Some("NURSE")),
          Count(users, (u: UserRow) => u.isActive));
    DisjointCounts(users);
    s
  }

  /** No row is counted both as a doctor and as a nurse. */
  lemma {:induction false} DisjointCounts(users: seq<UserRow>)
    ensures Count(users, (u: UserRow) => u.role == Some("DOCTOR")) + Count(users, (u: UserRow) => u.role == Some("NURSE")) <= |users|
    decreases |users|
  {
    if users != [] {
      DisjointCounts(users[1..]);
    }
  }

  // ---------------------------------------------------------------------
  // Role editing
  // ---------------------------------------------------------------------

  datatype Editing = Editing(userId: Option<int>, role: string, specialization: string)

  const NotEditing: Editing := Editing(None, "", "")

  /** Opening the editor: the user's role, and their specialisation only if they are a doctor. */
  function StartEdit(u: UserRow): (e: Editing)
    ensures e.userId == Some(u.id)
    ensures u.role != Some("DOCTOR") ==> e.specialization == ""
    ensures u.role == Some("DOCTOR") ==> e.specialization == u.specialization.GetOr("")
  {
    Editing(Some(u.id), u.role.GetOr(""), if u.role == Some("DOCTOR") then u.specialization.GetOr("") else "")
  }

  /** What the admin can do in an open edit row: pick a role, or, while the
      role is DOCTOR, pick a specialisation (the picker is shown only then). */
  datatype EditEvent = PickRole(role: string) | PickSpecialization(specialization: string)

  /** An edit row whose role is not DOCTOR holds no specialisation. */
  predicate EditConsistent(e: Editing) {
    e.role != "DOCTOR" ==> e.specialization == ""
  }

  /** The edit row's handlers: a role other than DOCTOR clears the
      specialisation; a specialisation can only be picked for a doctor. */
  function EditStep(e: Editing, ev: EditEvent): (r: Editing)
    ensures r.userId == e.userId
    ensures ev.PickRole? ==> r.role == ev.role
    ensures ev.PickRole? && ev.role != "DOCTOR" ==> r.specialization == ""
    ensures ev.PickRole? && ev.role == "DOCTOR" ==> r.specialization == e.specialization
    ensures ev.PickSpecialization? ==> r.role == e.role
    ensures ev.PickSpecialization? ==> r.specialization == (if e.role == "DOCTOR" then ev.specialization else e.specialization)
  {
    match ev
    case PickRole(v) => e.(role := v, specialization := if v != "DOCTOR" then "" else e.specialization)
    case PickSpecialization(v) => if e.role == "DOCTOR" then e.(specialization := v) else e
  }

  function EditSteps(e: Editing, events: seq<EditEvent>): Editing
    decreases |events|
  {
    if events == [] then e else EditSteps(EditStep(e, events[0]), events[1..])
  }

  /** Whatever the admin picks after opening the editor, a row whose role is
      not DOCTOR never holds a specialisation, so its save sends none. */
  lemma {:induction false} EditKeepsSpecializationConsistent(e: Editing, events: seq<EditEvent>)
    requires EditConsistent(e)
    ensures EditConsistent(EditSteps(e, events))
    decreases |events|
  {
    if events != [] {
      EditKeepsSpecializationConsistent(EditStep(e, events[0]), events[1..]);
    }
  }

  /** The editor opens consistent, so every row reached from it is. */
  lemma OpenedEditorStaysConsistent(u: UserRow, events: seq<EditEvent>)
    ensures EditConsistent(EditSteps(StartEdit(u), events))
  {
    EditKeepsSpecializationConsistent(StartEdit(u), events);
  }

  datatype EditPayload = EditPayload(role: string, specialization: Option<string>)

  /** Saving an edit: a doctor without a specialisation is refused before any
      request; otherwise the payload is the role, with the specialisation only for a doctor. */
  function EditUserPayload(e: Editing): (r: Option<EditPayload>)
    ensures r.None? <==> e.role == "DOCTOR" && e.specialization == ""
    ensures r.Some? ==> r.value.role == e.role
    ensures r.Some? ==> (r.value.specialization.Some? <==> e.role == "DOCTOR")
    ensures r.Some? && r.value.specialization.Some? ==> r.value.specialization.value == e.specialization
  {
    if e.role == "DOCTOR" then
      if e.specialization == "" then None else Some(EditPayload(e.role, Some(e.specialization)))
    else Some(EditPayload(e.role, None))
  }

  /** After the server accepted an edit: the edited rows take the role and
      specialisation the server returned; every other row and field stays. */
  function ApplyEdit(users: seq<UserRow>, id: int, role: Option<string>, specialization: Option<string>): (r: seq<UserRow>)
    ensures |r| == |users|
    ensures forall i :: 0 <= i < |users| && users[i].id != id ==> r[i] == users[i]
    ensures forall i :: 0 <= i < |users| && users[i].id == id ==>
      r[i].(role := users[i].role, specialization := users[i].specialization) == users[i]
      && r[i].role == role && r[i].specialization == specialization
  {
    Map(users, (u: UserRow) => if u.id == id then u.(role := role, specialization := specialization) else u)
  }
}

/** The seven user roles of the clinic, shared by the server (`Roles` choices
    on the user model) and the browser client (upper-case role strings). */
module Roles {
  import opened Common

  datatype Role = Admin | Doctor | Nurse | Receptionist | Patient | Lab | Pharmacist

  /** Every role, in declaration order. */
  const AllRoles: seq<Role> := [Admin, Doctor, Nurse, Receptionist, Patient, Lab, Pharmacist]

  /** The role a new user gets when none is given. */
  const DefaultRole: Role := Patient

  /** The stored value of a role, which is also the string the client compares against. */
  function Name(r: Role): string {
    match r
    case Admin => "ADMIN"
    case Doctor => "DOCTOR"
    case Nurse => "NURSE"
    case Receptionist => "RECEPTIONIST"
    case Patient => "PATIENT"
    case Lab => "LAB"
    case Pharmacist => "PHARMACIST"
  }

  /** Reads a stored role value back; anything that is not exactly one of the seven names is no role. */
  function Parse(s: string): (r: Option<Role>)
    ensures r.Some? ==> Name(r.value) == s
    ensures r.None? ==> forall x: Role :: Name(x) != s
  {
    if s == "ADMIN" then Some(Admin)
    else if s == "DOCTOR" then Some(Doctor)
    else if s == "NURSE" then Some(Nurse)
    else if s == "RECEPTIONIST" then Some(Receptionist)
    else if s == "PATIENT" then Some(Patient)
    else if s == "LAB" then Some(Lab)
    else if s == "PHARMACIST" then Some(Pharmacist)
    else None
  }

  /** Distinct roles have distinct names, and parsing a name gives its role back. */
  lemma NameRoundTrip(r: Role)
    ensures Parse(Name(r)) == Some(r)
    ensures forall q: Role :: Name(q) == Name(r) ==> q == r
  {
  }

  /** There are exactly seven roles, listed once each. */
  lemma AllRolesComplete()
    ensures |AllRoles| == 7
    ensures forall r: Role :: r in AllRoles
    ensures forall i, j :: 0 <= i < j < |AllRoles| ==> AllRoles[i] != AllRoles[j]
  {
    forall r: Role ensures r in AllRoles {
      match r
      case Admin => assert AllRoles[0] == r;
      case Doctor => assert AllRoles[1] == r;
      case Nurse => assert AllRoles[2] == r;
      case Receptionist => assert AllRoles[3] == r;
      case Patient => assert AllRoles[4] == r;
      case Lab => assert AllRoles[5] == r;
      case Pharmacist => assert AllRoles[6] == r;
    }
  }

  /** Role names are already upper case, so upper-casing a role name does not change it. */
  lemma NamesAreUpperCase(r: Role)
    ensures Upper(Name(r)) == Name(r)
  {
  }
}

/** Input validation and account creation of the API (accounts/serializers.py).

    A serializer first validates each declared field (presence, blank,
    minimum length, choices), then the serializer's own checks, then builds
    the row. Field-level behaviour follows the framework's defaults for the
    field kinds the serializers declare or derive from the model: character
    fields strip outer whitespace, and a model field with `choices` becomes a
    choice field over the stored keys. */
module Serializers {
  import opened Common
  import opened Roles
  import opened Records

  datatype FieldError = Required | NotNull | Blank | TooShort(min: nat) | InvalidChoice | NoSuchObject | NotUnique | Rejected(message: string)

  datatype SerializerError = SerializerError(field: string, reason: FieldError)

  function At<T>(field: string, r: Result<T, FieldError>): (r': Result<T, SerializerError>)
    ensures r.Ok? <==> r'.Ok?
    ensures r.Ok? ==> r'.value == r.value
    ensures r.Err? ==> r'.error == SerializerError(field, r.error)
  {
    r.MapError((e: FieldError) => SerializerError(field, e))
  }

  // ---------------------------------------------------------------------
  // Field kinds
  // ---------------------------------------------------------------------

  /** A character field. `Ok(None)`: the key was not sent and is not required.
      A sent value is stripped; a blank one is refused unless blanks are
      allowed (and then skips the length check); otherwise it must be at least
      `minLength` long. */
  function CharField(raw: Option<string>, required: bool, allowBlank: bool, minLength: nat): (r: Result<Option<string>, FieldError>)
    ensures raw.None? ==> (r.Ok? <==> !required) && (r.Ok? ==> r.value.None?)
    ensures raw.Some? && r.Ok? ==> r.value == Some(Trim(Python, raw.value))
    ensures raw.Some? ==> (r.Ok? <==> if Trim(Python, raw.value) == "" then allowBlank else |Trim(Python, raw.value)| >= minLength)
  {
    match raw
    case None => if required then Err(Required) else Ok(None)
    case Some(s) =>
      var t := Trim(Python, s);
      if t == "" then (if allowBlank then Ok(Some("")) else Err(Blank))
      else if |t| < minLength then Err(TooShort(minLength))
      else Ok(Some(t))
  }

  /** A required character field. */
  function RequiredText(raw: Option<string>, allowBlank: bool, minLength: nat): (r: Result<string, FieldError>)
    ensures r.Ok? <==> raw.Some? && CharField(raw, true, allowBlank, minLength).Ok?
    ensures r.Ok? ==> r.value == Trim(Python, raw.value)
  {
    var v :- CharField(raw, true, allowBlank, minLength);
    Ok(v.GetOr(""))
  }

  /** An optional character field read with `validated_data.get(key, default)`. */
  function OptionalText(raw: Option<string>, allowBlank: bool, default: string): (r: Result<string, FieldError>)
    ensures r.Ok? <==> CharField(raw, false, allowBlank, 0).Ok?
    ensures r.Ok? ==> r.value == (if raw.Some? then Trim(Python, raw.value) else default)
  {
    var v :- CharField(raw, false, allowBlank, 0);
    Ok(v.GetOr(default))
  }

  /** An optional character field that accepts blanks never fails; an omitted one reads as "". */
  function BlankableText(raw: Option<string>): (r: string)
    ensures CharField(raw, false, true, 0) == Ok(if raw.Some? then Some(r) else None)
    ensures raw.None? ==> r == ""
  {
    if raw.Some? then Trim(Python, raw.value) else ""
  }

  /** A choice field over `choices` that may be omitted; when `allowBlank`, "" is accepted as is. */
  function ChoiceField(raw: Option<string>, choices: seq<string>, allowBlank: bool): (r: Result<Option<string>, FieldError>)
    ensures r.Ok? <==> raw.None? || raw.value in choices || (allowBlank && raw.value == "")
    ensures r.Ok? ==> r.value == raw
  {
    match raw
    case None => Ok(None)
    case Some(s) =>
      if s == "" && allowBlank then Ok(Some(""))
      else if s in choices then Ok(Some(s))
      else Err(InvalidChoice)
  }

  // ---------------------------------------------------------------------
  // The account fields shared by every user-creating serializer
  // ---------------------------------------------------------------------

  datatype AccountFields = AccountFields(username: Option<string>, email: Option<string>, firstName: Option<string>, lastName: Option<string>, password: Option<string>)

  datatype Account = Account(username: string, email: string, firstName: string, lastName: string, password: string)

  /** The fields as the model declares them: a required, non-blank, unique
      username; optional email and names that may be blank (default ""); and a
      required password of at least 8 characters. */
  function ValidateAccount(f: AccountFields, taken: set<string>): (r: Result<Account, SerializerError>)
    ensures r.Ok? <==> AccountAcceptable(f, taken)
    ensures r.Ok? ==> r.value.username == Trim(Python, f.username.value) && r.value.username !in taken
    ensures r.Ok? ==> r.value.password == Trim(Python, f.password.value) && |r.value.password| >= 8
  {
    var username :- At("username", RequiredText(f.username, false, 0));
    var _ :- At("username", if username in taken then Err(NotUnique) else Ok(username));
    var email := BlankableText(f.email);
    var first := BlankableText(f.firstName);
    var last := BlankableText(f.lastName);
    var password :- At("password", RequiredText(f.password, false, 8));
    Ok(Account(username, email, first, last, password))
  }

  /** Independent statement of when the account fields are accepted. */
  predicate AccountAcceptable(f: AccountFields, taken: set<string>) {
    && f.username.Some? && Trim(Python, f.username.value) != "" && Trim(Python, f.username.value) !in taken
    && f.password.Some? && |Trim(Python, f.password.value)| >= 8
  }

  /** The server strips with Python's notion of whitespace, so a password
      padded with an information separator is one character short, while the
      browser's `trim()` would keep that character. */
  lemma SeparatorPaddedPasswordTooShort(taken: set<string>)
    ensures var pw := "\U{001C}1234567";
      && Trim(JavaScript, pw) == pw
      && !AccountAcceptable(AccountFields(Some("alice"), None, None, None, Some(pw)), taken)
  {
    var pw := "\U{001C}1234567";
    var rest := pw[1..];
    assert |pw| == 8 && IsSpace(Python, pw[0]) && !IsSpace(JavaScript, pw[0]);
    assert !IsSpace(Python, rest[0]) && !IsSpace(Python, rest[|rest| - 1]);
    assert TrimStart(Python, pw) == TrimStart(Python, rest) == rest;
    assert TrimEnd(Python, rest) == rest;
    assert |Trim(Python, pw)| == 7;
    assert TrimStart(JavaScript, pw) == pw && TrimEnd(JavaScript, pw) == pw;
  }

  function NewUser(id: nat, a: Account, role: Role, specialization: string, isStaff: bool): User {
    User(id, a.username, a.email, a.firstName, a.lastName, role, specialization, isStaff, true)
  }

  /** A created user together with the password it was given (stored hashed). */
  datatype NewAccount = NewAccount(user: User, password: string)

  // ---------------------------------------------------------------------
  // Public sign-up
  // ---------------------------------------------------------------------

  /** Any role or staff flag in the request is not a field of the serializer and is ignored. */
  datatype SignupInput = SignupInput(account: AccountFields, role: Option<string>, isStaff: Option<bool>)

  function Signup(input: SignupInput, taken: set<string>, id: nat): (r: Result<NewAccount, SerializerError>)
    ensures r.Ok? <==> AccountAcceptable(input.account, taken)
    ensures r.Ok? ==> r.value.user.role == Role.Patient && !r.value.user.isStaff && r.value.user.specialization == ""
    ensures r.Ok? ==> |r.value.password| >= 8 && r.value.user.id == id
    ensures r.Ok? ==> CleanUser(r.value.user).None?
  {
    var a :- ValidateAccount(input.account, taken);
    Ok(NewAccount(NewUser(id, a, Role.Patient, "", false), a.password))
  }

  /** What is asked for makes no difference: sign-up always makes a non-staff patient. */
  lemma SignupIgnoresRequestedRole(input: SignupInput, role: Option<string>, isStaff: Option<bool>, taken: set<string>, id: nat)
    ensures Signup(input, taken, id) == Signup(SignupInput(input.account, role, isStaff), taken, id)
  {
  }

  // ---------------------------------------------------------------------
  // Specialisations offered to administrators
  // ---------------------------------------------------------------------

  /** The list both admin serializers check a doctor's specialisation against. */
  const OfferedSpecializations: seq<string> :=
    ["General Practitioner", "Neurosurgeon", "Pediatrician", "Cardiologist", "Dermatologist", "Other"]

  /** Every offered name starts with a capital letter. */
  lemma OfferedAreCapitalised()
    ensures forall s :: s in OfferedSpecializations ==> s != "" && 'A' <= s[0] <= 'Z'
  {
  }

  /** The offered names are never stored keys (nor blank): a key is a lower-case slug. */
  lemma OfferedAreNotKeys()
    ensures forall s :: s in OfferedSpecializations ==> s !in SpecializationKeys() && s != ""
  {
    OfferedAreCapitalised();
    SpecializationKeysAreSlugs();
  }

  /** The stored keys whose labels are offered. */
  const OfferedSpecializationKeys: seq<string> :=
    ["general", "neurosurgeon", "pediatrician", "cardiologist", "dermatologist", "other"]

  /** Position by position, the offered keys are the model's keys for the offered labels. */
  lemma OfferedKeysMatchOfferedLabels()
    ensures |OfferedSpecializationKeys| == |OfferedSpecializations|
    ensures forall i :: 0 <= i < |OfferedSpecializationKeys| ==>
      (OfferedSpecializationKeys[i], OfferedSpecializations[i]) in SpecializationChoices
  {
    assert SpecializationChoices[0] == ("general", "General Practitioner");
    assert SpecializationChoices[5] == ("neurosurgeon", "Neurosurgeon");
    assert SpecializationChoices[1] == ("pediatrician", "Pediatrician");
    assert SpecializationChoices[2] == ("cardiologist", "Cardiologist");
    assert SpecializationChoices[3] == ("dermatologist", "Dermatologist");
    assert SpecializationChoices[14] == ("other", "Other");
  }

  /** So every offered key is a stored key, and none is blank. */
  lemma OfferedKeysAreStoredKeys()
    ensures forall k :: k in OfferedSpecializationKeys ==> k in SpecializationKeys() && k != ""
  {
    OfferedKeysMatchOfferedLabels();
    forall k | k in OfferedSpecializationKeys ensures k in SpecializationKeys() && k != "" {
      var i :| 0 <= i < |OfferedSpecializationKeys| && OfferedSpecializationKeys[i] == k;
      var j :| 0 <= j < |SpecializationChoices| && SpecializationChoices[j] == (k, OfferedSpecializations[i]);
      assert SpecializationKeys()[j] == k;
    }
  }

  /** The specialisation field as derived from the model: omitted, blank, or one of the stored keys. */
  function SpecializationField(raw: Option<string>): (r: Result<Option<string>, FieldError>)
    ensures r.Ok? <==> raw.None? || raw.value == "" || raw.value in SpecializationKeys()
    ensures r.Ok? ==> r.value == raw
  {
    ChoiceField(raw, SpecializationKeys(), true)
  }

  // ---------------------------------------------------------------------
  // Administrator creates a doctor
  // ---------------------------------------------------------------------

  datatype DoctorInput = DoctorInput(account: AccountFields, specialization: Option<string>)

  /** As written: the field accepts only stored keys, then `validate_specialization`
      accepts only offered labels. */
  function CreateDoctor(input: DoctorInput, taken: set<string>, id: nat): (r: Result<NewAccount, SerializerError>)
    ensures r.Ok? <==> AccountAcceptable(input.account, taken) && input.specialization.None?
    ensures r.Ok? ==> r.value.user.role == Doctor && r.value.user.isStaff
    ensures r.Ok? ==> AccountAcceptable(input.account, taken)
    ensures r.Ok? ==> r.value.user.specialization == input.specialization.GetOr("")
  {
    OfferedAreNotKeys();
    var a :- ValidateAccount(input.account, taken);
    var field :- At("specialization", SpecializationField(input.specialization));
    var _ :- At("specialization",
      if field.Some? && field.value !in OfferedSpecializations then Err(Rejected("Invalid specialization")) else Ok(field));
    Ok(NewAccount(NewUser(id, a, Doctor, input.specialization.GetOr(""), true), a.password))
  }

  /** The only doctor `CreateDoctor` can make is one whose specialisation was
      omitted, and that doctor fails the model's own `clean`. */
  lemma CreateDoctorRefusesEverySpecialization(input: DoctorInput, taken: set<string>, id: nat)
    ensures input.specialization.Some? ==> CreateDoctor(input, taken, id).Err?
    ensures CreateDoctor(input, taken, id).Ok? ==>
      CleanUser(CreateDoctor(input, taken, id).value.user) == Some(DoctorNeedsSpecialization)
  {
    OfferedAreNotKeys();
  }

  /** Corrected: accept the stored key of an offered specialisation. */
  function CreateDoctorFixed(input: DoctorInput, taken: set<string>, id: nat): (r: Result<NewAccount, SerializerError>)
    ensures r.Ok? <==> AccountAcceptable(input.account, taken) &&
                       input.specialization.Some? && input.specialization.value in OfferedSpecializationKeys
    ensures r.Ok? ==> r.value.user.role == Doctor && r.value.user.isStaff
    ensures r.Ok? ==> r.value.user.specialization == input.specialization.value
    ensures r.Ok? ==> CleanUser(r.value.user).None?
  {
    OfferedKeysAreStoredKeys();
    var a :- ValidateAccount(input.account, taken);
    var field :- At("specialization", SpecializationField(input.specialization));
    var spec :- At("specialization",
      if field.Some? && field.value in OfferedSpecializationKeys then Ok(field.value) else Err(Rejected("Invalid specialization")));
    Ok(NewAccount(NewUser(id, a, Doctor, spec, true), a.password))
  }

  // ---------------------------------------------------------------------
  // Administrator creates a user of any role
  // ---------------------------------------------------------------------

  datatype AdminUserInput = AdminUserInput(account: AccountFields, role: Option<string>, specialization: Option<string>)

  /** The choices of the role field: the stored names of the seven roles. */
  function RoleNames(): (names: seq<string>)
    ensures forall s :: s in names <==> Parse(s).Some?
  {
    [Name(Admin), Name(Doctor), Name(Nurse), Name(Receptionist), Name(Role.Patient), Name(Lab), Name(Pharmacist)]
  }

  /** As written: role field over the seven stored names, specialisation field
      over stored keys, then `create` checks the role is given and a doctor's
      specialisation is an offered label. */
  function AdminCreateUser(input: AdminUserInput, taken: set<string>, id: nat): (r: Result<NewAccount, SerializerError>)
    ensures r.Ok? <==> && AccountAcceptable(input.account, taken)
                       && input.role.Some? && Parse(input.role.value).Some? && Parse(input.role.value).value != Doctor
                       && SpecializationField(input.specialization).Ok?
    ensures r.Ok? ==> input.role.Some? && Parse(input.role.value) == Some(r.value.user.role)
    ensures input.role.None? ==> r.Err?
    ensures r.Ok? ==> (r.value.user.isStaff <==> r.value.user.role in {Admin, Doctor})
    ensures r.Ok? && r.value.user.role != Doctor ==> r.value.user.specialization == ""
    ensures r.Ok? && r.value.user.role == Doctor ==>
      && SpecializationField(input.specialization).Ok?
      && r.value.user.specialization == input.specialization.GetOr("")
      && r.value.user.specialization in OfferedSpecializations
    ensures r.Ok? ==> AccountAcceptable(input.account, taken)
  {
    OfferedAreNotKeys();
    var a :- ValidateAccount(input.account, taken);
    var roleField :- At("role", ChoiceField(input.role, RoleNames(), false));
    var specField :- At("specialization", SpecializationField(input.specialization));
    var role :- At("role", if roleField.Some? && Parse(roleField.value).Some? then Ok(Parse(roleField.value).value)
                           else Err(Rejected("Invalid role selected")));
    var spec := specField.GetOr("");
    var _ :- At("specialization", if role == Doctor && spec !in OfferedSpecializations then Err(Rejected("Invalid specialization")) else Ok(spec));
    Ok(NewAccount(NewUser(id, a, role, if role == Doctor then spec else "", role == Admin || role == Doctor), a.password))
  }

  /** Because the field only lets stored keys through and `create` only lets
      labels through, no doctor can be created this way. */
  lemma AdminCreateUserNeverCreatesDoctor(input: AdminUserInput, taken: set<string>, id: nat)
    ensures AdminCreateUser(input, taken, id).Ok? ==> AdminCreateUser(input, taken, id).value.user.role != Doctor
    ensures input.role == Some("DOCTOR") ==> AdminCreateUser(input, taken, id).Err?
  {
    var r := AdminCreateUser(input, taken, id);
    if r.Ok? && r.value.user.role == Doctor {
      OfferedAreNotKeys();
      assert false;
    }
    assert Parse("DOCTOR") == Some(Doctor);
  }

  /** Corrected: a doctor's specialisation must be the stored key of an offered one. */
  function AdminCreateUserFixed(input: AdminUserInput, taken: set<string>, id: nat): (r: Result<NewAccount, SerializerError>)
    ensures r.Ok? <==> && AccountAcceptable(input.account, taken)
                       && input.role.Some? && Parse(input.role.value).Some?
                       && (input.role.value == "DOCTOR" ==>
                            input.specialization.Some? && input.specialization.value in OfferedSpecializationKeys)
                       && (input.role.value != "DOCTOR" ==> SpecializationField(input.specialization).Ok?)
    ensures r.Ok? ==> Parse(input.role.value) == Some(r.value.user.role)
    ensures r.Ok? ==> r.value.user.username == Trim(Python, input.account.username.value) && r.value.user.username !in taken
    ensures r.Ok? ==> (r.value.user.isStaff <==> r.value.user.role in {Admin, Doctor})
    ensures r.Ok? ==> CleanUser(r.value.user).None?
  {
    OfferedKeysAreStoredKeys();
    var a :- ValidateAccount(input.account, taken);
    var roleField :- At("role", ChoiceField(input.role, RoleNames(), false));
    var specField :- At("specialization", SpecializationField(input.specialization));
    var role :- At("role", if roleField.Some? && Parse(roleField.value).Some? then Ok(Parse(roleField.value).value)
                           else Err(Rejected("Invalid role selected")));
    var spec := specField.GetOr("");
    var _ :- At("specialization", if role == Doctor && spec !in OfferedSpecializationKeys then Err(Rejected("Invalid specialization")) else Ok(spec));
    Ok(NewAccount(NewUser(id, a, role, if role == Doctor then spec else "", role == Admin || role == Doctor), a.password))
  }

  // ---------------------------------------------------------------------
  // Receptionist or administrator registers a patient
  // ---------------------------------------------------------------------

  predicate IsAlphanumeric(c: char) {
    ('a' <= c <= 'z') || ('A' <= c <= 'Z') || ('0' <= c <= '9')
  }

  /** Decimal notation of a natural number, as Python's `str`. */
  function Decimal(n: nat): (r: string)
    ensures |r| >= 1
    ensures forall i :: 0 <= i < |r| ==> '0' <= r[i] <= '9'
    ensures n < 10 <==> |r| == 1
    ensures |r| > 1 ==> r[0] != '0'
    decreases n
  {
    var d := ['0' + (n % 10) as char];
    if n < 10 then d else Decimal(n / 10) + d
  }

  /** The number a string of decimal digits denotes. */
  function DecimalValue(s: string): nat
    requires forall i :: 0 <= i < |s| ==> '0' <= s[i] <= '9'
    decreases |s|
  {
    if s == [] then 0 else 10 * DecimalValue(s[..|s| - 1]) + (s[|s| - 1] - '0') as nat
  }

  lemma {:induction false} DecimalRoundTrip(n: nat)
    ensures DecimalValue(Decimal(n)) == n
    decreases n
  {
    if n >= 10 {
      DecimalRoundTrip(n / 10);
      var r := Decimal(n);
      assert r[..|r| - 1] == Decimal(n / 10);
    }
  }

  /** Four-digit numbers are written with exactly four digits. */
  lemma {:induction false} DecimalFourDigits(n: nat)
    requires 1000 <= n <= 9999
    ensures |Decimal(n)| == 4
  {
    assert |Decimal(n / 1000)| == 1;
    assert |Decimal(n / 100)| == 2;
    assert |Decimal(n / 10)| == 3;
  }

  datatype PatientInput = PatientInput(
    account: AccountFields,
    dateOfBirth: Option<Date>)

  /** A field that is either not sent or has something besides whitespace. */
  predicate SentNonBlank(o: Option<string>) {
    o.None? || !Common.Blank(Python, o.value)
  }

  /** Every sent account field has something besides whitespace. */
  predicate NoBlankSent(f: AccountFields) {
    SentNonBlank(f.username) && SentNonBlank(f.email) && SentNonBlank(f.firstName)
      && SentNonBlank(f.lastName) && SentNonBlank(f.password)
  }

  /** The account fields `CreatePatientSerializer` declares: all optional,
      none may be blank; a missing username or password takes the given default. */
  function PatientAccount(f: AccountFields, defaultUsername: string, defaultPassword: string): (r: Result<Account, SerializerError>)
    ensures r.Ok? <==> NoBlankSent(f)
    ensures r.Ok? ==> r.value.username == (if f.username.Some? then Trim(Python, f.username.value) else defaultUsername)
    ensures r.Ok? ==> r.value.password == (if f.password.Some? then Trim(Python, f.password.value) else defaultPassword)
  {
    var username :- At("username", OptionalText(f.username, false, defaultUsername));
    var email :- At("email", OptionalText(f.email, false, ""));
    var first :- At("first_name", OptionalText(f.firstName, false, ""));
    var last :- At("last_name", OptionalText(f.lastName, false, ""));
    var password :- At("password", OptionalText(f.password, false, defaultPassword));
    Ok(Account(username, email, first, last, password))
  }

  datatype CreatedPatient = CreatedPatient(user: User, patient: Patient, generatedPassword: string)

  /** `CreatePatientSerializer.create`. A missing username becomes "user_"
      followed by the random four-digit number; a missing password becomes the
      random ten-character one. The user is always a non-staff patient, the
      profile starts active with no doctor, and the password used is always
      attached to the new profile as `generated_password`. */
  function CreatePatient(input: PatientInput, randomNumber: nat, randomPassword: string, userId: nat, patientId: nat, now: int): (r: Result<CreatedPatient, SerializerError>)
    requires 1000 <= randomNumber <= 9999
    requires |randomPassword| == 10 && forall i :: 0 <= i < 10 ==> IsAlphanumeric(randomPassword[i])
    ensures r.Ok? <==> NoBlankSent(input.account)
    ensures r.Ok? ==> r.value.user.role == Role.Patient && !r.value.user.isStaff && r.value.user.id == userId
    ensures r.Ok? ==> r.value.patient.user == userId && r.value.patient.id == patientId
    ensures r.Ok? ==> r.value.patient.status == DefaultPatientStatus && r.value.patient.assignedDoctor.None?
    ensures r.Ok? ==> r.value.patient.dateOfBirth == input.dateOfBirth
    ensures r.Ok? && input.account.username.Some? ==> r.value.user.username == Trim(Python, input.account.username.value)
    ensures r.Ok? && input.account.username.None? ==>
      r.value.user.username == "user_" + Decimal(randomNumber) && |r.value.user.username| == 9
    ensures r.Ok? ==> r.value.patient.createdAt == now
    ensures r.Ok? && input.account.password.None? ==> r.value.generatedPassword == randomPassword
    ensures r.Ok? && input.account.password.Some? ==> r.value.generatedPassword == Trim(Python, input.account.password.value)
  {
    DecimalFourDigits(randomNumber);
    var a :- PatientAccount(input.account, "user_" + Decimal(randomNumber), randomPassword);
    var user := NewUser(userId, a, Role.Patient, "", false);
    Ok(CreatedPatient(user, Records.Patient(patientId, userId, None, input.dateOfBirth, DefaultPatientStatus, "", now), a.password))
  }

  // ---------------------------------------------------------------------
  // Medical records
  // ---------------------------------------------------------------------

  /** `validate_created_by`: only doctors, nurses and lab technicians may be named as a record's author. */
  function ValidateCreatedBy(u: User): (r: Result<User, FieldError>)
    ensures r.Ok? <==> u.role in {Doctor, Nurse, Lab}
    ensures r.Ok? ==> r.value == u
  {
    if u.role in {Doctor, Nurse, Lab} then Ok(u)
    else Err(Rejected("Only Doctors, Nurses, or Lab Technicians can create records."))
  }
}

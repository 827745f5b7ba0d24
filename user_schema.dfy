/** The user-management GraphQL layer: the schema's own copy of the
    permission guard, the login mutation, the user-creation mutation with
    its profile checks, and the `allUsers` query. */
module UserSchema {
  import opened Outcomes
  import opened Strings
  import opened Models
  import opened JwtPayload
  import opened Middleware

  /** The text of Python's `AttributeError` for a missing attribute. */
  function AttributeError(typeName: string, attribute: string): string {
    "'" + typeName + "' object has no attribute '" + attribute + "'"
  }

  /** The methods a `CustomUser` answers to, besides its fields. There is
      `has_perm` but no `has_permission`. */
  const CustomUserMethods: set<string> :=
    {"has_perm", "has_module_perms", "get_username", "is_authenticated", "is_anonymous",
     "set_password", "check_password", "save", "delete"}

  /** The schema's copy of `custom_permission_required`, as written: after
      the login check it calls `user.has_permission`, which `CustomUser`
      does not have, so every authenticated caller gets an `AttributeError`
      and the wrapped resolver never runs. */
  function SchemaGuard<A, R>(required: string, func: (Identity, A) -> Outcome<R>, caller: Identity, args: A)
    : (r: Outcome<R>)
    ensures !IsAuthenticated(caller) ==> r == Raised(LoginRequired)
    ensures IsAuthenticated(caller) ==> r.Raised? && r.message == AttributeError("CustomUser", "has_permission")
  {
    if !IsAuthenticated(caller) then Raised(LoginRequired)
    else Raised(AttributeError("CustomUser", "has_permission"))
  }

  /** The two guards agree on unauthenticated callers and on every caller
      the intended guard rejects; they part exactly on the callers the
      intended guard admits, whom the schema copy rejects as well. A
      superuser, who holds every permission, shows the difference. */
  lemma SchemaGuardRejectsWhatGuardAdmits<A, R>(required: string, func: (Identity, A) -> Outcome<R>,
                                               caller: Identity, args: A)
    ensures "has_permission" !in CustomUserMethods && "has_perm" in CustomUserMethods
    ensures SchemaGuard(required, func, caller, args).Raised?
    ensures !IsAuthenticated(caller) ==> SchemaGuard(required, func, caller, args) == Guard(required, func, caller, args)
    ensures IsAuthenticated(caller) && HasPerm(caller.user, required) ==>
              Guard(required, func, caller, args) == func(caller, args)
              && SchemaGuard(required, func, caller, args).Raised?
  {
  }

  /** A concrete caller the two guards treat differently: an authenticated
      superuser calling a resolver that succeeds. */
  lemma SuperuserIsRejectedBySchemaGuard(u: User, required: string)
    requires u.isSuperuser
    ensures var ok := (c: Identity, x: int) => Ok(x);
            && Guard(required, ok, Authenticated(u), 1) == Ok(1)
            && SchemaGuard(required, ok, Authenticated(u), 1).Raised?
  {
  }

  /** Login
      ----- */

  datatype TokenPair = TokenPair(accessToken: Token, refreshToken: Token)

  /** Django's `authenticate(username=..., password=...)`. */
  type Authenticator = (string, string) -> Option<User>

  const InvalidCredentials := "Gecersiz giris bilgileri!"

  /** `AuthMutation.mutate`: unknown credentials give one generic error;
      otherwise both tokens are issued for the user `authenticate` found,
      which raises when that user has no role. */
  function Login(authenticate: Authenticator, encode: Encoder, username: string, password: string, now: real)
    : (r: Outcome<TokenPair>)
    ensures authenticate(username, password).None? ==> r == Raised(InvalidCredentials)
    ensures authenticate(username, password).Some? ==>
              var u := authenticate(username, password).value;
              && (r.Ok? <==> u.role.Some?)
              && (r.Raised? ==> r.message == NoRoleName)
              && (r.Ok? ==> r.value == TokenPair(encode(AccessPayload(u, now).value),
                                                 encode(RefreshPayload(u, now).value)))
  {
    match authenticate(username, password)
    case None => Raised(InvalidCredentials)
    case Some(u) =>
      match GenerateAccessToken(encode, u, now)
      case Raised(m) => Raised(m)
      case Ok(access) =>
        match GenerateRefreshToken(encode, u, now)
        case Raised(m) => Raised(m)
        case Ok(refresh) => Ok(TokenPair(access, refresh))
  }

  /** The codec decodes what it encoded, until the claims expire. */
  ghost predicate RoundTrips(encode: Encoder, decode: Decoder) {
    forall p: Payload, t: real :: p.exp.Some? && t < p.exp.value as real ==> decode(encode(p), t) == Decoded(p)
  }

  /** Encoded tokens never contain whitespace (they are base64url text). */
  ghost predicate CompactTokens(encode: Encoder) {
    forall p: Payload :: IsWord(encode(p))
  }

  lemma BearerHeaderSplits(token: Token)
    requires IsWord(token)
    ensures Split("Bearer " + token) == ["Bearer", token]
  {
    assert IsWord("Bearer");
    assert "Bearer " + token == [] + "Bearer" + " " + token + [];
    SplitTwoWords([], "Bearer", " ", token, []);
  }

  /** End to end: presented as `Bearer <access token>` within 899 seconds of
      login, the access token authenticates the user who logged in; the
      refresh token presented the same way never does. */
  lemma LoginThenAuthenticate(authenticate: Authenticator, encode: Encoder, decode: Decoder,
                              username: string, password: string, now: real, later: real,
                              users: map<int, User>)
    requires RoundTrips(encode, decode) && CompactTokens(encode)
    requires Login(authenticate, encode, username, password, now).Ok?
    requires var u := authenticate(username, password).value;
             u.id in users && users[u.id] == u && u.id != 0
    requires now <= later < now + 899.0
    ensures var tokens := Login(authenticate, encode, username, password, now).value;
            && Classify("Bearer " + tokens.accessToken, decode, later, users)
                 == Resolved(authenticate(username, password).value)
            && Classify("Bearer " + tokens.refreshToken, decode, later, users) == NotAccess
  {
    var u := authenticate(username, password).value;
    var tokens := Login(authenticate, encode, username, password, now).value;
    var access := AccessPayload(u, now).value;
    var refresh := RefreshPayload(u, now).value;
    assert decode(encode(access), later) == Decoded(access);
    assert decode(encode(refresh), later) == Decoded(refresh);
    BearerHeaderSplits(tokens.accessToken);
    BearerHeaderSplits(tokens.refreshToken);
  }

  /** The allUsers query
      ------------------- */

  const UserNotFound := "User not found"

  /** `UserManageQuery.resolve_allUsers`: a truthy `id` selects that one
      user or raises; no `id` (or a falsy one) selects everyone. */
  function AllUsers(users: map<int, User>, id: Option<int>): (r: Outcome<set<User>>)
    ensures !TruthyInt(id) ==> r == Ok(users.Values)
    ensures TruthyInt(id) ==> (r.Raised? <==> id.value !in users)
    ensures r.Raised? ==> r.message == UserNotFound
    ensures r.Ok? ==> r.value <= users.Values
    ensures TruthyInt(id) && r.Ok? ==> r.value == {users[id.value]}
  {
    if TruthyInt(id) then
      if id.value in users then Ok({users[id.value]}) else Raised(UserNotFound)
    else Ok(users.Values)
  }

  /** User creation
      ------------- */

  /** A `Student` row; the optional fields are `kwargs.get(...)` values. */
  datatype StudentProfile = StudentProfile(
    user: int,
    firstName: Option<string>,
    lastName: Option<string>,
    studentNumber: Option<string>,
    department: Option<string>,
    faculty: Option<string>,
    phoneNumber: Option<string>,
    address: Option<string>,
    dateOfBirth: Option<string>)

  /** A `Company` row. */
  datatype CompanyProfile = CompanyProfile(
    user: int,
    companyName: Option<string>,
    contactPerson: Option<string>,
    phoneNumber: Option<string>,
    address: Option<string>,
    website: Option<string>,
    taxNumber: Option<string>)

  /** The mutation's payload; its `user` field is never set. */
  datatype MutationResult = MutationResult(success: Option<bool>, message: string)

  /** The arguments of `CreateUserMutation.mutate`. `named` holds the
      optional named parameters the caller gave (`first_name` ...
      `address`), by parameter name; the code as written never reads them.
      `kwargs` holds every keyword that is not a named parameter. */
  datatype UserArgs = UserArgs(
    username: string,
    email: string,
    password: string,
    roleId: int,
    userType: string,
    named: map<string, string>,
    kwargs: map<string, string>)

  /** The tables the mutation reads and writes. */
  datatype Tables = Tables(
    users: map<int, User>,
    nextId: int,
    students: seq<StudentProfile>,
    companies: seq<CompanyProfile>)

  const RoleNotFound := MutationResult(Some(false), "Role bulunamadi")
  const Created := MutationResult(None, "User created successfully")
  const CreateUserError := "Error creating user: "

  const StudentFields: seq<string> := ["first_name", "last_name", "student_number", "department", "faculty"]
  const CompanyFields: seq<string> := ["company_name", "contact_person"]

  /** The names of `mutate`'s own parameters; Python never puts these in
      `**kwargs`. */
  const NamedParameters: set<string> :=
    {"username", "email", "password", "role_id", "user_type", "first_name", "last_name",
     "student_number", "department", "faculty", "date_of_birth", "profile_picture",
     "company_name", "contact_person", "website", "tax_number", "phone_number", "address"}

  /** `field in kwargs and kwargs[field]`: present and not empty. */
  predicate Present(kwargs: map<string, string>, field: string) {
    field in kwargs && kwargs[field] != ""
  }

  /** `kwargs.get(key)`. */
  function Get(kwargs: map<string, string>, key: string): Option<string> {
    if key in kwargs then Some(kwargs[key]) else None
  }

  /** The position of the first of `fields` that is not present in
      `kwargs`, or `|fields|` when all are. */
  function MissingIndex(fields: seq<string>, kwargs: map<string, string>): (i: nat)
    ensures i <= |fields|
    ensures forall j :: 0 <= j < i ==> Present(kwargs, fields[j])
    ensures i < |fields| ==> !Present(kwargs, fields[i])
  {
    if fields == [] || !Present(kwargs, fields[0]) then 0
    else 1 + MissingIndex(fields[1..], kwargs)
  }

  /** The field the `for field in required_fields` loop stops at. */
  function FirstMissing(fields: seq<string>, kwargs: map<string, string>): (r: Option<string>)
    ensures r.None? <==> forall i :: 0 <= i < |fields| ==> Present(kwargs, fields[i])
    ensures r.Some? ==> exists i :: 0 <= i < |fields| && fields[i] == r.value && !Present(kwargs, fields[i])
                                    && forall j :: 0 <= j < i ==> Present(kwargs, fields[j])
  {
    var i := MissingIndex(fields, kwargs);
    if i < |fields| then Some(fields[i]) else None
  }

  function StudentOf(user: int, kwargs: map<string, string>): StudentProfile {
    StudentProfile(user, Get(kwargs, "first_name"), Get(kwargs, "last_name"), Get(kwargs, "student_number"),
                   Get(kwargs, "department"), Get(kwargs, "faculty"), Get(kwargs, "phone_number"),
                   Get(kwargs, "address"), Get(kwargs, "date_of_birth"))
  }

  function CompanyOf(user: int, kwargs: map<string, string>): CompanyProfile {
    CompanyProfile(user, Get(kwargs, "company_name"), Get(kwargs, "contact_person"), Get(kwargs, "company_phone"),
                   Get(kwargs, "company_address"), Get(kwargs, "website"), Get(kwargs, "tax_number"))
  }

  /** `student_number` is unique across the student table. */
  predicate StudentNumberTaken(students: seq<StudentProfile>, s: StudentProfile) {
    exists i :: 0 <= i < |students| && students[i].studentNumber == s.studentNumber
  }

  function StudentMissing(field: string): MutationResult {
    MutationResult(Some(false), "Alan " + field + " ogrenci tipte zorunludur.")
  }

  function CompanyMissing(field: string): MutationResult {
    MutationResult(Some(false), "Alan " + field + " şirket tipte zorunludur.")
  }

  /** The extra fields `mutate` passes to `create_user`: only the role. */
  function RoleOnly(role: Role): ExtraFields {
    ExtraFields(Some(role), None, None, None)
  }

  /** `CreateUserMutation.mutate` on the tables `t`: its result and the
      tables afterwards. An unknown role is reported before anything is
      written; a failing `create_user` is re-raised with a prefix; a
      student or company missing a required field is deleted again; an
      admin is re-saved as superuser and staff. */
  function CreateUserOutcome(t: Tables, roles: map<int, Role>, normalizeEmail: string -> string,
                             setPassword: Option<string> -> string, a: UserArgs)
    : (Outcome<MutationResult>, Tables)
  {
    if a.roleId !in roles then (Ok(RoleNotFound), t)
    else
      var role := roles[a.roleId];
      match CreateUserResult(t.users, t.nextId, normalizeEmail, setPassword, a.username, a.email,
                             Some(a.password), RoleOnly(role))
      case Raised(m) => (Raised(CreateUserError + m), t)
      case Ok(u) => ApplyUserType(t, u, a)
  }

  /** The rest of `mutate` once `create_user` has added `u` to the tables
      `t`: the user type decides the new user's flags and profile. The type
      is compared with the literals 'admin', 'student' and 'company', which
      are also the values of `USER_TYPES`; the code does not read that map. */
  function ApplyUserType(t: Tables, u: User, a: UserArgs): (Outcome<MutationResult>, Tables) {
    var t1 := t.(users := t.users[u.id := u], nextId := t.nextId + 1);
    var kind := Lower(a.userType);
    if kind == "admin" then
      (Ok(Created), t1.(users := t1.users[u.id := u.(isSuperuser := true, isStaff := true)]))
    else if kind == "student" then
      match FirstMissing(StudentFields, a.kwargs)
      case Some(f) => (Ok(StudentMissing(f)), t1.(users := t1.users - {u.id}))
      case None =>
        var s := StudentOf(u.id, a.kwargs);
        if StudentNumberTaken(t.students, s) then (Raised(CreateUserError + UniqueViolation), t1)
        else (Ok(Created), t1.(students := t.students + [s]))
    else if kind == "company" then
      match FirstMissing(CompanyFields, a.kwargs)
      case Some(f) => (Ok(CompanyMissing(f)), t1.(users := t1.users - {u.id}))
      case None => (Ok(Created), t1.(companies := t.companies + [CompanyOf(u.id, a.kwargs)]))
    else (Ok(Created), t1)
  }

  /** The user-type step as its required-field checks evidently intend it:
      the checks and the profile columns read the named parameters instead
      of `**kwargs`. */
  function IntendedApplyUserType(t: Tables, u: User, a: UserArgs): (r: (Outcome<MutationResult>, Tables))
    ensures Lower(a.userType) == "student" && (forall i :: 0 <= i < |StudentFields| ==> Present(a.named, StudentFields[i]))
            && !StudentNumberTaken(t.students, StudentOf(u.id, a.named)) ==>
              && r.0 == Ok(Created)
              && r.1 == t.(users := t.users[u.id := u], nextId := t.nextId + 1,
                           students := t.students + [StudentOf(u.id, a.named)])
    ensures Lower(a.userType) == "company" && (forall i :: 0 <= i < |CompanyFields| ==> Present(a.named, CompanyFields[i])) ==>
              && r.0 == Ok(Created)
              && r.1 == t.(users := t.users[u.id := u], nextId := t.nextId + 1,
                           companies := t.companies + [CompanyOf(u.id, a.named)])
    ensures Lower(a.userType) == "student" && FirstMissing(StudentFields, a.named).Some? ==>
              r == (Ok(StudentMissing(FirstMissing(StudentFields, a.named).value)),
                    t.(users := t.users - {u.id}, nextId := t.nextId + 1))
    ensures Lower(a.userType) == "company" && FirstMissing(CompanyFields, a.named).Some? ==>
              r == (Ok(CompanyMissing(FirstMissing(CompanyFields, a.named).value)),
                    t.(users := t.users - {u.id}, nextId := t.nextId + 1))
  {
    assert t.users[u.id := u] - {u.id} == t.users - {u.id};
    ApplyUserType(t, u, a.(kwargs := a.named))
  }

  /** With the fix, a student who gives the five required fields gets a
      profile holding them; the code as written refuses the same call. */
  lemma IntendedStudentProfileHoldsFields(t: Tables, u: User, a: UserArgs)
    requires u.id !in t.users
    requires Lower(a.userType) == "student"
    requires Present(a.named, "first_name") && Present(a.named, "last_name")
    requires Present(a.named, "student_number") && Present(a.named, "department") && Present(a.named, "faculty")
    requires !StudentNumberTaken(t.students, StudentOf(u.id, a.named))
    requires forall k :: k in a.kwargs ==> k !in NamedParameters
    ensures var s := IntendedApplyUserType(t, u, a).1.students[|t.students|];
            && s.user == u.id
            && s.firstName == Some(a.named["first_name"]) && s.lastName == Some(a.named["last_name"])
            && s.studentNumber == Some(a.named["student_number"])
            && s.department == Some(a.named["department"]) && s.faculty == Some(a.named["faculty"])
    ensures ApplyUserType(t, u, a) == (Ok(StudentMissing("first_name")), t.(nextId := t.nextId + 1))
  {
    assert forall i :: 0 <= i < |StudentFields| ==> Present(a.named, StudentFields[i]);
    assert !Present(a.kwargs, StudentFields[0]);
    assert t.users[u.id := u] - {u.id} == t.users;
  }

  /** An unknown role is reported before any user is created, and nothing
      changes. */
  lemma {:induction false} UnknownRoleWritesNothing(t: Tables, roles: map<int, Role>, normalizeEmail: string -> string,
                                                    setPassword: Option<string> -> string, a: UserArgs)
    requires a.roleId !in roles
    ensures CreateUserOutcome(t, roles, normalizeEmail, setPassword, a) == (Ok(RoleNotFound), t)
  {
  }

  /** Every outcome keeps the user table valid, and `success` is never
      set to true: a success is reported by its message alone. */
  lemma CreateUserKeepsTableValid(t: Tables, roles: map<int, Role>, normalizeEmail: string -> string,
                                  setPassword: Option<string> -> string, a: UserArgs)
    requires TableValid(t.users, t.nextId)
    ensures var (r, after) := CreateUserOutcome(t, roles, normalizeEmail, setPassword, a);
            && TableValid(after.users, after.nextId)
            && (r.Ok? ==> r.value.success != Some(true))
            && (r.Raised? ==> CreateUserError <= r.message)
  {
    if a.roleId in roles {
      var created := CreateUserResult(t.users, t.nextId, normalizeEmail, setPassword, a.username, a.email,
                                      Some(a.password), RoleOnly(roles[a.roleId]));
      if created.Ok? {
        var u := created.value;
        CreatedUserFitsTable(t.users, t.nextId, normalizeEmail, setPassword, a.username, a.email,
                             Some(a.password), RoleOnly(roles[a.roleId]));
        assert !Conflicts(t.users, u);
        var admin := u.(isSuperuser := true, isStaff := true);
        InsertKeepsTableValid(t.users, t.nextId, admin);
        assert t.users[u.id := u][u.id := admin] == t.users[u.id := admin];
        assert t.users[u.id := u] - {u.id} == t.users;
      }
    }
  }

  /** The row `create_user` produced for these arguments, when it did. */
  function NewRow(t: Tables, roles: map<int, Role>, normalizeEmail: string -> string,
                  setPassword: Option<string> -> string, a: UserArgs): Outcome<User>
    requires a.roleId in roles
  {
    CreateUserResult(t.users, t.nextId, normalizeEmail, setPassword, a.username, a.email,
                     Some(a.password), RoleOnly(roles[a.roleId]))
  }

  /** An admin (in any letter case) is kept, as superuser and staff, with
      the requested role. */
  lemma AdminIsSuperuserAndStaff(t: Tables, roles: map<int, Role>, normalizeEmail: string -> string,
                                 setPassword: Option<string> -> string, a: UserArgs)
    requires TableValid(t.users, t.nextId)
    requires a.roleId in roles && NewRow(t, roles, normalizeEmail, setPassword, a).Ok?
    requires Lower(a.userType) == "admin"
    ensures var (r, after) := CreateUserOutcome(t, roles, normalizeEmail, setPassword, a);
            && r == Ok(Created)
            && t.nextId in after.users && after.users.Keys == t.users.Keys + {t.nextId}
            && (forall id :: id in t.users ==> after.users[id] == t.users[id])
            && after.users[t.nextId].isSuperuser && after.users[t.nextId].isStaff
            && after.users[t.nextId].role == Some(roles[a.roleId])
            && after.users[t.nextId].username == a.username
            && after.students == t.students && after.companies == t.companies
  {
    CreatedUserFitsTable(t.users, t.nextId, normalizeEmail, setPassword, a.username, a.email,
                         Some(a.password), RoleOnly(roles[a.roleId]));
  }

  /** A student or company missing a required field is deleted again and
      the first missing field is named; the consumed key is not reused. */
  lemma MissingFieldDeletesUser(t: Tables, roles: map<int, Role>, normalizeEmail: string -> string,
                                setPassword: Option<string> -> string, a: UserArgs)
    requires TableValid(t.users, t.nextId)
    requires a.roleId in roles && NewRow(t, roles, normalizeEmail, setPassword, a).Ok?
    requires Lower(a.userType) == "student" || Lower(a.userType) == "company"
    requires var fields := if Lower(a.userType) == "student" then StudentFields else CompanyFields;
             FirstMissing(fields, a.kwargs).Some?
    ensures var (r, after) := CreateUserOutcome(t, roles, normalizeEmail, setPassword, a);
            var fields := if Lower(a.userType) == "student" then StudentFields else CompanyFields;
            var f := FirstMissing(fields, a.kwargs).value;
            && r == Ok(if Lower(a.userType) == "student" then StudentMissing(f) else CompanyMissing(f))
            && after == t.(nextId := t.nextId + 1)
  {
    CreatedUserFitsTable(t.users, t.nextId, normalizeEmail, setPassword, a.username, a.email,
                         Some(a.password), RoleOnly(roles[a.roleId]));
    var u := NewRow(t, roles, normalizeEmail, setPassword, a).value;
    assert t.users[u.id := u] - {u.id} == t.users;
  }

  /** `**kwargs` never holds a named parameter, so the required-field check
      can never pass: every student or company that `create_user` accepted
      is deleted again, with the first required field named as missing. */
  lemma ProfilesNeverCreated(t: Tables, roles: map<int, Role>, normalizeEmail: string -> string,
                             setPassword: Option<string> -> string, a: UserArgs)
    requires TableValid(t.users, t.nextId)
    requires forall k :: k in a.kwargs ==> k !in NamedParameters
    requires a.roleId in roles && NewRow(t, roles, normalizeEmail, setPassword, a).Ok?
    ensures var (r, after) := CreateUserOutcome(t, roles, normalizeEmail, setPassword, a);
            && (Lower(a.userType) == "student" ==>
                  r == Ok(StudentMissing("first_name")) && after == t.(nextId := t.nextId + 1))
            && (Lower(a.userType) == "company" ==>
                  r == Ok(CompanyMissing("company_name")) && after == t.(nextId := t.nextId + 1))
            && after.students == t.students && after.companies == t.companies
  {
    assert !Present(a.kwargs, StudentFields[0]);
    assert !Present(a.kwargs, CompanyFields[0]);
    if Lower(a.userType) == "student" || Lower(a.userType) == "company" {
      MissingFieldDeletesUser(t, roles, normalizeEmail, setPassword, a);
    }
  }

  /** Any other user type keeps the new user, creates no profile, and still
      reports success. */
  lemma OtherTypeKeepsUserWithoutProfile(t: Tables, roles: map<int, Role>, normalizeEmail: string -> string,
                                         setPassword: Option<string> -> string, a: UserArgs)
    requires a.roleId in roles && NewRow(t, roles, normalizeEmail, setPassword, a).Ok?
    requires Lower(a.userType) !in {"admin", "student", "company"}
    ensures var (r, after) := CreateUserOutcome(t, roles, normalizeEmail, setPassword, a);
            var u := NewRow(t, roles, normalizeEmail, setPassword, a).value;
            && r == Ok(Created)
            && after == t.(users := t.users[u.id := u], nextId := t.nextId + 1)
            && !u.isSuperuser && !u.isStaff && u.isActive
  {
  }

  /** The student and company tables. */
  class ProfileTable {
    var students: seq<StudentProfile>
    var companies: seq<CompanyProfile>

    constructor (students: seq<StudentProfile>, companies: seq<CompanyProfile>)
      ensures this.students == students && this.companies == companies
    {
      this.students := students;
      this.companies := companies;
    }
  }

  /** The tables as they stand. */
  function Snapshot(manager: UserManager, profiles: ProfileTable): Tables
    reads manager, profiles
  {
    Tables(manager.users, manager.nextId, profiles.students, profiles.companies)
  }

  /** The `for field in required_fields` loop: the first field that is
      absent or empty in `kwargs`. */
  method CheckRequired(fields: seq<string>, kwargs: map<string, string>) returns (missing: Option<string>)
    ensures missing == FirstMissing(fields, kwargs)
  {
    for i := 0 to |fields|
      invariant forall j :: 0 <= j < i ==> Present(kwargs, fields[j])
    {
      if !(fields[i] in kwargs) || kwargs[fields[i]] == "" {
        assert MissingIndex(fields, kwargs) == i by {
          MissingIndexIsFirst(fields, kwargs, i);
        }
        return Some(fields[i]);
      }
    }
    return None;
  }

  lemma {:induction false} MissingIndexIsFirst(fields: seq<string>, kwargs: map<string, string>, i: nat)
    requires i < |fields| && !Present(kwargs, fields[i])
    requires forall j :: 0 <= j < i ==> Present(kwargs, fields[j])
    ensures MissingIndex(fields, kwargs) == i
    decreases i
  {
    if i > 0 {
      MissingIndexIsFirst(fields[1..], kwargs, i - 1);
    }
  }

  /** `CreateUserMutation.mutate`: looks the role up, creates and saves the
      user, then applies the user type. */
  method CreateUserMutation(manager: UserManager, profiles: ProfileTable, roles: map<int, Role>, a: UserArgs)
    returns (r: Outcome<MutationResult>)
    requires manager.Valid()
    modifies manager, profiles
    ensures manager.Valid()
    ensures (r, Snapshot(manager, profiles))
              == CreateUserOutcome(old(Snapshot(manager, profiles)), roles, manager.normalizeEmail,
                                   manager.setPassword, a)
  {
    if a.roleId !in roles {
      return Ok(RoleNotFound);
    }
    var role := roles[a.roleId];
    ghost var before := Snapshot(manager, profiles);
    var created := manager.CreateUser(a.username, a.email, Some(a.password), RoleOnly(role));
    if created.Raised? {
      return Raised(CreateUserError + created.message);
    }
    var user := created.value;
    CreatedUserFitsTable(before.users, before.nextId, manager.normalizeEmail, manager.setPassword,
                         a.username, a.email, Some(a.password), RoleOnly(role));
    ConflictsIgnoreOwnRow(before.users, user, user);
    var saved := manager.Save(user);
    assert saved.Ok?;
    r := UserTypeStep(manager, profiles, user, a, before);
  }

  /** The user-type branches of `mutate`, on a user that `create_user` has
      just added to the tables `before`. */
  method UserTypeStep(manager: UserManager, profiles: ProfileTable, user: User, a: UserArgs, ghost before: Tables)
    returns (r: Outcome<MutationResult>)
    requires manager.Valid() && !Conflicts(before.users, user)
    requires manager.users == before.users[user.id := user] && manager.nextId == before.nextId + 1
    requires profiles.students == before.students && profiles.companies == before.companies
    modifies manager, profiles
    ensures manager.Valid()
    ensures (r, Snapshot(manager, profiles)) == ApplyUserType(before, user, a)
  {
    var kind := Lower(a.userType);
    if kind == "admin" {
      var admin := user.(isSuperuser := true, isStaff := true);
      ConflictsIgnoreOwnRow(before.users, user, admin);
      var saved := manager.Save(admin);
      assert saved.Ok?;
      assert manager.users == before.users[user.id := user][user.id := admin];
    } else if kind == "student" {
      var missing := CheckRequired(StudentFields, a.kwargs);
      if missing.Some? {
        manager.Delete(user.id);
        return Ok(StudentMissing(missing.value));
      }
      var s := StudentOf(user.id, a.kwargs);
      if StudentNumberTaken(profiles.students, s) {
        return Raised(CreateUserError + UniqueViolation);
      }
      profiles.students := profiles.students + [s];
    } else if kind == "company" {
      var missing := CheckRequired(CompanyFields, a.kwargs);
      if missing.Some? {
        manager.Delete(user.id);
        return Ok(CompanyMissing(missing.value));
      }
      profiles.companies := profiles.companies + [CompanyOf(user.id, a.kwargs)];
    }
    return Ok(Created);
  }
}

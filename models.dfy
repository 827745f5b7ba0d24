/** The user-management records: permissions, roles, users, the anonymous
    caller, permission resolution and the user manager that creates users. */
module Models {
  import opened Outcomes

  /** A `CustomPermission` row. */
  datatype Permission = Permission(name: string, codename: string, description: string)

  /** A `CustomRole` row with the permissions its many-to-many relation
      holds. The relation has no order, so it is a set. */
  datatype Role = Role(name: string, description: string, permissions: set<Permission>)

  /** A `CustomUser` row; `password` is the stored hash. */
  datatype User = User(
    id: int,
    username: string,
    email: string,
    password: string,
    role: Option<Role>,
    isActive: bool,
    isStaff: bool,
    isSuperuser: bool)

  /** What `request.user` holds: Django's `AnonymousUser` or a `CustomUser`. */
  datatype Identity = Anonymous | Authenticated(user: User)

  /** `is_authenticated`: always true for a `CustomUser`, false for
      `AnonymousUser`; `is_anonymous` is its negation. */
  predicate IsAuthenticated(caller: Identity) {
    caller.Authenticated?
  }

  predicate IsAnonymous(caller: Identity) {
    !IsAuthenticated(caller)
  }

  /** `CustomRole.get_permission`: the codenames of the role's permissions. */
  function GetPermission(role: Role): (codes: set<string>)
    ensures forall p :: p in role.permissions ==> p.codename in codes
    ensures forall c :: c in codes ==> exists p :: p in role.permissions && p.codename == c
  {
    set p | p in role.permissions :: p.codename
  }

  /** `CustomUser.has_perm`: a superuser holds every permission, whatever
      its role; anyone else holds exactly the codenames of its role's
      permissions, and nothing without a role. `is_active` plays no part. */
  function HasPerm(user: User, perm: string): (b: bool)
    ensures user.isSuperuser ==> b
    ensures !user.isSuperuser && user.role.None? ==> !b
    ensures !user.isSuperuser && user.role.Some? ==>
              (b <==> exists p :: p in user.role.value.permissions && p.codename == perm)
  {
    if user.isSuperuser then true
    else if user.role.Some? then perm in GetPermission(user.role.value)
    else false
  }

  /** `CustomUser.has_module_perms`: granted exactly to the users that hold
      every permission, which are the superusers (a role only ever lists
      finitely many codenames). */
  function HasModulePerms(user: User, appLabel: string): (b: bool)
    ensures b <==> forall perm :: HasPerm(user, perm)
  {
    NonSuperuserLacksAPermission(user);
    user.isSuperuser
  }

  lemma NonSuperuserLacksAPermission(user: User)
    ensures !user.isSuperuser ==> !HasPerm(user, StringOutside(if user.role.Some? then GetPermission(user.role.value) else {}))
  {
  }

  /** A string that is not in the finite set `s`: one longer than all of them. */
  ghost function StringOutside(s: set<string>): (r: string)
    ensures r !in s
  {
    seq(LongerThanAll(s), _ => 'a')
  }

  function Max(a: int, b: int): int {
    if a < b then b else a
  }

  ghost function LongerThanAll(s: set<string>): (n: nat)
    ensures forall x :: x in s ==> |x| < n
    decreases |s|
  {
    if s == {} then 0
    else
      var y :| y in s;
      Max(|y| + 1, LongerThanAll(s - {y}))
  }

  /** The keyword arguments `create_user` forwards to the model; None means
      the caller did not pass it and the model's default applies (no role,
      active, not staff, not superuser). */
  datatype ExtraFields = ExtraFields(
    role: Option<Role>,
    isStaff: Option<bool>,
    isSuperuser: Option<bool>,
    isActive: Option<bool>)

  /** `create_superuser`'s `setdefault` calls: staff, superuser and active
      default to true; values the caller passed are kept. */
  function WithSuperuserDefaults(extra: ExtraFields): (r: ExtraFields)
    ensures r.role == extra.role
    ensures r.isStaff.Some? && r.isSuperuser.Some? && r.isActive.Some?
    ensures extra.isStaff.Some? ==> r.isStaff == extra.isStaff
    ensures extra.isSuperuser.Some? ==> r.isSuperuser == extra.isSuperuser
    ensures extra.isActive.Some? ==> r.isActive == extra.isActive
    ensures extra.isStaff.None? ==> r.isStaff == Some(true)
    ensures extra.isSuperuser.None? ==> r.isSuperuser == Some(true)
    ensures extra.isActive.None? ==> r.isActive == Some(true)
  {
    ExtraFields(
      extra.role,
      Some(extra.isStaff.GetOr(true)),
      Some(extra.isSuperuser.GetOr(true)),
      Some(extra.isActive.GetOr(true)))
  }

  /** The row `create_user` builds before saving it. */
  function NewUser(id: int, username: string, email: string, password: string, extra: ExtraFields): User {
    User(id, username, email, password, extra.role,
         extra.isActive.GetOr(true), extra.isStaff.GetOr(false), extra.isSuperuser.GetOr(false))
  }

  const EmailRequired := "Email adresi gereklidir"
  const UsernameRequired := "Kullanıcı adı gereklidir"
  /** The database's error for a duplicate username or email; its exact
      wording belongs to the database backend. */
  const UniqueViolation := "UNIQUE constraint failed"

  /** Username and email are each unique across the user table. */
  predicate UniqueLogins(users: map<int, User>) {
    forall a, b :: a in users && b in users && a != b ==>
      users[a].username != users[b].username && users[a].email != users[b].email
  }

  /** Saving `u` would break uniqueness: another row has its username or email. */
  predicate Conflicts(users: map<int, User>, u: User) {
    exists id :: id in users && id != u.id && (users[id].username == u.username || users[id].email == u.email)
  }

  /** The table is keyed by primary key, all below the next one to hand out,
      and usernames and emails are unique. */
  predicate TableValid(users: map<int, User>, nextId: int) {
    && 1 <= nextId
    && (forall id :: id in users ==> users[id].id == id && 1 <= id < nextId)
    && UniqueLogins(users)
  }

  lemma InsertKeepsTableValid(users: map<int, User>, nextId: int, u: User)
    requires TableValid(users, nextId)
    requires u.id == nextId && !Conflicts(users, u)
    ensures TableValid(users[u.id := u], nextId + 1)
  {
  }

  /** A row never conflicts with itself: re-saving a row that was stored
      without conflict, with the same key, username and email, conflicts
      with nothing. */
  lemma ConflictsIgnoreOwnRow(users: map<int, User>, u: User, v: User)
    requires v.id == u.id && v.username == u.username && v.email == u.email
    ensures Conflicts(users[u.id := u], v) == Conflicts(users, u)
  {
    var after := users[u.id := u];
    if Conflicts(after, v) {
      var id :| id in after && id != v.id && (after[id].username == v.username || after[id].email == v.email);
      assert id in users && users[id] == after[id];
    }
    if Conflicts(users, u) {
      var id :| id in users && id != u.id && (users[id].username == u.username || users[id].email == u.email);
      assert id in after && after[id] == users[id];
    }
  }

  /** What `create_user` returns on the table `users` whose next primary
      key is `nextId`: the email is checked before the username, and the
      new row, with the normalised email and the hashed password, is
      refused when its username or email is taken. */
  function CreateUserResult(users: map<int, User>, nextId: int, normalizeEmail: string -> string,
                            setPassword: Option<string> -> string, username: string, email: string,
                            password: Option<string>, extra: ExtraFields): (r: Outcome<User>)
    ensures email == "" ==> r == Raised(EmailRequired)
    ensures email != "" && username == "" ==> r == Raised(UsernameRequired)
    ensures email != "" && username != "" ==>
              var u := NewUser(nextId, username, normalizeEmail(email), setPassword(password), extra);
              && (r.Raised? <==> Conflicts(users, u))
              && (r.Raised? ==> r.message == UniqueViolation)
              && (r.Ok? ==> r.value == u)
  {
    if email == "" then Raised(EmailRequired)
    else if username == "" then Raised(UsernameRequired)
    else
      var u := NewUser(nextId, username, normalizeEmail(email), setPassword(password), extra);
      if Conflicts(users, u) then Raised(UniqueViolation) else Ok(u)
  }

  /** A row `create_user` adds keeps the table valid, gets the next key,
      and carries the model's defaults for every field the caller left out. */
  lemma CreatedUserFitsTable(users: map<int, User>, nextId: int, normalizeEmail: string -> string,
                             setPassword: Option<string> -> string, username: string, email: string,
                             password: Option<string>, extra: ExtraFields)
    requires TableValid(users, nextId)
    requires CreateUserResult(users, nextId, normalizeEmail, setPassword, username, email, password, extra).Ok?
    ensures var u := CreateUserResult(users, nextId, normalizeEmail, setPassword, username, email, password, extra).value;
            && u.id == nextId && u.id !in users
            && TableValid(users[u.id := u], nextId + 1)
            && u.username == username && u.email == normalizeEmail(email) && u.role == extra.role
            && u.isActive == extra.isActive.GetOr(true)
            && u.isStaff == extra.isStaff.GetOr(false)
            && u.isSuperuser == extra.isSuperuser.GetOr(false)
  {
    var u := CreateUserResult(users, nextId, normalizeEmail, setPassword, username, email, password, extra).value;
    InsertKeepsTableValid(users, nextId, u);
  }

  /** The `CustomUser` table together with `CustomUserManager`. Email
      normalisation and password hashing are Django's and stay abstract. */
  class UserManager {
    var users: map<int, User>
    var nextId: int
    const normalizeEmail: string -> string
    const setPassword: Option<string> -> string

    ghost predicate Valid()
      reads this
    {
      TableValid(users, nextId)
    }

    constructor (normalizeEmail: string -> string, setPassword: Option<string> -> string,
                 users: map<int, User>, nextId: int)
      requires TableValid(users, nextId)
      ensures Valid()
      ensures this.users == users && this.nextId == nextId
      ensures this.normalizeEmail == normalizeEmail && this.setPassword == setPassword
    {
      this.users := users;
      this.nextId := nextId;
      this.normalizeEmail := normalizeEmail;
      this.setPassword := setPassword;
    }

    /** `create_user`: an empty email is refused first, then an empty
        username; otherwise the row is saved unless its username or
        normalised email is taken. */
    method CreateUser(username: string, email: string, password: Option<string>, extra: ExtraFields)
      returns (r: Outcome<User>)
      requires Valid()
      modifies this
      ensures Valid()
      ensures r == CreateUserResult(old(users), old(nextId), normalizeEmail, setPassword,
                                    username, email, password, extra)
      ensures r.Raised? ==> users == old(users) && nextId == old(nextId)
      ensures r.Ok? ==> users == old(users)[r.value.id := r.value] && nextId == old(nextId) + 1
    {
      if email == "" {
        return Raised(EmailRequired);
      }
      if username == "" {
        return Raised(UsernameRequired);
      }
      var normalized := normalizeEmail(email);
      var u := NewUser(nextId, username, normalized, setPassword(password), extra);
      if Conflicts(users, u) {
        return Raised(UniqueViolation);
      }
      InsertKeepsTableValid(users, nextId, u);
      users := users[u.id := u];
      nextId := nextId + 1;
      r := Ok(u);
    }

    /** `create_superuser`: `create_user` with staff, superuser and active
        defaulting to true. */
    method CreateSuperuser(username: string, email: string, password: Option<string>, extra: ExtraFields)
      returns (r: Outcome<User>)
      requires Valid()
      modifies this
      ensures Valid()
      ensures r == CreateUserResult(old(users), old(nextId), normalizeEmail, setPassword,
                                    username, email, password, WithSuperuserDefaults(extra))
      ensures r.Raised? ==> users == old(users) && nextId == old(nextId)
      ensures r.Ok? ==> users == old(users)[r.value.id := r.value] && nextId == old(nextId) + 1
    {
      r := CreateUser(username, email, password, WithSuperuserDefaults(extra));
    }

    /** `user.save()` on a row that is already in the table. */
    method Save(u: User) returns (r: Outcome<()>)
      requires Valid() && u.id in users
      modifies this
      ensures Valid() && nextId == old(nextId)
      ensures r.Ok? <==> !Conflicts(old(users), u)
      ensures r.Raised? ==> r.message == UniqueViolation
      ensures users == if r.Ok? then old(users)[u.id := u] else old(users)
    {
      if Conflicts(users, u) {
        return Raised(UniqueViolation);
      }
      users := users[u.id := u];
      r := Ok(());
    }

    /** `user.delete()`. */
    method Delete(id: int)
      requires Valid()
      modifies this
      ensures Valid() && nextId == old(nextId)
      ensures users == old(users) - {id}
    {
      users := users - {id};
    }
  }
}

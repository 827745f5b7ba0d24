/** `create_roles.py`: seeds the permission table with get-or-create by
    codename, then get-or-creates the three roles by name and adds their
    permissions. The script's progress messages are not modelled. */
module CreateRoles {
  import opened Outcomes
  import opened Strings
  import opened Models

  /** The permission definitions of `create_permissions`, in the order the
      script lists them. */
  const AdminPermissions: seq<Permission> := [
    Permission("Staj Başvurusu Admin Onayı", "internshipManage.InternshipApplicationApproveByAdminorRejected",
               "Staj başvurularını onaylama veya reddetme yetkisi"),
    Permission("Kullanıcı Ekleme", "userManage.UserAdd",
               "Sisteme yeni kullanıcı ekleme yetkisi"),
    Permission("Kullanıcı Güncelleme", "userManage.UserUpdate",
               "Kullanıcı bilgilerini güncelleme yetkisi"),
    Permission("Kullanıcı Silme", "userManage.UserDelete",
               "Kullanıcı silme yetkisi"),
    Permission("Rol Yönetimi", "userManage.RoleManagement",
               "Rol ve izin yönetimi yetkisi"),
    Permission("Kullanıcı Listeleme", "userManage.UserList",
               "Kullanıcıları listeleme yetkisi"),
    Permission("Kullanıcı Detay Görüntüleme", "userManage.UserView",
               "Kullanıcı detaylarını görüntüleme yetkisi"),
    Permission("Staj Başvurusu Listeleme", "internshipManage.InternshipApplicationList",
               "Staj başvurularını listeleme yetkisi"),
    Permission("Staj Günlüğü Listeleme", "internshipManage.InternshipDiaryList",
               "Staj günlüklerini listeleme yetkisi")
  ]

  const StudentPermissions: seq<Permission> := [
    Permission("Staj Başvurusu Oluşturma", "internshipManage.InternshipApplicationAdd",
               "Staj başvurusu oluşturma yetkisi"),
    Permission("Staj Başvurusu Güncelleme", "internshipManage.InternshipApplicationUpdate",
               "Staj başvurusu güncelleme yetkisi"),
    Permission("Staj Başvurusu Silme", "internshipManage.InternshipApplicationDelete",
               "Staj başvurusu silme yetkisi"),
    Permission("Staj Başvurusu Görüntüleme", "internshipManage.InternshipApplicationView",
               "Staj başvurusu detaylarını görüntüleme yetkisi"),
    Permission("Staj Günlüğü Oluşturma", "internshipManage.InternshipDiaryAdd",
               "Staj günlüğü oluşturma yetkisi"),
    Permission("Staj Günlüğü Güncelleme", "internshipManage.InternshipDiaryUpdate",
               "Staj günlüğü güncelleme yetkisi"),
    Permission("Staj Günlüğü Silme", "internshipManage.InternshipDiaryDelete",
               "Staj günlüğü silme yetkisi"),
    Permission("Profil Güncelleme", "userManage.ProfileUpdate",
               "Kendi profilini güncelleme yetkisi")
  ]

  const CompanyPermissions: seq<Permission> := [
    Permission("Staj Başvurusu Şirket Onayı", "internshipManage.InternshipApplicationApproveByCompanyorRejected",
               "Staj başvurularını şirket olarak onaylama veya reddetme yetkisi"),
    Permission("Staj Değerlendirmesi", "internshipManage.InternshipApplicationEvaluation",
               "Staj değerlendirmesi yapma yetkisi"),
    Permission("Şirket Profili Güncelleme", "userManage.CompanyProfileUpdate",
               "Şirket profilini güncelleme yetkisi"),
    Permission("Staj Değerlendirme Görüntüleme", "internshipManage.InternshipEvaluationView",
               "Staj değerlendirmelerini görüntüleme yetkisi"),
    Permission("Staj Başvurusu Listeleme", "internshipManage.InternshipApplicationList",
               "Şirkete yapılan staj başvurularını listeleme yetkisi")
  ]

  const AdminCodes: seq<string> := [
    "internshipManage.InternshipApplicationApproveByAdminorRejected",
    "userManage.UserAdd",
    "userManage.UserUpdate",
    "userManage.UserDelete",
    "userManage.RoleManagement",
    "userManage.UserList",
    "userManage.UserView",
    "internshipManage.InternshipApplicationList",
    "internshipManage.InternshipDiaryList"
  ]

  const StudentCodes: seq<string> := [
    "internshipManage.InternshipApplicationAdd",
    "internshipManage.InternshipApplicationUpdate",
    "internshipManage.InternshipApplicationDelete",
    "internshipManage.InternshipApplicationView",
    "internshipManage.InternshipDiaryAdd",
    "internshipManage.InternshipDiaryUpdate",
    "internshipManage.InternshipDiaryDelete",
    "userManage.ProfileUpdate"
  ]

  const CompanyCodes: seq<string> := [
    "internshipManage.InternshipApplicationApproveByCompanyorRejected",
    "internshipManage.InternshipApplicationEvaluation",
    "userManage.CompanyProfileUpdate",
    "internshipManage.InternshipEvaluationView",
    "internshipManage.InternshipApplicationList"
  ]

  /** `admin_permissions + student_permissions + company_permissions`. */
  const AllPermissions: seq<Permission> := AdminPermissions + StudentPermissions + CompanyPermissions

  /** The codenames listed in `ps`. */
  function Codenames(ps: seq<Permission>): (codes: set<string>)
    ensures forall i :: 0 <= i < |ps| ==> ps[i].codename in codes
    ensures forall c :: c in codes ==> exists i :: 0 <= i < |ps| && ps[i].codename == c
  {
    set i | 0 <= i < |ps| :: ps[i].codename
  }

  /** The `CustomPermission` table: `codename` is unique, so the table is
      a map from codename to row. */
  predicate KeyedByCodename(table: map<string, Permission>) {
    forall c :: c in table ==> table[c].codename == c
  }

  /** `CustomPermission.objects.get_or_create(codename=..., defaults=...)`:
      an existing row is returned unchanged, otherwise the definition is
      inserted. */
  function GetOrCreate(table: map<string, Permission>, p: Permission): (r: map<string, Permission>)
    ensures r.Keys == table.Keys + {p.codename}
    ensures forall c :: c in table ==> r[c] == table[c]
    ensures p.codename !in table ==> r[p.codename] == p
  {
    if p.codename in table then table else table[p.codename := p]
  }

  /** The table after the `for perm in all_permissions` loop has run over
      `ps`. */
  function Seed(table: map<string, Permission>, ps: seq<Permission>): map<string, Permission>
    decreases |ps|
  {
    if ps == [] then table else GetOrCreate(Seed(table, ps[..|ps| - 1]), ps[|ps| - 1])
  }

  /** `created_permissions` over the codenames `codes`. */
  function Restrict(table: map<string, Permission>, codes: set<string>): map<string, Permission> {
    map c | c in codes && c in table :: table[c]
  }

  lemma CodenamesOfPrefix(ps: seq<Permission>, n: nat)
    requires n < |ps|
    ensures Codenames(ps[..n + 1]) == Codenames(ps[..n]) + {ps[n].codename}
  {
    var a := Codenames(ps[..n + 1]);
    var b := Codenames(ps[..n]) + {ps[n].codename};
    forall c | c in a ensures c in b {
      var i :| 0 <= i < n + 1 && ps[..n + 1][i].codename == c;
      if i < n {
        assert ps[..n][i].codename == c;
      }
    }
    forall c | c in b ensures c in a {
      if c != ps[n].codename {
        var i :| 0 <= i < n && ps[..n][i].codename == c;
        assert ps[..n + 1][i].codename == c;
      } else {
        assert ps[..n + 1][n].codename == c;
      }
    }
  }

  /** Seeding adds exactly the listed codenames. */
  lemma {:induction false} SeedKeys(table: map<string, Permission>, ps: seq<Permission>)
    ensures Seed(table, ps).Keys == table.Keys + Codenames(ps)
    decreases |ps|
  {
    if ps != [] {
      var n := |ps| - 1;
      SeedKeys(table, ps[..n]);
      CodenamesOfPrefix(ps, n);
      assert ps[..n + 1] == ps;
    }
  }

  /** Seeding never modifies an existing row, and keeps the table keyed by
      codename. */
  lemma {:induction false} SeedKeepsRows(table: map<string, Permission>, ps: seq<Permission>)
    requires KeyedByCodename(table)
    ensures table.Keys <= Seed(table, ps).Keys
    ensures forall c :: c in table ==> Seed(table, ps)[c] == table[c]
    ensures KeyedByCodename(Seed(table, ps))
    decreases |ps|
  {
    if ps != [] {
      SeedKeepsRows(table, ps[..|ps| - 1]);
    }
  }

  /** For a codename not yet in the table, the first definition listed
      wins; later ones with the same codename are ignored. */
  lemma {:induction false} SeedFirstWins(table: map<string, Permission>, ps: seq<Permission>, i: nat)
    requires i < |ps| && ps[i].codename !in table
    requires forall j :: 0 <= j < i ==> ps[j].codename != ps[i].codename
    ensures ps[i].codename in Seed(table, ps) && Seed(table, ps)[ps[i].codename] == ps[i]
    decreases |ps|
  {
    var n := |ps| - 1;
    if i < n {
      SeedFirstWins(table, ps[..n], i);
    } else {
      SeedAbsent(table, ps[..n], ps[i].codename);
    }
  }

  lemma {:induction false} SeedAbsent(table: map<string, Permission>, ps: seq<Permission>, c: string)
    requires c !in table
    requires forall j :: 0 <= j < |ps| ==> ps[j].codename != c
    ensures c !in Seed(table, ps)
    decreases |ps|
  {
    if ps != [] {
      SeedAbsent(table, ps[..|ps| - 1], c);
    }
  }

  /** Seeding a table that already holds every listed codename changes
      nothing. */
  lemma {:induction false} SeedCovered(table: map<string, Permission>, ps: seq<Permission>)
    requires Codenames(ps) <= table.Keys
    ensures Seed(table, ps) == table
    decreases |ps|
  {
    if ps != [] {
      var n := |ps| - 1;
      assert Codenames(ps[..n]) <= Codenames(ps) by {
        forall c | c in Codenames(ps[..n]) ensures c in Codenames(ps) {
          var i :| 0 <= i < n && ps[..n][i].codename == c;
          assert ps[i].codename == c;
        }
      }
      SeedCovered(table, ps[..n]);
    }
  }

  /** Seeding is idempotent. */
  lemma SeedIdempotent(table: map<string, Permission>, ps: seq<Permission>)
    ensures Seed(Seed(table, ps), ps) == Seed(table, ps)
  {
    SeedKeys(table, ps);
    SeedCovered(Seed(table, ps), ps);
  }

  /** The codenames of `ps`, in order. */
  function Codes(ps: seq<Permission>): (codes: seq<string>)
    ensures |codes| == |ps| && forall i :: 0 <= i < |ps| ==> codes[i] == ps[i].codename
  {
    seq(|ps|, i requires 0 <= i < |ps| => ps[i].codename)
  }

  /** Each role block adds exactly the codenames its own definition list
      declares, in the same order. */
  lemma RoleCodesMatchDefinitions()
    ensures Codes(AdminPermissions) == AdminCodes
    ensures Codes(StudentPermissions) == StudentCodes
    ensures Codes(CompanyPermissions) == CompanyCodes
  {
  }

  lemma CodenamesAreCodes(ps: seq<Permission>)
    ensures Codenames(ps) == set c | c in Codes(ps)
  {
    forall c | c in Codes(ps) ensures c in Codenames(ps) {
      var i :| 0 <= i < |ps| && Codes(ps)[i] == c;
    }
  }

  lemma CodesOfAll()
    ensures Codes(AllPermissions) == AdminCodes + StudentCodes + CompanyCodes
  {
    RoleCodesMatchDefinitions();
    assert Codes(AllPermissions) == Codes(AdminPermissions) + Codes(StudentPermissions) + Codes(CompanyPermissions);
  }

  lemma {:induction false} RoleCodeSet(listed: seq<string>)
    requires listed == AdminCodes + StudentCodes + CompanyCodes
    ensures (set c | c in listed) == DistinctCodenames
  {
    forall c | c in listed ensures c in DistinctCodenames { }
    forall c | c in DistinctCodenames ensures c in listed { }
  }

  /** The distinct codenames the script defines, grouped by length: up to
      25, 26 to 40, 41 to 45, and 46 or more characters. */
  const ShortCodenames: set<string> := {
      "userManage.UserAdd",
      "userManage.UserUpdate",
      "userManage.UserDelete",
      "userManage.RoleManagement",
      "userManage.UserList",
      "userManage.UserView",
      "userManage.ProfileUpdate"}

  const MediumCodenames: set<string> := {
      "internshipManage.InternshipDiaryList",
      "internshipManage.InternshipDiaryAdd",
      "internshipManage.InternshipDiaryUpdate",
      "internshipManage.InternshipDiaryDelete",
      "userManage.CompanyProfileUpdate"}

  const LongCodenames: set<string> := {
      "internshipManage.InternshipApplicationList",
      "internshipManage.InternshipApplicationAdd",
      "internshipManage.InternshipApplicationUpdate",
      "internshipManage.InternshipApplicationDelete",
      "internshipManage.InternshipApplicationView",
      "internshipManage.InternshipEvaluationView"}

  const LongestCodenames: set<string> := {
      "internshipManage.InternshipApplicationApproveByAdminorRejected",
      "internshipManage.InternshipApplicationApproveByCompanyorRejected",
      "internshipManage.InternshipApplicationEvaluation"}

  const DistinctCodenames: set<string> := ShortCodenames + MediumCodenames + LongCodenames + LongestCodenames

  /** Sets of strings separated by length are disjoint. */
  lemma {:induction false} SeparatedUnion(a: set<string>, b: set<string>, k: nat)
    requires forall x :: x in a ==> |x| < k
    requires forall y :: y in b ==> |y| >= k
    ensures |a + b| == |a| + |b|
  {
    assert a * b == {} by {
      forall x | x in a * b ensures false {
      }
    }
  }

  lemma ShortCount() ensures |ShortCodenames| == 7 && forall x :: x in ShortCodenames ==> |x| < 26 {}
  lemma MediumCount() ensures |MediumCodenames| == 5 && forall x :: x in MediumCodenames ==> 26 <= |x| < 41 {}
  lemma LongCount() ensures |LongCodenames| == 6 && forall x :: x in LongCodenames ==> 41 <= |x| < 46 {}
  lemma LongestCount() ensures |LongestCodenames| == 3 && forall x :: x in LongestCodenames ==> 46 <= |x| {}

  lemma DistinctCodenamesCount()
    ensures |DistinctCodenames| == 21
  {
    ShortCount();
    MediumCount();
    LongCount();
    LongestCount();
    SeparatedUnion(ShortCodenames, MediumCodenames, 26);
    SeparatedUnion(ShortCodenames + MediumCodenames, LongCodenames, 41);
    SeparatedUnion(ShortCodenames + MediumCodenames + LongCodenames, LongestCodenames, 46);
  }

  /** 22 definitions are listed; their codenames are 21 distinct strings,
      `internshipManage.InternshipApplicationList` being listed twice (for
      the admin list and for the company list). */
  lemma TwentyOneDistinctCodenames()
    ensures |AllPermissions| == 22
    ensures Codenames(AllPermissions) == DistinctCodenames && |Codenames(AllPermissions)| == 21
  {
    CodenamesAreCodes(AllPermissions);
    CodesOfAll();
    RoleCodeSet(Codes(AllPermissions));
    DistinctCodenamesCount();
  }

  /** The codename listed twice sits at positions 7 and 21. */
  lemma ApplicationListListedTwice()
    ensures AllPermissions[7].codename == AllPermissions[21].codename == "internshipManage.InternshipApplicationList"
    ensures forall j :: 0 <= j < 7 ==> AllPermissions[j].codename != "internshipManage.InternshipApplicationList"
  {
    CodesOfAll();
    assert Codes(AllPermissions)[7] == "internshipManage.InternshipApplicationList";
  }

  /** On a table without it, the duplicated codename gets the first, admin
      definition: its name and its description of listing internship
      applications, not the company one. */
  lemma DuplicateKeepsFirstDefinition(table: map<string, Permission>)
    requires "internshipManage.InternshipApplicationList" !in table
    ensures Seed(table, AllPermissions)["internshipManage.InternshipApplicationList"]
              == Permission("Staj Başvurusu Listeleme", "internshipManage.InternshipApplicationList",
                            "Staj başvurularını listeleme yetkisi")
  {
    ApplicationListListedTwice();
    SeedFirstWins(table, AllPermissions, 7);
  }

  /** Roles
      ----- */

  /** A role block of `create_roles`: the name it get-or-creates, the
      description used when it creates, and the codenames it adds. */
  datatype RoleDef = RoleDef(name: string, description: string, codes: seq<string>)

  const AdminRole := RoleDef("Admin", "Sistem yöneticisi", AdminCodes)
  const StudentRole := RoleDef("Student", "Öğrenci kullanıcı", StudentCodes)
  const CompanyRole := RoleDef("Company", "Şirket kullanıcı", CompanyCodes)

  /** The number of role rows named `name`. */
  function CountNamed(roles: seq<Role>, name: string): nat
    decreases |roles|
  {
    if roles == [] then 0
    else CountNamed(roles[..|roles| - 1], name) + (if roles[|roles| - 1].name == name then 1 else 0)
  }

  /** The first role row named `name`, or `|roles|` when there is none. */
  function FirstNamed(roles: seq<Role>, name: string): (i: nat)
    ensures i <= |roles|
    ensures i < |roles| ==> roles[i].name == name
    ensures forall j :: 0 <= j < i ==> roles[j].name != name
    ensures i == |roles| <==> CountNamed(roles, name) == 0
    decreases |roles|
  {
    if roles == [] then 0
    else
      var k := FirstNamed(roles[..|roles| - 1], name);
      if k < |roles| - 1 then k
      else if roles[|roles| - 1].name == name then |roles| - 1
      else |roles|
  }

  /** Django's message for a `get()` that matched `n` rows (it counts at
      most 21). */
  function MultipleReturned(n: nat): string {
    "get() returned more than one CustomRole -- it returned "
      + (if n < 21 then NatToString(n) else "more than 20") + "!"
  }

  /** `str(KeyError(key))`. */
  function KeyErrorText(key: string): string {
    "'" + key + "'"
  }

  /** The position of the first code that is not a key of `perms`, or
      `|codes|`. */
  function AbsentIndex(codes: seq<string>, perms: map<string, Permission>): (i: nat)
    ensures i <= |codes|
    ensures forall j :: 0 <= j < i ==> codes[j] in perms
    ensures i < |codes| ==> codes[i] !in perms
  {
    if codes == [] || codes[0] !in perms then 0 else 1 + AbsentIndex(codes[1..], perms)
  }

  /** The permissions `permissions['...']` looks up for `codes`. */
  function PermsOf(codes: seq<string>, perms: map<string, Permission>): set<Permission>
    requires forall j :: 0 <= j < |codes| ==> codes[j] in perms
  {
    set j | 0 <= j < |codes| :: perms[codes[j]]
  }

  /** One role block: `get_or_create(name=..., defaults=...)`, which raises
      when several rows have the name, then `permissions.add(...)`, whose
      arguments raise `KeyError` at the first code missing from `perms`.
      Adding only ever adds. */
  function AddRole(roles: seq<Role>, perms: map<string, Permission>, d: RoleDef): (Outcome<()>, seq<Role>) {
    var n := CountNamed(roles, d.name);
    if n > 1 then (Raised(MultipleReturned(n)), roles)
    else
      var rows := if n == 0 then roles + [Role(d.name, d.description, {})] else roles;
      var i := FirstNamed(rows, d.name);
      var k := AbsentIndex(d.codes, perms);
      if k < |d.codes| then (Raised(KeyErrorText(d.codes[k])), rows)
      else (Ok(()), rows[i := rows[i].(permissions := rows[i].permissions + PermsOf(d.codes, perms))])
  }

  /** `create_roles(permissions)`: the Admin, Student and Company blocks in
      turn; an exception ends the script. */
  function CreateRolesSpec(roles: seq<Role>, perms: map<string, Permission>): (Outcome<()>, seq<Role>) {
    var (r1, a) := AddRole(roles, perms, AdminRole);
    if r1.Raised? then (r1, a)
    else
      var (r2, b) := AddRole(a, perms, StudentRole);
      if r2.Raised? then (r2, b)
      else AddRole(b, perms, CompanyRole)
  }

  /** The database tables the script touches. */
  datatype Store = Store(permissions: map<string, Permission>, roles: seq<Role>)

  /** The script's `__main__` block. */
  function RunScript(s: Store): (Outcome<()>, Store) {
    var table := Seed(s.permissions, AllPermissions);
    var (r, roles) := CreateRolesSpec(s.roles, Restrict(table, Codenames(AllPermissions)));
    (r, Store(table, roles))
  }

  lemma SeedStep(table: map<string, Permission>, ps: seq<Permission>, i: nat)
    requires i < |ps|
    ensures Seed(table, ps[..i + 1]) == GetOrCreate(Seed(table, ps[..i]), ps[i])
    ensures Codenames(ps[..i + 1]) == Codenames(ps[..i]) + {ps[i].codename}
  {
    assert ps[..i + 1][..i] == ps[..i];
    CodenamesOfPrefix(ps, i);
  }

  /** A map that agrees with `table` on exactly the keys `codes` is the
      restriction of `table` to them. */
  lemma RestrictAgrees(table: map<string, Permission>, m: map<string, Permission>, codes: set<string>)
    requires m.Keys == codes
    requires forall c :: c in m ==> c in table && m[c] == table[c]
    ensures m == Restrict(table, codes)
  {
  }

  /** `created_permissions` holds exactly the listed codenames, each
      mapped to its row of the seeded table. */
  lemma CreatedHoldsListedCodenames(table: map<string, Permission>, ps: seq<Permission>)
    ensures var seeded := Seed(table, ps);
            var created := Restrict(seeded, Codenames(ps));
            && created.Keys == Codenames(ps)
            && forall c :: c in created ==> c in seeded && created[c] == seeded[c]
  {
    SeedKeys(table, ps);
  }

  /** Every codename a role block adds is listed, so `create_roles` on the
      map `create_permissions` returns never raises `KeyError`. */
  lemma RoleCodesAreListed()
    ensures forall j :: 0 <= j < |AdminCodes| ==> AdminCodes[j] in Codenames(AllPermissions)
    ensures forall j :: 0 <= j < |StudentCodes| ==> StudentCodes[j] in Codenames(AllPermissions)
    ensures forall j :: 0 <= j < |CompanyCodes| ==> CompanyCodes[j] in Codenames(AllPermissions)
  {
    CodesOfAll();
    CodenamesAreCodes(AllPermissions);
    var all := Codes(AllPermissions);
    forall j | 0 <= j < |AdminCodes| ensures AdminCodes[j] in Codenames(AllPermissions) {
      assert all[j] == AdminCodes[j];
    }
    forall j | 0 <= j < |StudentCodes| ensures StudentCodes[j] in Codenames(AllPermissions) {
      assert all[|AdminCodes| + j] == StudentCodes[j];
    }
    forall j | 0 <= j < |CompanyCodes| ensures CompanyCodes[j] in Codenames(AllPermissions) {
      assert all[|AdminCodes| + |StudentCodes| + j] == CompanyCodes[j];
    }
  }

  /** The application-list permission is given to both Admin and Company,
      and to Student not. */
  lemma ApplicationListSharedByAdminAndCompany()
    ensures "internshipManage.InternshipApplicationList" in AdminCodes
    ensures "internshipManage.InternshipApplicationList" in CompanyCodes
    ensures "internshipManage.InternshipApplicationList" !in StudentCodes
    ensures |AdminCodes| == 9 && |StudentCodes| == 8 && |CompanyCodes| == 5
  {
    assert AdminCodes[7] == "internshipManage.InternshipApplicationList";
    assert CompanyCodes[4] == "internshipManage.InternshipApplicationList";
  }

  /** A role block is settled when exactly one row has its name, every
      code it adds is available, and that row already holds them all. */
  predicate Settled(roles: seq<Role>, perms: map<string, Permission>, d: RoleDef) {
    && CountNamed(roles, d.name) == 1
    && AbsentIndex(d.codes, perms) == |d.codes|
    && PermsOf(d.codes, perms) <= roles[FirstNamed(roles, d.name)].permissions
  }

  /** The rows named `name` are the same in `before` and `after`: as many,
      and the first of them unchanged. */
  predicate SameNamed(before: seq<Role>, after: seq<Role>, name: string) {
    && CountNamed(after, name) == CountNamed(before, name)
    && (CountNamed(before, name) > 0 ==>
          FirstNamed(after, name) == FirstNamed(before, name)
          && after[FirstNamed(after, name)] == before[FirstNamed(before, name)])
  }

  lemma {:induction false} UpdateKeepsNames(roles: seq<Role>, i: nat, row: Role, name: string)
    requires i < |roles| && row.name == roles[i].name
    ensures CountNamed(roles[i := row], name) == CountNamed(roles, name)
    ensures FirstNamed(roles[i := row], name) == FirstNamed(roles, name)
    decreases |roles|
  {
    var after := roles[i := row];
    var n := |roles| - 1;
    if i < n {
      assert after[..n] == roles[..n][i := row];
      UpdateKeepsNames(roles[..n], i, row, name);
    } else {
      assert after[..n] == roles[..n];
    }
  }

  lemma AppendKeepsNames(roles: seq<Role>, row: Role, name: string)
    ensures CountNamed(roles + [row], name) == CountNamed(roles, name) + (if row.name == name then 1 else 0)
    ensures CountNamed(roles, name) > 0 ==> FirstNamed(roles + [row], name) == FirstNamed(roles, name)
  {
    assert (roles + [row])[..|roles|] == roles;
  }

  /** A role block only touches rows of its own name. */
  lemma AddRoleFrames(roles: seq<Role>, perms: map<string, Permission>, d: RoleDef, name: string)
    requires name != d.name
    ensures SameNamed(roles, AddRole(roles, perms, d).1, name)
  {
    var n := CountNamed(roles, d.name);
    if n <= 1 {
      var rows := if n == 0 then roles + [Role(d.name, d.description, {})] else roles;
      if n == 0 {
        AppendFrames(roles, Role(d.name, d.description, {}), name);
      }
      assert SameNamed(roles, rows, name);
      var i := FirstNamed(rows, d.name);
      if AbsentIndex(d.codes, perms) == |d.codes| {
        if n == 0 {
          AppendKeepsNames(roles, Role(d.name, d.description, {}), d.name);
        }
        var row := rows[i].(permissions := rows[i].permissions + PermsOf(d.codes, perms));
        assert AddRole(roles, perms, d).1 == rows[i := row];
        UpdateFrames(rows, i, row, name);
        SameNamedTrans(roles, rows, rows[i := row], name);
      }
    }
  }

  lemma AppendFrames(roles: seq<Role>, row: Role, name: string)
    requires row.name != name
    ensures SameNamed(roles, roles + [row], name)
  {
    AppendKeepsNames(roles, row, name);
  }

  lemma UpdateFrames(rows: seq<Role>, i: nat, row: Role, name: string)
    requires i < |rows| && row.name == rows[i].name && row.name != name
    ensures SameNamed(rows, rows[i := row], name)
  {
    UpdateKeepsNames(rows, i, row, name);
  }

  lemma SameNamedTrans(a: seq<Role>, b: seq<Role>, c: seq<Role>, name: string)
    requires SameNamed(a, b, name) && SameNamed(b, c, name)
    ensures SameNamed(a, c, name)
  {
  }

  /** A successful block leaves its role settled. */
  lemma AddRoleSettles(roles: seq<Role>, perms: map<string, Permission>, d: RoleDef)
    requires AddRole(roles, perms, d).0.Ok?
    ensures Settled(AddRole(roles, perms, d).1, perms, d)
  {
    var n := CountNamed(roles, d.name);
    var rows := if n == 0 then roles + [Role(d.name, d.description, {})] else roles;
    if n == 0 {
      AppendKeepsNames(roles, Role(d.name, d.description, {}), d.name);
    }
    var i := FirstNamed(rows, d.name);
    var row := rows[i].(permissions := rows[i].permissions + PermsOf(d.codes, perms));
    UpdateKeepsNames(rows, i, row, d.name);
  }

  /** On a settled role a block changes nothing. */
  lemma SettledAddRoleIsNoOp(roles: seq<Role>, perms: map<string, Permission>, d: RoleDef)
    requires Settled(roles, perms, d)
    ensures AddRole(roles, perms, d) == (Ok(()), roles)
  {
    var i := FirstNamed(roles, d.name);
    assert CountNamed(roles, d.name) == 1;
    var row := roles[i].(permissions := roles[i].permissions + PermsOf(d.codes, perms));
    assert row == roles[i];
    assert roles[i := row] == roles;
    assert AddRole(roles, perms, d).1 == roles[i := row];
  }

  lemma SettledFrames(before: seq<Role>, after: seq<Role>, perms: map<string, Permission>, d: RoleDef)
    requires Settled(before, perms, d) && SameNamed(before, after, d.name)
    ensures Settled(after, perms, d)
  {
  }

  /** The three blocks can only fail on their `get()` once the codes are
      all available, and then they change nothing. */
  predicate CodesAvailable(perms: map<string, Permission>) {
    && AbsentIndex(AdminCodes, perms) == |AdminCodes|
    && AbsentIndex(StudentCodes, perms) == |StudentCodes|
    && AbsentIndex(CompanyCodes, perms) == |CompanyCodes|
  }

  lemma FailedBlockChangesNothing(roles: seq<Role>, perms: map<string, Permission>, d: RoleDef)
    requires AbsentIndex(d.codes, perms) == |d.codes|
    requires AddRole(roles, perms, d).0.Raised?
    ensures AddRole(roles, perms, d).1 == roles && CountNamed(roles, d.name) > 1
  {
  }

  /** `create_roles` run a second time with the same map repeats the first
      run's outcome and changes nothing more. */
  lemma CreateRolesTwice(roles: seq<Role>, perms: map<string, Permission>)
    requires CodesAvailable(perms)
    ensures var (r, after) := CreateRolesSpec(roles, perms);
            CreateRolesSpec(after, perms) == (r, after)
  {
    var (ra, a) := AddRole(roles, perms, AdminRole);
    if ra.Raised? {
      FailedBlockChangesNothing(roles, perms, AdminRole);
      return;
    }
    AddRoleSettles(roles, perms, AdminRole);
    SettledAddRoleIsNoOp(a, perms, AdminRole);
    var (rs, b) := AddRole(a, perms, StudentRole);
    if rs.Raised? {
      FailedBlockChangesNothing(a, perms, StudentRole);
      return;
    }
    AddRoleSettles(a, perms, StudentRole);
    AddRoleFrames(a, perms, StudentRole, AdminRole.name);
    SettledFrames(a, b, perms, AdminRole);
    SettledAddRoleIsNoOp(b, perms, AdminRole);
    SettledAddRoleIsNoOp(b, perms, StudentRole);
    var (rc, c) := AddRole(b, perms, CompanyRole);
    if rc.Raised? {
      FailedBlockChangesNothing(b, perms, CompanyRole);
      return;
    }
    AddRoleSettles(b, perms, CompanyRole);
    AddRoleFrames(b, perms, CompanyRole, AdminRole.name);
    AddRoleFrames(b, perms, CompanyRole, StudentRole.name);
    SettledFrames(b, c, perms, AdminRole);
    SettledFrames(b, c, perms, StudentRole);
    SettledAddRoleIsNoOp(c, perms, AdminRole);
    SettledAddRoleIsNoOp(c, perms, StudentRole);
    SettledAddRoleIsNoOp(c, perms, CompanyRole);
  }

  lemma {:induction false} AbsentIndexAllIn(codes: seq<string>, perms: map<string, Permission>)
    requires forall j :: 0 <= j < |codes| ==> codes[j] in perms
    ensures AbsentIndex(codes, perms) == |codes|
    decreases |codes|
  {
    if codes != [] {
      AbsentIndexAllIn(codes[1..], perms);
    }
  }

  /** The map `create_permissions` returns covers every role block. */
  lemma CreatedCoversRoles(table: map<string, Permission>)
    ensures CodesAvailable(Restrict(Seed(table, AllPermissions), Codenames(AllPermissions)))
  {
    CreatedHoldsListedCodenames(table, AllPermissions);
    RoleCodesAreListed();
    var created := Restrict(Seed(table, AllPermissions), Codenames(AllPermissions));
    AbsentIndexAllIn(AdminCodes, created);
    AbsentIndexAllIn(StudentCodes, created);
    AbsentIndexAllIn(CompanyCodes, created);
  }

  /** Running the whole script twice leaves the same tables, and has the
      same outcome, as running it once. */
  lemma RunScriptTwice(s: Store)
    ensures RunScript(RunScript(s).1) == RunScript(s)
  {
    var table := Seed(s.permissions, AllPermissions);
    SeedIdempotent(s.permissions, AllPermissions);
    CreatedCoversRoles(s.permissions);
    CreateRolesTwice(s.roles, Restrict(table, Codenames(AllPermissions)));
  }

  /** The role row named `d.name` is unique and lists every code of `d`. */
  predicate RoleHolds(roles: seq<Role>, d: RoleDef) {
    && CountNamed(roles, d.name) == 1
    && forall j :: 0 <= j < |d.codes| ==> d.codes[j] in GetPermission(roles[FirstNamed(roles, d.name)])
  }

  lemma SettledRoleHolds(roles: seq<Role>, perms: map<string, Permission>, d: RoleDef)
    requires KeyedByCodename(perms)
    requires Settled(roles, perms, d)
    ensures RoleHolds(roles, d)
  {
    var row := roles[FirstNamed(roles, d.name)];
    forall j | 0 <= j < |d.codes| ensures d.codes[j] in GetPermission(row) {
      assert perms[d.codes[j]] in PermsOf(d.codes, perms);
    }
  }

  /** The script fails exactly when one of the three role names already
      has several rows, and then with Django's `MultipleObjectsReturned`
      message for the first such name. */
  lemma {:induction false} ScriptFailsExactlyOnDuplicateRoleNames(s: Store)
    ensures RunScript(s).0.Raised? <==>
              CountNamed(s.roles, "Admin") > 1 || CountNamed(s.roles, "Student") > 1
              || CountNamed(s.roles, "Company") > 1
    ensures RunScript(s).0.Raised? ==>
              RunScript(s).0.message == MultipleReturned(
                if CountNamed(s.roles, "Admin") > 1 then CountNamed(s.roles, "Admin")
                else if CountNamed(s.roles, "Student") > 1 then CountNamed(s.roles, "Student")
                else CountNamed(s.roles, "Company"))
  {
    var perms := Restrict(Seed(s.permissions, AllPermissions), Codenames(AllPermissions));
    CreatedCoversRoles(s.permissions);
    var (ra, a) := AddRole(s.roles, perms, AdminRole);
    if ra.Ok? {
      AddRoleFrames(s.roles, perms, AdminRole, "Student");
      AddRoleFrames(s.roles, perms, AdminRole, "Company");
      var (rs, b) := AddRole(a, perms, StudentRole);
      if rs.Ok? {
        AddRoleFrames(a, perms, StudentRole, "Company");
      }
    }
  }

  /** After a successful run each of the three roles has exactly one row,
      and that row grants every permission its block adds. */
  lemma ScriptGrantsRolePermissions(s: Store)
    requires KeyedByCodename(s.permissions)
    requires RunScript(s).0.Ok?
    ensures RoleHolds(RunScript(s).1.roles, AdminRole)
    ensures RoleHolds(RunScript(s).1.roles, StudentRole)
    ensures RoleHolds(RunScript(s).1.roles, CompanyRole)
  {
    var perms := Restrict(Seed(s.permissions, AllPermissions), Codenames(AllPermissions));
    SeedKeepsRows(s.permissions, AllPermissions);
    assert KeyedByCodename(perms);
    var (ra, a) := AddRole(s.roles, perms, AdminRole);
    AddRoleSettles(s.roles, perms, AdminRole);
    var (rs, b) := AddRole(a, perms, StudentRole);
    AddRoleSettles(a, perms, StudentRole);
    AddRoleFrames(a, perms, StudentRole, AdminRole.name);
    SettledFrames(a, b, perms, AdminRole);
    var (rc, c) := AddRole(b, perms, CompanyRole);
    AddRoleSettles(b, perms, CompanyRole);
    AddRoleFrames(b, perms, CompanyRole, AdminRole.name);
    AddRoleFrames(b, perms, CompanyRole, StudentRole.name);
    SettledFrames(b, c, perms, AdminRole);
    SettledFrames(b, c, perms, StudentRole);
    SettledRoleHolds(c, perms, AdminRole);
    SettledRoleHolds(c, perms, StudentRole);
    SettledRoleHolds(c, perms, CompanyRole);
  }

  /** A user whose role is a held row has every code of its block. */
  lemma HeldRoleGrants(roles: seq<Role>, d: RoleDef, user: User, code: string)
    requires RoleHolds(roles, d)
    requires user.role == Some(roles[FirstNamed(roles, d.name)])
    requires code in d.codes
    ensures HasPerm(user, code)
  {
    var j :| 0 <= j < |d.codes| && d.codes[j] == code;
    assert code in GetPermission(user.role.value);
  }

  /** A user whose role is the Company row may list internship
      applications, as may one whose role is the Admin row, once both rows
      hold their blocks. */
  lemma HeldRolesMayListApplications(roles: seq<Role>, user: User)
    requires RoleHolds(roles, AdminRole) && RoleHolds(roles, CompanyRole)
    requires user.role == Some(roles[FirstNamed(roles, "Company")])
             || user.role == Some(roles[FirstNamed(roles, "Admin")])
    ensures HasPerm(user, "internshipManage.InternshipApplicationList")
  {
    ApplicationListSharedByAdminAndCompany();
    if user.role == Some(roles[FirstNamed(roles, "Company")]) {
      HeldRoleGrants(roles, CompanyRole, user, "internshipManage.InternshipApplicationList");
    } else {
      HeldRoleGrants(roles, AdminRole, user, "internshipManage.InternshipApplicationList");
    }
  }

  /** The `CustomPermission` and `CustomRole` tables, which the script
      updates in place. */
  class Database {
    var permissions: map<string, Permission>
    var roles: seq<Role>

    /** `codename` is unique, so the permission table is keyed by it. */
    ghost predicate Valid()
      reads this
    {
      KeyedByCodename(permissions)
    }

    function Contents(): Store
      reads this
    {
      Store(permissions, roles)
    }

    constructor (permissions: map<string, Permission>, roles: seq<Role>)
      requires KeyedByCodename(permissions)
      ensures Valid()
      ensures this.permissions == permissions && this.roles == roles
    {
      this.permissions := permissions;
      this.roles := roles;
    }

    /** `create_permissions()`: get-or-create every listed definition in
        turn, collecting the row for each codename. */
    method CreatePermissions() returns (created: map<string, Permission>)
      modifies this`permissions
      ensures permissions == Seed(old(permissions), AllPermissions)
      ensures created == Restrict(permissions, Codenames(AllPermissions))
      ensures old(Valid()) ==> Valid()
    {
      created := GetOrCreateEach(AllPermissions);
    }

    /** The loop of `create_permissions` over the definitions `ps`. */
    method GetOrCreateEach(ps: seq<Permission>) returns (created: map<string, Permission>)
      modifies this`permissions
      ensures permissions == Seed(old(permissions), ps)
      ensures created == Restrict(permissions, Codenames(ps))
      ensures old(Valid()) ==> Valid()
    {
      created := map[];
      ghost var start := permissions;
      for i := 0 to |ps|
        invariant permissions == Seed(start, ps[..i])
        invariant created.Keys == Codenames(ps[..i])
        invariant forall c :: c in created ==> c in permissions && created[c] == permissions[c]
      {
        var perm := ps[i];
        if perm.codename !in permissions {
          permissions := permissions[perm.codename := perm];
        }
        created := created[perm.codename := permissions[perm.codename]];
        SeedStep(start, ps, i);
      }
      assert ps[..|ps|] == ps;
      RestrictAgrees(permissions, created, Codenames(ps));
      if KeyedByCodename(start) {
        SeedKeepsRows(start, ps);
      }
    }

    /** One role block of `create_roles`. The arguments of
        `permissions.add(...)` are looked up one by one before anything is
        added. */
    method AddRoleDef(perms: map<string, Permission>, d: RoleDef) returns (r: Outcome<()>)
      modifies this`roles
      ensures (r, roles) == AddRole(old(roles), perms, d)
    {
      var n := CountNamed(roles, d.name);
      if n > 1 {
        return Raised(MultipleReturned(n));
      }
      if n == 0 {
        roles := roles + [Role(d.name, d.description, {})];
      }
      var i := FirstNamed(roles, d.name);
      var added: set<Permission> := {};
      for j := 0 to |d.codes|
        invariant forall k :: 0 <= k < j ==> d.codes[k] in perms
        invariant added == set k | 0 <= k < j :: perms[d.codes[k]]
      {
        if d.codes[j] !in perms {
          return Raised(KeyErrorText(d.codes[j]));
        }
        added := added + {perms[d.codes[j]]};
      }
      roles := roles[i := roles[i].(permissions := roles[i].permissions + added)];
      r := Ok(());
    }

    /** `create_roles(permissions)`. */
    method CreateRoles(perms: map<string, Permission>) returns (r: Outcome<()>)
      modifies this`roles
      ensures (r, roles) == CreateRolesSpec(old(roles), perms)
    {
      r := AddRoleDef(perms, AdminRole);
      if r.Raised? { return; }
      r := AddRoleDef(perms, StudentRole);
      if r.Raised? { return; }
      r := AddRoleDef(perms, CompanyRole);
    }

    /** The script's `__main__` block. */
    method Run() returns (r: Outcome<()>)
      modifies this
      ensures (r, Contents()) == RunScript(old(Contents()))
      ensures old(Valid()) ==> Valid()
    {
      var created := CreatePermissions();
      r := CreateRoles(created);
    }
  }
}

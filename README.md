# IFS authentication and authorization core, in Dafny

This project models the decision code of the IFS internship-management
backend (Django and GraphQL) and proves properties of it. It covers:

- token revocation in Redis (`TokenBlacklist`);
- the JWT authentication middleware, which decides whether
  `request.user` is a stored user or Anonymous;
- the permission guard and the access- and refresh-token claims;
- role-based permission resolution and the script that seeds
  permissions and roles;
- the login, user-creation and user-listing operations;
- the three input validators and their regular expressions;
- the working-day count;
- the two internship mutations.

One Dafny module stands for each source file. Two small shared modules sit
beside them: `Outcomes` holds `Option` and `Outcome` (a value, or a raised
exception with its message), and `Strings` models the Python string
operations the core uses (`str.split()`, `str.lower()`, `str(int)`).

Code that changes state is modelled as imperative Dafny. Each of these is a
class whose fields are the tables it updates:

- `Blacklist.TokenBlacklist`: the Redis store;
- `Middleware.JWTAuthenticationMiddleware`, which updates
  `Middleware.Request.user`;
- `Models.UserManager`: the user table;
- `CreateRoles.Database`: the permission and role tables;
- `InternshipSchema.InternshipTables`: the internship and diary tables.

Each method is proved against a specification function of the old state.
Properties are proved as lemmas about that function. Decision code with no
state is modelled as functions, for example the guard, the token claims,
`has_perm`, the validators, `AuthMutation` and `resolve_allUsers`.

Several things the core depends on become parameters:

- the JWT codec (`encode`, and `decode` at an instant), which is abstract;
- SHA-256;
- the clock (`now`, in seconds since the epoch);
- the UTC offset of the server's time zone (`utcOffset`, in seconds), which
  `blacklist_token` depends on;
- Django's `authenticate`, `normalize_email` and `set_password`;
- the wrapped resolver `next`.

Dates are proleptic Gregorian ordinals, as `date.toordinal()` numbers
them, with `weekday = (ordinal + 6) % 7`. Text is taken to be ASCII.

The code has no login rate limiter. `is_blacklisted` is fail-open: a
store failure reads as "not revoked".

The token generators and the guard are duplicated in
`core/userManage/schema.py:14-46`. The two copies of each token generator
are identical (`core/userManage/schema.py:28-46` against
`core/userManage/utils/jwt_payload.py:20-38`), so the same
`JwtPayload.GenerateAccessToken` and `JwtPayload.GenerateRefreshToken`
stand for both. The two guard copies differ, and both are modelled (see
"## Findings").

## Model

| member | source | states |
|---|---|---|
| Models.IsAuthenticated | core/userManage/models.py:88-90 | a `CustomUser` is always authenticated and `AnonymousUser` never is |
| Models.IsAnonymous | core/userManage/models.py:92-94 | `is_anonymous` is the negation of `is_authenticated` |
| Models.GetPermission | core/userManage/models.py:19-20 | the result is exactly the set of codenames of the role's permissions |
| Models.HasPerm | core/userManage/models.py:74-80 | a superuser holds every permission, even with no role; a non-superuser with a role holds a codename iff one of the role's permissions has it; a non-superuser without a role holds nothing |
| Models.HasModulePerms | core/userManage/models.py:82-83 | true iff the user holds every permission string, which is iff the user is a superuser |
| Models.NonSuperuserLacksAPermission | core/userManage/models.py:78-80 | a non-superuser lacks at least one permission, one outside its role's finite codename set |
| Models.WithSuperuserDefaults | core/userManage/models.py:38-43 | staff, superuser and active become true unless the caller passed a value, which is kept; the role is passed through |
| Models.CreateUserResult | core/userManage/models.py:26-36 | an empty email is refused first and an empty username second; otherwise the new row has the next key, the normalised email and the hashed password, and it is refused with a unique violation iff another row has its username or email |
| Models.InsertKeepsTableValid | core/userManage/models.py:56-57 | inserting a non-conflicting row under the next key keeps the table keyed by id and keeps usernames and emails unique |
| Models.ConflictsIgnoreOwnRow | core/userManage/models.py:56-57 | re-saving a row with the same key, username and email conflicts exactly when the original insert would have |
| Models.CreatedUserFitsTable | core/userManage/models.py:26-36 | a created row gets the next key, keeps the table valid, carries the given username, normalised email and role, and gets the model defaults (active, not staff, not superuser) for omitted fields |
| Models.UserManager.CreateUser | core/userManage/models.py:26-36 | returns what `CreateUserResult` gives on the old table, writes exactly that row on success and nothing on failure, and keeps the table valid |
| Models.UserManager.CreateSuperuser | core/userManage/models.py:38-43 | is `create_user` with the superuser defaults applied, with the same write behaviour |
| Models.UserManager.Save | core/userManage/schema.py:144-149 | saving an existing row succeeds iff it conflicts with no other row, and only then replaces the row |
| Models.UserManager.Delete | core/userManage/schema.py:155 | removes exactly that row and keeps the table valid |
| JwtPayload.Guard | core/userManage/utils/jwt_payload.py:6-18 | unauthenticated callers get the login error; authenticated callers without the permission get the permission error; anyone else gets exactly the wrapped call's result with unchanged arguments |
| JwtPayload.GuardRejectionIgnoresOperation | core/userManage/utils/jwt_payload.py:12-15 | a rejected call raises and does not depend on the wrapped function at all, so it is never called |
| JwtPayload.GuardAdmits | core/userManage/utils/jwt_payload.py:14-16 | a guarded call either raises or is the wrapped call; superusers, and holders of a role permission with that codename, always reach it |
| JwtPayload.IssuePayload | core/userManage/utils/jwt_payload.py:21-27 | a user without a role raises reading `role.name`; otherwise the claims name the user id and role name, with `iat` the second of issue and `exp` `iat` plus the lifetime |
| JwtPayload.AccessPayload | core/userManage/utils/jwt_payload.py:20-28 | exists iff the user has a role; type 'access', expiring 900 seconds after issue |
| JwtPayload.RefreshPayload | core/userManage/utils/jwt_payload.py:30-38 | exists iff the user has a role; type 'refresh', expiring 604800 seconds (7 days) after issue |
| JwtPayload.AccessAndRefreshDifferOnlyInExpiryAndType | core/userManage/utils/jwt_payload.py:20-38 | issued together, the two payloads share user id, role and `iat`, and differ only in `exp` and `token_type` |
| JwtPayload.GenerateAccessToken | core/userManage/utils/jwt_payload.py:20-28 | raises iff the user has no role; otherwise it is the encoding of the access payload |
| JwtPayload.GenerateRefreshToken | core/userManage/utils/jwt_payload.py:30-38 | raises iff the user has no role; otherwise it is the encoding of the refresh payload |
| Blacklist.Truncate | core/userManage/utils/blacklist.py:30 | Python `int()` of a float truncates toward zero |
| Blacklist.Admission | core/userManage/utils/blacklist.py:21-45 | an expired token and an invalid token raise their own messages; a missing or zero `exp` and a TTL under one second raise re-wrapped by the generic handler; otherwise the TTL is the whole seconds of `exp` minus `utcnow().timestamp()`, which is the time left plus the server's UTC offset, and at least 1 |
| Blacklist.IntendedAdmission | core/userManage/utils/blacklist.py:29-30 | with the true UTC timestamp the TTL is admitted iff at least one second of the token's life is left, and the entry then lapses in the token's last second |
| Blacklist.BlacklistSpec | core/userManage/utils/blacklist.py:20-46 | succeeds only with True; succeeds iff the token is admitted and the store answers, and then writes exactly one entry, "true" under `blacklist:` plus the digest, for the TTL; every failure raises and writes nothing |
| Blacklist.RevokedUntilEntryExpires | core/userManage/utils/blacklist.py:29-54 | after a revocation the token reads as revoked exactly until the entry expires, a moment no later than `exp` plus the UTC offset and less than one second before it |
| Blacklist.RevokedUntilTokenExpiresOnUtcServer | core/userManage/utils/blacklist.py:29-38 | on a server whose zone is UTC the entry lapses no later than the token's `exp` and less than one second before it |
| Blacklist.EntryOutlivesTokenEastOfUtc | core/userManage/utils/blacklist.py:29-38 | east of Greenwich the token still reads as revoked at its own expiry |
| Blacklist.EntryLapsesBeforeTokenWestOfUtc | core/userManage/utils/blacklist.py:29-54 | west of Greenwich the entry lapses at least the offset before the token's expiry, and from then on the token no longer reads as revoked |
| Blacklist.FreshTokenRefusedWestOfUtc | core/userManage/utils/blacklist.py:29-34 | a decoded token with less life left than one second minus the offset is refused as expired |
| Blacklist.AccessTokenRefusedInUtcMinusSix | core/userManage/utils/blacklist.py:29-34 | a fresh access token with 900 seconds left is refused on a UTC-6 server, while the intended TTL is 900 |
| Blacklist.RevocationTouchesOnlyItsKey | core/userManage/utils/blacklist.py:36-38 | every key other than the token's digest key keeps its entry |
| Blacklist.LogoutRejectsRepeat | core/userManage/utils/blacklist.py:58-59 | with both tokens already revoked, logout raises and writes nothing |
| Blacklist.LogoutRevokesBoth | core/userManage/utils/blacklist.py:56-69 | logout succeeds iff the tokens are not both revoked, both are admitted and the store answers; it then leaves both revoked |
| Blacklist.IsRevoked | core/userManage/utils/blacklist.py:48-54 | the lookup `is_blacklisted` performs: a non-empty, unexpired value under the digest key, and false whenever the store fails; `TokenBlacklist.IsBlacklisted` is proved equal to it |
| Blacklist.LogoutSpec | core/userManage/utils/blacklist.py:56-69 | a success returns True; every failure carries the logout prefix; only the two digest keys can change; with an unreachable store it raises and writes nothing |
| Blacklist.LogoutKeepsAccessEntryWhenRefreshFails | core/userManage/utils/blacklist.py:62-65 | when the access token is revoked and the refresh token then fails, the call raises and the access entry stays (no rollback) |
| Blacklist.TokenBlacklist.constructor | core/userManage/utils/blacklist.py:9-18 | the client starts on the given store, codec, digest and UTC offset |
| Blacklist.TokenBlacklist.BlacklistToken | core/userManage/utils/blacklist.py:20-46 | result and new store are those of `BlacklistSpec` on the old store |
| Blacklist.TokenBlacklist.IsBlacklisted | core/userManage/utils/blacklist.py:48-54 | true iff the store answers and a non-empty, unexpired value sits under the digest key (fail-open on errors) |
| Blacklist.TokenBlacklist.Logout | core/userManage/utils/blacklist.py:56-69 | checks both tokens, then revokes the access token and then the refresh token; result and store are those of the logout specification |
| Strings.Split | core/core/middleware.py:20 | `str.split()`: every part is a non-empty run of non-whitespace; the parts concatenate to the string without whitespace (`Strings.SplitKeepsNonSpace`) |
| Strings.Lower | core/userManage/schema.py:146 | `str.lower()` on ASCII: same length, each character lowered |
| Strings.IntToString | core/internshipManage/schema.py:123 | `str(int)`: a leading `-` exactly for negative numbers, followed by decimal digits only whose value (`Strings.DigitsValue`) is the number's magnitude |
| Strings.NatToString | core/internshipManage/schema.py:123 | `str(n)` for `n >= 0`: non-empty, digits only, no leading zero, and its decimal value is `n` |
| Strings.ZeroPad | core/internshipManage/schema.py:117 | the zero-padded field of `date.isoformat()`: digits only, at least `width` long, exactly `width` when `n` fits, and its decimal value is `n` |
| Strings.LeadingZeroValue | core/internshipManage/schema.py:117 | a leading `0` on a digit string does not change the number it denotes |
| Strings.SplitBlank | core/core/middleware.py:20-21 | a whitespace-only header splits into no parts |
| Strings.SplitTwoWords | core/core/middleware.py:20-21 | two words separated and surrounded by whitespace split into exactly those two parts |
| Middleware.Classify | core/core/middleware.py:15-64 | the exit `resolve` takes, tested in the source's order: empty header, not two words or not "Bearer", decode error, not an access token, falsy user id, unknown user, user without role, attached user; its meaning is stated by `Middleware.AuthenticatesExactly` |
| Middleware.AuthenticatesExactly | core/core/middleware.py:11-66 | a request authenticates iff its header splits into "Bearer" and a token that decodes to an access token whose truthy user id names a stored user with a role; the attached user is that row |
| Middleware.NonAccessTokenNeverAuthenticates | core/core/middleware.py:28-30 | a decoded token whose `token_type` is not 'access' (a refresh token, say) takes the not-access exit in any Bearer header |
| Middleware.UserWithoutRoleStaysAnonymous | core/core/middleware.py:37-64 | a found user whose role is None ends as Anonymous, because the success log reads `user.role.name` |
| Middleware.ActiveFlagIgnored | core/core/middleware.py:37-43 | changing `is_active` never changes whether a request authenticates |
| Middleware.JWTAuthenticationMiddleware.constructor | core/core/middleware.py:8-9 | the header prefix is "Bearer" |
| Middleware.JWTAuthenticationMiddleware.Resolve | core/core/middleware.py:11-66 | `request.user` ends as the branch's identity; `next` is called with the final identity and the original arguments, and its last result is returned; on the three early returns inside the `try`, a raising `next` is called a second time |
| UserSchema.SchemaGuard | core/userManage/schema.py:14-26 | as written: unauthenticated callers get the login error, and every authenticated caller gets the `AttributeError` for `has_permission` |
| UserSchema.SchemaGuardRejectsWhatGuardAdmits | core/userManage/schema.py:19-24 | `CustomUser` has `has_perm` but no `has_permission`; the schema guard always raises, agrees with the utility guard on unauthenticated callers, and rejects callers that guard admits |
| UserSchema.SuperuserIsRejectedBySchemaGuard | core/userManage/schema.py:22 | a superuser calling a succeeding resolver passes the utility guard and is refused by the schema guard |
| UserSchema.Login | core/userManage/schema.py:89-97 | unknown credentials raise the generic error; otherwise it returns the encoded access and refresh payloads for the authenticated user, or raises when that user has no role |
| UserSchema.BearerHeaderSplits | core/core/middleware.py:20-21 | "Bearer " plus a token without whitespace splits into "Bearer" and the token |
| UserSchema.LoginThenAuthenticate | core/userManage/schema.py:89-97 | with a faithful codec, the access token from a login authenticates the logged-in user for 899 seconds after issue, and the refresh token never does |
| UserSchema.AllUsers | core/userManage/schema.py:196-202 | no id selects all users; a truthy id selects exactly that user or raises "User not found" iff absent |
| UserSchema.MissingIndex | core/userManage/schema.py:153-154 | the position of the first required field that is absent or empty in `kwargs`; all before it are present |
| UserSchema.FirstMissing | core/userManage/schema.py:152-156 | none iff every required field is present; otherwise the first field that is not |
| UserSchema.CreateUserOutcome | core/userManage/schema.py:131-186 | the whole mutation on tables: unknown role, then `create_user` with its errors prefixed, then the user-type step; its properties are `UnknownRoleWritesNothing`, `CreateUserKeepsTableValid`, `AdminIsSuperuserAndStaff`, `MissingFieldDeletesUser`, `ProfilesNeverCreated` and `OtherTypeKeepsUserWithoutProfile` |
| UserSchema.ApplyUserType | core/userManage/schema.py:144-184 | the branches on `user_type.lower()`, as written, reading the required fields and profile columns from `**kwargs` |
| UserSchema.IntendedApplyUserType | core/userManage/schema.py:150-181 | corrected: with the required fields read from the named parameters, a student or company giving them all gets its profile built from them, and one missing a field is deleted with that field named |
| UserSchema.IntendedStudentProfileHoldsFields | core/userManage/schema.py:150-166 | a student giving the five required parameters gets a profile holding them under the fix, while the code as written deletes the user and names `first_name` |
| UserSchema.UnknownRoleWritesNothing | core/userManage/schema.py:133-136 | an unknown role id answers with failure and "Role bulunamadi" and leaves every table unchanged |
| UserSchema.CreateUserKeepsTableValid | core/userManage/schema.py:132-186 | every outcome keeps the user table valid; `success` is never true; raised errors carry the "Error creating user: " prefix |
| UserSchema.AdminIsSuperuserAndStaff | core/userManage/schema.py:146-149 | an 'admin' type in any letter case adds one row, a superuser and staff with the requested role and username, and reports success |
| UserSchema.MissingFieldDeletesUser | core/userManage/schema.py:151-173 | a student or company missing a required field is deleted again, naming the first missing field; only the used key remains consumed |
| UserSchema.ProfilesNeverCreated | core/userManage/schema.py:131-173 | since `**kwargs` never holds a named parameter, every accepted student or company is deleted again, with first_name or company_name named, and no profile is created |
| UserSchema.OtherTypeKeepsUserWithoutProfile | core/userManage/schema.py:138-184 | any other user type keeps the new ordinary user, creates no profile and reports success |
| UserSchema.CheckRequired | core/userManage/schema.py:153-156 | the required-field loop returns the first missing field, as `FirstMissing` |
| UserSchema.MissingIndexIsFirst | core/userManage/schema.py:153-156 | a missing field with all earlier ones present is the one the loop stops at |
| UserSchema.CreateUserMutation | core/userManage/schema.py:131-186 | result and tables afterwards are those of the mutation's specification on the old tables, and the user table stays valid |
| UserSchema.UserTypeStep | core/userManage/schema.py:146-184 | the admin, student and company branches after the first save leave the result and the tables as the user-type specification on the tables before creation, and the user table stays valid |
| CreateRoles.Codenames | core/create_roles.py:133-145 | exactly the codenames the definitions list |
| CreateRoles.GetOrCreate | core/create_roles.py:138-144 | adds the codename; an existing row is returned unchanged, a new one is inserted as defined |
| CreateRoles.Seed | core/create_roles.py:137-151 | the permission table after the `get_or_create` loop over the definitions; its properties are the `Seed*` lemmas below |
| CreateRoles.SeedKeys | core/create_roles.py:137-151 | seeding adds exactly the listed codenames to the table's keys |
| CreateRoles.SeedKeepsRows | core/create_roles.py:138-144 | seeding never modifies an existing permission and keeps the table keyed by codename |
| CreateRoles.SeedFirstWins | core/create_roles.py:137-145 | for a new codename the first definition listed is stored |
| CreateRoles.SeedAbsent | core/create_roles.py:137-145 | a codename neither in the table nor listed stays absent |
| CreateRoles.SeedCovered | core/create_roles.py:137-145 | seeding a table that holds every listed codename changes nothing |
| CreateRoles.SeedIdempotent | core/create_roles.py:137-151 | seeding twice is seeding once |
| CreateRoles.RoleCodesMatchDefinitions | core/create_roles.py:161-203 | each role block adds exactly the codenames of its own definition list, in order |
| CreateRoles.TwentyOneDistinctCodenames | core/create_roles.py:11-133 | 22 definitions are listed, with 21 distinct codenames |
| CreateRoles.ApplicationListListedTwice | core/create_roles.py:47-51 | the duplicated codename sits at positions 7 and 21, and nowhere earlier than 7 |
| CreateRoles.DuplicateKeepsFirstDefinition | core/create_roles.py:125-129 | on a table without it, the duplicated codename keeps the admin definition's name and description, not the company one |
| CreateRoles.FirstNamed | core/create_roles.py:155-158 | the first role row with the name, or none exactly when no row has it |
| CreateRoles.AbsentIndex | core/create_roles.py:161-171 | the first added codename missing from the map, with all before it present |
| CreateRoles.CreatedHoldsListedCodenames | core/create_roles.py:145-151 | the returned map has exactly the listed codenames as keys, each mapped to its seeded row |
| CreateRoles.RoleCodesAreListed | core/create_roles.py:161-203 | every codename a role block adds is listed, so no lookup raises `KeyError` |
| CreateRoles.ApplicationListSharedByAdminAndCompany | core/create_roles.py:169-203 | the application-list codename belongs to Admin and Company but not Student; the blocks add 9, 8 and 5 codenames |
| CreateRoles.AddRole | core/create_roles.py:155-171 | one role block: more than one row of the name raises `MultipleObjectsReturned` unchanged; otherwise the row is created if absent, then the first code missing from the map raises `KeyError`, or every listed permission is added; its properties are `AddRoleFrames`, `AddRoleSettles`, `SettledAddRoleIsNoOp` and `FailedBlockChangesNothing` |
| CreateRoles.CreateRolesSpec | core/create_roles.py:153-204 | the Admin, Student and Company blocks in that order, stopping at the first that raises; its properties are `CreateRolesTwice` and `CreatedCoversRoles` |
| CreateRoles.RunScript | core/create_roles.py:206-211 | `create_permissions()` and then `create_roles` on the returned map; its properties are `RunScriptTwice`, `ScriptFailsExactlyOnDuplicateRoleNames` and `ScriptGrantsRolePermissions` |
| CreateRoles.AddRoleFrames | core/create_roles.py:155-203 | a role block leaves the rows of every other name as they were |
| CreateRoles.AddRoleSettles | core/create_roles.py:155-171 | a successful block leaves exactly one row of its name holding all its codenames |
| CreateRoles.SettledAddRoleIsNoOp | core/create_roles.py:155-171 | on a settled role a block succeeds and changes nothing, since get-or-create finds the row and add only adds |
| CreateRoles.FailedBlockChangesNothing | core/create_roles.py:155-158 | once all codenames are available, a block fails only when several rows have its name, and then writes nothing |
| CreateRoles.CreateRolesTwice | core/create_roles.py:153-204 | running `create_roles` again on its own result repeats the outcome and changes nothing |
| CreateRoles.CreatedCoversRoles | core/create_roles.py:145-203 | the map `create_permissions` returns has every codename the role blocks add |
| CreateRoles.RunScriptTwice | core/create_roles.py:206-211 | running the script twice gives the outcome and tables of running it once |
| CreateRoles.ScriptFailsExactlyOnDuplicateRoleNames | core/create_roles.py:153-204 | the script raises iff one of Admin, Student and Company already has several rows, with Django's `MultipleObjectsReturned` message for the first such name |
| CreateRoles.ScriptGrantsRolePermissions | core/create_roles.py:153-204 | after a successful run each of the three roles has exactly one row, which grants every codename of its block |
| CreateRoles.HeldRoleGrants | core/userManage/models.py:74-80 | a user holding a seeded role's row has every permission of its block |
| CreateRoles.HeldRolesMayListApplications | core/create_roles.py:169-203 | users with the Admin or the Company role may list internship applications |
| CreateRoles.Database.CreatePermissions | core/create_roles.py:9-151 | the permission table becomes the seeded table and the result is its restriction to the listed codenames |
| CreateRoles.Database.GetOrCreateEach | core/create_roles.py:137-151 | the loop leaves the seeded table and returns the row for each listed codename, keeping the table keyed by codename |
| CreateRoles.Database.AddRoleDef | core/create_roles.py:155-171 | result and role rows are those of one role block on the old rows |
| CreateRoles.Database.CreateRoles | core/create_roles.py:153-204 | the three blocks in turn, stopping at the first exception, as the roles specification |
| CreateRoles.Database.Run | core/create_roles.py:206-211 | result and both tables are those of the script on the old tables, and the permission table stays keyed by codename |
| Constants.UserTypeNames | core/userManage/utils/constants.py:2-6 | the keys are ADMIN, STUDENT and COMPANY, the values admin, student and company, and each value is the lower-case form of its key |
| Constants.PhonePattern | core/userManage/utils/constants.py:22 | PHONE as a backtracking match over the whole string; what it accepts is stated by `PhonePatternExactly` |
| Constants.EmailPattern | core/userManage/utils/constants.py:23 | EMAIL as a backtracking match over the whole string; what it accepts is stated by `EmailPatternExactly` |
| Constants.PasswordPattern | core/userManage/utils/constants.py:24 | PASSWORD as its two look-aheads and the `[A-Za-z\d]{8,}` run; what it accepts is stated by `PasswordPatternExactly` |
| Constants.DigitRunExactly | core/userManage/utils/constants.py:22 | `\d{lo,hi}` over a whole string accepts exactly the digit strings of that length range |
| Constants.PhonePatternExactly | core/userManage/utils/constants.py:22 | PHONE accepts exactly an optional `+` followed by 9 to 15 digits, or 16 digits starting with 1 |
| Constants.PhoneRejectsPunctuation | core/userManage/utils/constants.py:22 | a space, dash or parenthesis anywhere makes PHONE fail |
| Constants.LetterRunExactly | core/userManage/utils/constants.py:23 | `[a-zA-Z]{n,}` over a whole string accepts exactly letter strings of length at least n |
| Constants.EmailPatternExactly | core/userManage/utils/constants.py:23 | EMAIL accepts exactly one `@`, a non-empty local part over `[A-Za-z0-9._%+-]`, and a domain over `[A-Za-z0-9.-]` ending in a dot and two or more letters with at least one character before that dot |
| Constants.AlnumRunExactly | core/userManage/utils/constants.py:24 | `[A-Za-z\d]{n,}` over a whole string accepts exactly letter-and-digit strings of length at least n |
| Constants.LetterAheadExactly | core/userManage/utils/constants.py:24 | on text without line breaks, `(?=.*[A-Za-z])` holds iff some character is a letter |
| Constants.DigitAheadExactly | core/userManage/utils/constants.py:24 | on text without line breaks, `(?=.*\d)` holds iff some character is a digit |
| Constants.PasswordPatternExactly | core/userManage/utils/constants.py:24 | PASSWORD accepts exactly strings of 8 or more letters and digits with at least one letter and at least one digit |
| Validators.Apply | core/userManage/utils/validators.py:7-11 | a validator returns normally iff the pattern was found, and raises its own message otherwise |
| Validators.EmailSearchExactly | core/userManage/utils/validators.py:6-11 | the validator's search accepts exactly the email shape, ignoring one final line break |
| Validators.PhoneSearchExactly | core/userManage/utils/validators.py:13-19 | the validator's search accepts exactly the phone shape, ignoring one final line break |
| Validators.PasswordSearchExactly | core/userManage/utils/validators.py:21-27 | the validator's search accepts exactly the password shape, ignoring one final line break |
| Validators.ValidateEmail | core/userManage/utils/validators.py:6-11 | returns normally iff the address has the email shape (one final line break aside); otherwise raises the email message |
| Validators.ValidatePhone | core/userManage/utils/validators.py:13-19 | returns normally iff the number has the phone shape; otherwise raises the phone message |
| Validators.ValidatePassword | core/userManage/utils/validators.py:21-27 | returns normally iff the password has the password shape, and then it is at least 8 characters long; otherwise raises the "en az 8 karakter" message |
| Validators.PasswordRejectsPunctuation | core/userManage/utils/validators.py:21-27 | a password with a space or punctuation mark is refused, however strong |
| Validators.PhoneRejectsSeparators | core/userManage/utils/validators.py:13-19 | a phone number with a space, dash or parenthesis is refused |
| Validators.AcceptedEmailHasOneAt | core/userManage/utils/validators.py:6-11 | an accepted address has exactly one `@`, and it is not the first character |
| WorkingDays.ToOrdinal | core/internshipManage/utils/utils.py:26-30 | every valid date gets an ordinal between 1 and that of `date.max`; 0001-01-01 is day 1 and 9999-12-31 is the last |
| WorkingDays.Weekday | core/internshipManage/utils/utils.py:28 | Python's `weekday()` is between 0 (Monday) and 6 (Sunday) |
| WorkingDays.PublicHolidayDates | core/internshipManage/utils/utils.py:5-23 | the holiday ordinals are those of the seventeen 2025 dates listed |
| WorkingDays.IsWorkingDay | core/internshipManage/utils/utils.py:28 | a day is counted iff it is Monday to Friday and not a listed holiday (`SingleDay`, `NonWorkingDayNotCounted`) |
| WorkingDays.TotalWorkingDays | core/internshipManage/utils/utils.py:24-32 | raises the date overflow exactly when a non-empty range ends at `date.max`; otherwise returns the number of working days in the inclusive range |
| WorkingDays.WorkingDays | core/internshipManage/utils/utils.py:24-32 | the count is 0 for an empty range and never exceeds the number of days in the inclusive range |
| WorkingDays.CalculateTotalWorkingDays | core/internshipManage/utils/utils.py:3-32 | the loop returns the working-day count of the inclusive range, or raises the date overflow when the range ends at `date.max` |
| WorkingDays.WorkingDaysSplit | core/internshipManage/utils/utils.py:26-31 | the count from a to c is the count from a to b plus the count from b+1 to c |
| WorkingDays.WorkingDaysMonotone | core/internshipManage/utils/utils.py:26-31 | moving the end date later never lowers the count |
| WorkingDays.SingleDay | core/internshipManage/utils/utils.py:26-30 | a one-day range counts 1 iff that day is Monday to Friday and not a holiday |
| WorkingDays.NonWorkingDayNotCounted | core/internshipManage/utils/utils.py:28 | a weekend day or holiday in the range adds nothing to the count |
| WorkingDays.WorkingDaysCountsSet | core/internshipManage/utils/utils.py:24-32 | the count is the size of the set of working days in the range |
| WorkingDays.IsoFormat | core/internshipManage/schema.py:117 | `str(date)` is `YYYY-MM-DD`: ten characters, dashes at positions 4 and 7, digits elsewhere, and the three digit fields denote the date's year, month and day |
| InternshipSchema.DiaryOutcome | core/internshipManage/schema.py:110-143 | the answer and diary table of the diary mutation, with the checks in the source's order; its properties are `DiaryAcceptedExactly`, `DiaryRejectionOrder`, `OtherInternshipsIrrelevant`, `DiaryInsertKeepsUnique` and `ZeroHoursAccepted` |
| InternshipSchema.DiariesOf | core/internshipManage/schema.py:114 | exactly the diaries of one internship |
| InternshipSchema.DiaryAcceptedExactly | core/internshipManage/schema.py:110-143 | a diary is created iff the internship exists, its date and day number are unused by that internship, and its hours are not negative; it then appends exactly its row, and a rejection leaves the table unchanged |
| InternshipSchema.DiaryRejectionOrder | core/internshipManage/schema.py:112-130 | each rejection names the first failed check, in the order internship, date, day number, hours |
| InternshipSchema.OtherInternshipsIrrelevant | core/internshipManage/schema.py:114-124 | the answer depends only on the internship's own diaries |
| InternshipSchema.TakenInOwnDiaries | core/internshipManage/schema.py:114-124 | a date or day number is taken iff one of the internship's own diaries has it |
| InternshipSchema.DateTakenInOwn | core/internshipManage/schema.py:114 | a date is taken for an internship iff one of its own diaries has that date |
| InternshipSchema.DayTakenInOwn | core/internshipManage/schema.py:120 | a day number is taken for an internship iff one of its own diaries has that day number |
| InternshipSchema.DiaryInsertKeepsUnique | core/internshipManage/schema.py:114-139 | an insert keeps every internship's dates and day numbers unique |
| InternshipSchema.ZeroHoursAccepted | core/internshipManage/schema.py:126-130 | zero hours on an unused date and day number is accepted |
| InternshipSchema.ApplicationOutcome | core/internshipManage/schema.py:72-96 | an application never succeeds |
| InternshipSchema.StudentReportedBeforeCompany | core/internshipManage/schema.py:74-96 | a missing student is reported whether or not the company exists; with both present the answer is the date overflow or the `TypeError` for `total_working_days` |
| InternshipSchema.InternshipTables.CreateInternshipDiary | core/internshipManage/schema.py:110-143 | answer and diary table are those of the diary specification, and per-internship uniqueness is preserved |
| InternshipSchema.InternshipTables.CreateInternshipApplication | core/internshipManage/schema.py:72-96 | the answer is that of the application specification, computed with the working-day loop, and nothing is written |

## Left out

- JWT signing and verification: HS256 is not modelled. `encode` and
  `decode` are parameters. `UserSchema.LoginThenAuthenticate` assumes that
  `decode` returns what `encode` produced until `exp`, and that tokens
  contain no whitespace.
- SHA-256 is the `digest` parameter. A collision between two tokens'
  digests is allowed by the model, and the lemmas hold all the same.
- `datetime.utcnow`: the clock is the parameter `now`.
  - `generate_access_token` and `generate_refresh_token` read the clock
    twice, once for `exp` and once for `iat`. The model takes one instant
    for both.
  - PyJWT's truncation of datetimes to whole seconds is modelled as the
    floor of `now`.
  - `datetime.utcnow().timestamp()` in `blacklist_token` reads the naive
    UTC time as local time. The zone's offset is the parameter
    `utcOffset`, one value for the whole call; the settings that choose
    the zone are not part of this model, and daylight-saving changes
    during a call are not modelled.
- Blacklist.LogoutSpec: one instant `now` stands for every clock read of
  `logout`. The source reads the clock in each of the two `jwt.decode`
  calls, in each of the two `utcnow()` calls, and as the Redis TTL clock in
  each of the two `get` calls; the model does not capture a token expiring,
  or an entry lapsing, between those reads.
- Redis:
  - The connection made in `TokenBlacklist.__init__`
    (`core/userManage/utils/blacklist.py:10-18`) and its error message are
    not modelled.
  - An unreachable store is a field holding the error every command
    raises. The field stays the same for the whole call.
  - TTL eviction is an expiry instant compared with `now`.
  - Several processes sharing the store, and other concurrency, are out
    of scope.
- Unreachable code is left out of the method bodies:
  - the `return False` lines after each `raise` in `blacklist_token`;
  - the `if not self.blacklist_token(...)` raises in `logout`, because
    `blacklist_token` never returns False, as `Blacklist.BlacklistSpec`
    states;
  - the `internship.save()` success path of `CreateInternshipApplication`,
    because the constructor call before it always raises.
- Logging: the `log_info` and `log_error` calls of the middleware are not
  modelled, except for the `user.role.name` read. A logging call that
  raised in turn is not modelled.
- The resolver `next` is a pure function of the identity it sees and of
  its arguments. It either returns or raises, and its side effects are not
  modelled. `root`, `info` and `**args` are one opaque argument.
- Django internals are abstract or become tables:
  - the ORM tables are maps and sequences;
  - `authenticate`, `normalize_email` and `set_password` are parameters;
  - a duplicate username, email or student number gives one generic
    unique-violation message, whose text belongs to the database backend;
  - column lengths and other database constraints are not modelled;
  - `get_by_natural_key` is not part of this model.
- UserSchema.CreateUserMutation: the profile field values are modelled as
  given. The Student and Company column limits, the `date_of_birth`
  conversion and the `profile_picture` argument are not modelled.
- UserSchema.AllUsers: the id is taken as an integer. The GraphQL filter
  and pagination of `DjangoFilterConnectionField` are not modelled, and
  the result is the set of selected users.
- InternshipSchema.InternshipTables.CreateInternshipDiary: `hours_worked`
  is modelled as a real. The `DecimalField(max_digits=5, decimal_places=2)`
  limit, which makes `save` raise for larger or finer values, is not
  modelled.
- Ids that do not parse as integers are not modelled. The ORM would raise
  on them in the lookups of either internship mutation.
- UserSchema.CreateUserOutcome: `role_id` is a `graphene.ID` and is taken
  as an integer. A non-numeric id makes `CustomRole.objects.get` raise
  `ValueError`, which the outer handler turns into "Error creating user:
  ..."; that path is not modelled.
- `ERROR_MESSAGES` (`core/userManage/utils/constants.py:9-18`) is the
  constant `Constants.ErrorMessages`. No code of the core reads it, so no
  property is stated about it.
- InternshipSchema.ApplicationOutcome: the `TypeError` text follows
  Django 4.1 and later, `Internship() got unexpected keyword arguments:
  'total_working_days'`.
- The `print` calls, `django.setup()` and the settings environment of
  `core/create_roles.py` are not modelled.
- A role row's permission relation has no order, so it is a set.
- Regular-expression semantics:
  - Text is taken to be ASCII. Python's `\d` also matches non-ASCII
    decimal digits, and the model's digit class does not.
  - The one `re` quirk that ASCII input still shows is modelled: `$`
    matches before a final line break, so `RegexValidator`'s search also
    accepts the pattern followed by one newline.
- Out of scope:
  - GraphQL node and type classes and the schema wiring;
  - `core/userManage/jwt_payload.py`, mail contexts, logging and
    monitoring utilities, Azure profile-picture upload, migrations, and
    the declarative models of `core/internshipManage/models.py`, whose
    status values appear only as data.
- The system has no login rate limiter, no refresh mutation, and no caller
  of `TokenBlacklist.logout`. None of these is modelled.

## Findings

| source | as written | input that shows it | evidently intended | confidence | as-written member | corrected member |
|---|---|---|---|---|---|---|
| core/userManage/schema.py:22 | the schema's permission guard calls `user.has_permission(...)`, but `CustomUser` (`core/userManage/models.py:74`) defines only `has_perm`, so every authenticated caller gets an `AttributeError` and the wrapped resolver never runs | an authenticated superuser calling any succeeding resolver gets an `AttributeError`, while the utility guard returns the resolver's result (`UserSchema.SuperuserIsRejectedBySchemaGuard`) | call `has_perm`, as the utility copy at `core/userManage/utils/jwt_payload.py:14` does: admit authenticated callers holding the permission | high (not executed) | UserSchema.SchemaGuard | JwtPayload.Guard |
| core/userManage/utils/blacklist.py:29-30 | the TTL subtracts `datetime.utcnow().timestamp()` from the UTC `exp`; `utcnow()` is naive and `.timestamp()` reads it as local time, so the TTL is the time left plus the server zone's UTC offset | on a UTC-6 server a fresh access token with 900 seconds left is refused as expired (`Blacklist.AccessTokenRefusedInUtcMinusSix`); west of UTC every entry lapses before its token expires, east of UTC it outlives it (`Blacklist.EntryLapsesBeforeTokenWestOfUtc`, `Blacklist.EntryOutlivesTokenEastOfUtc`) | subtract the true UTC timestamp, so the TTL is the token's remaining lifetime | medium (not executed; depends on the deployment's time zone) | Blacklist.Admission | Blacklist.IntendedAdmission |
| core/userManage/schema.py:131-171 | `mutate` declares `first_name` ... `address` as named parameters, so they never reach `**kwargs`, and the required-field checks read `kwargs` | a student with all five required fields given is deleted again with "Alan first_name ogrenci tipte zorunludur." (`UserSchema.IntendedStudentProfileHoldsFields`, `UserSchema.ProfilesNeverCreated`); no student or company profile can ever be created | check and copy the named parameters | high (not executed) | UserSchema.ApplyUserType | UserSchema.IntendedApplyUserType |

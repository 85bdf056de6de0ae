/**
  Who may do what, and what it writes: each service of the tables, stated on roles, owners,
  organisations, tokens and times, in every consistent state.
 */
module ServiceOutcomes {
  import opened Wrappers
  import opened Accounts
  import opened Credentials

  // ---------------------------------------------------------------- at most one row

  lemma {:induction false} NoTwoEmails(db: Db, email: Email)
    requires Inv(db)
    ensures !UserByEmail(db, email).SeveralRows?
  {
    forall i, j | 0 <= i < j < |db.users| ensures db.users[i].email != db.users[j].email {
      assert Apart(db.users[i], db.users[j]);
    }
  }

  lemma {:induction false} NoTwoMembers(db: Db, id: UserId, org: OrgId)
    requires Inv(db)
    ensures !OneRow(db.users, (u: User) => u.id == id && u.orgId == Some(org)).SeveralRows?
  {
    forall i, j | 0 <= i < j < |db.users| ensures db.users[i].id != db.users[j].id {
      assert Apart(db.users[i], db.users[j]);
    }
  }

  lemma {:induction false} NoTwoKeys(db: Db, id: KeyId)
    requires Inv(db)
    ensures !KeyById(db, id).SeveralRows?
  {
    hide GoodUsers, GoodKey;
  }

  // ---------------------------------------------------------------- what changes

  ghost predicate HasUser(db: Db, p: User -> bool) {
    exists i :: 0 <= i < |db.users| && p(db.users[i])
  }

  ghost predicate HasKey(db: Db, p: ApiKey -> bool) {
    exists i :: 0 <= i < |db.keys| && p(db.keys[i])
  }

  /** The rows that `p` selects become `f` of them, every other row stays, in the same order. */
  ghost predicate UsersBecome(db: Db, db': Db, p: User -> bool, f: User -> User) {
    |db'.users| == |db.users| && forall i :: 0 <= i < |db.users| ==> db'.users[i] == if p(db.users[i]) then f(db.users[i]) else db.users[i]
  }

  ghost predicate KeysBecome(db: Db, db': Db, p: ApiKey -> bool, f: ApiKey -> ApiKey) {
    |db'.keys| == |db.keys| && forall i :: 0 <= i < |db.keys| ==> db'.keys[i] == if p(db.keys[i]) then f(db.keys[i]) else db.keys[i]
  }

  /** Nothing but users, or nothing but keys and generated plaintexts, changes. */
  ghost predicate OnlyUsers(db: Db, db': Db) {
    db' == db.(users := db'.users)
  }

  ghost predicate OnlyKeys(db: Db, db': Db) {
    db' == db.(keys := db'.keys, plaintexts := db'.plaintexts)
  }

  // ---------------------------------------------------------------- API keys

  /** A super admin, or an administrator, lead or owner within the key's organisation. */
  ghost predicate Manages(caller: User, k: ApiKey) {
    caller.role == SuperAdmin
    || (caller.orgId == k.orgId && (caller.role == OrgAdmin || caller.role == TeamLead || caller.id == k.userId))
  }

  /**
    Whoever creates a key for somebody else is a super admin, or an administrator or lead of the
    owner's organisation; everybody may create one for himself. The key is active and holds the hash
    of a plaintext that only the answer shows.
   */
  lemma {:induction false} WhoMayCreateKeys(
    db: Db, caller: User, owner: UserId, org: OrgId, expiresAt: Option<real>, id: KeyId, secret: nat)
    requires Inv(db)
    ensures var (db', r) := CreateApiKey(db, caller, owner, org, expiresAt, id, secret);
            && (r.Ok? <==> HasUser(db, (u: User) => u.id == owner
                  && (caller.id == owner || caller.role == SuperAdmin || (caller.role != Member && u.orgId == caller.orgId))))
            && (r.Ok? ==>
                  && r.value == Plaintext(secret)
                  && db' == db.(keys := db.keys + [ApiKey(id, owner, Some(org), Sha256(Plaintext(secret)), true, expiresAt, None, None)],
                                plaintexts := db.plaintexts + {secret}))
            && (r.Err? ==>
                  && db' == db
                  && r.error == if caller.id != owner && caller.role == Member then Forbidden
                                else if HasUser(db, (u: User) => u.id == owner) then Forbidden
                                else if caller.id == owner then Conflict else NotFound)
  {
    hide Inv, FirstFrom;
    NoTwoUsers(db);
  }

  /** Who may rotate a key, and what a rotation writes. */
  lemma {:induction false} WhoMayRotate(db: Db, caller: User, id: KeyId, secret: nat)
    requires Inv(db)
    ensures var (db', r) := RotateKey(db, caller, id, secret);
            && (r.Ok? <==> HasKey(db, (k: ApiKey) => k.id == id && k.isActive && Manages(caller, k)))
            && (r.Ok? ==>
                  && r.value == Plaintext(secret) && OnlyKeys(db, db') && db'.plaintexts == db.plaintexts + {secret}
                  && KeysBecome(db, db', (k: ApiKey) => k.id == id, (k: ApiKey) => k.(keyHash := Sha256(Plaintext(secret)))))
            && (r.Err? ==>
                  && db' == db
                  && r.error == if HasKey(db, (k: ApiKey) => k.id == id && k.isActive) then Forbidden else NotFound)
  {
    hide Inv, FirstFrom;
    NoTwoKeys(db, id);
  }

  /** Who may revoke a key, and what a revocation writes. */
  lemma {:induction false} WhoMayRevoke(db: Db, caller: User, id: KeyId, now: real)
    requires Inv(db)
    ensures var (db', r) := RevokeKey(db, caller, id, now);
            && (r.Ok? <==> HasKey(db, (k: ApiKey) => k.id == id && k.isActive && Manages(caller, k)))
            && (r.Ok? ==>
                  && r.value == id && OnlyKeys(db, db') && db'.plaintexts == db.plaintexts
                  && KeysBecome(db, db', (k: ApiKey) => k.id == id, (k: ApiKey) => k.(isActive := false, revokedAt := Some(now))))
            && (r.Err? ==>
                  && db' == db
                  && r.error == if HasKey(db, (k: ApiKey) => k.id == id && k.isActive) then Forbidden
                                else if HasKey(db, (k: ApiKey) => k.id == id) then Conflict else NotFound)
  {
    hide Inv, FirstFrom;
    NoTwoKeys(db, id);
  }

  /** Authenticating stamps the row with the hash, if it opens, and writes nothing else. */
  lemma {:induction false} WhatAuthenticationWrites(db: Db, raw: Bearer, now: real)
    requires Inv(db)
    ensures var (db', r) := AuthenticateByKey(db, raw, now);
            && (r.Ok? ==>
                  && OnlyKeys(db, db') && db'.plaintexts == db.plaintexts
                  && KeysBecome(db, db', (k: ApiKey) => k.keyHash == Sha256(raw), (k: ApiKey) => k.(lastUsedAt := Some(now))))
            && (r.Err? ==> db' == db)
  {
    hide FirstFrom, GoodUsers, GoodKey;
  }

  // ---------------------------------------------------------------- members of an organisation

  /** Who may invite: super admins and administrators, never to super admin; a registered user who is not an active member yet. */
  lemma {:induction false} WhoMayInvite(db: Db, caller: User, org: OrgId, email: Email, role: Role)
    requires Inv(db)
    ensures var (db', r) := InviteUser(db, caller, org, email, role);
            var allowed := (caller.role == SuperAdmin || caller.role == OrgAdmin) && role != SuperAdmin;
            && (r.Ok? <==> allowed && HasUser(db, (u: User) => u.email == email && !(u.isActive && u.orgId == Some(org))))
            && (r.Ok? ==>
                  && OnlyUsers(db, db') && HasUser(db, (u: User) => u.email == email && u.id == r.value)
                  && UsersBecome(db, db', (u: User) => u.email == email, (u: User) =>
                       u.(orgId := Some(org), isActive := true, role := if u.role == SuperAdmin then SuperAdmin else role)))
            && (r.Err? ==>
                  && db' == db
                  && r.error == if !allowed then Forbidden else if HasUser(db, (u: User) => u.email == email) then Conflict else NotFound)
  {
    hide Inv, FirstFrom;
    NoTwoEmails(db, email);
  }

  /** Who may change a role: super admins and administrators, never to super admin; of a member of the organisation. */
  lemma {:induction false} WhoMayChangeRoles(db: Db, caller: User, org: OrgId, target: UserId, role: Role)
    requires Inv(db)
    ensures var (db', r) := UpdateUserRole(db, caller, org, target, role);
            var allowed := (caller.role == SuperAdmin || caller.role == OrgAdmin) && role != SuperAdmin;
            && (r.Ok? <==> allowed && HasUser(db, (u: User) => u.id == target && u.orgId == Some(org)))
            && (r.Ok? ==>
                  && r.value == target && OnlyUsers(db, db')
                  && UsersBecome(db, db', (u: User) => u.id == target, (u: User) => u.(role := role)))
            && (r.Err? ==> db' == db && r.error == if allowed then NotFound else Forbidden)
  {
    hide Inv, FirstFrom;
    NoTwoMembers(db, target, org);
    OneId(db);
  }

  lemma {:induction false} OneId(db: Db)
    requires Inv(db)
    ensures forall i, j :: 0 <= i < |db.users| && 0 <= j < |db.users| && db.users[i].id == db.users[j].id ==> i == j
  {
    forall i, j | 0 <= i < j < |db.users| ensures db.users[i].id != db.users[j].id {
      assert Apart(db.users[i], db.users[j]);
    }
  }

  /**
    A member is removed by anybody but himself: he is deactivated, leaves the organisation, and
    exactly his active keys are revoked, in whatever organisation they are.
   */
  lemma {:induction false} WhatRemovalWrites(db: Db, caller: User, org: OrgId, target: UserId, now: real)
    requires Inv(db)
    ensures var (db', r) := RemoveUserFromOrg(db, caller, org, target, now);
            && (r.Ok? <==> caller.id != target && HasUser(db, (u: User) => u.id == target && u.orgId == Some(org)))
            && (r.Ok? ==>
                  && r.value == target && db' == db.(users := db'.users, keys := db'.keys)
                  && UsersBecome(db, db', (u: User) => u.id == target, (u: User) => u.(isActive := false, orgId := None))
                  && KeysBecome(db, db', (k: ApiKey) => k.userId == target && k.isActive, (k: ApiKey) => k.(isActive := false, revokedAt := Some(now))))
            && (r.Err? ==> db' == db && r.error == if caller.id == target then Invalid else NotFound)
  {
    hide Inv, FirstFrom;
    NoTwoMembers(db, target, org);
    OneId(db);
  }

  // ---------------------------------------------------------------- organisations and the seed

  /** A slug is used once; a creator without organisation, unless a super admin, becomes the administrator of the new one. */
  lemma {:induction false} WhatCreatingAnOrgWrites(db: Db, creator: Option<UserId>, org: OrgId, slug: Slug)
    requires Inv(db) && org !in db.orgs
    ensures var (db', r) := CreateOrg(db, creator, org, slug);
            && (r.Ok? <==> forall o :: o in db.orgs ==> db.orgs[o] != slug)
            && (r.Ok? ==>
                  && r.value == org && db' == db.(users := db'.users, orgs := db.orgs[org := slug])
                  && UsersBecome(db, db', (u: User) => creator == Some(u.id) && u.orgId == None && u.role != SuperAdmin,
                                 (u: User) => u.(orgId := Some(org), role := OrgAdmin)))
            && (r.Err? ==> db' == db && r.error == Conflict)
  {
    hide Inv, FirstFrom;
    NoTwoUsers(db);
    OneId(db);
  }

  /** An organisation with an active member stays; otherwise it goes, and its members are left without one. */
  lemma {:induction false} WhatDeletingAnOrgWrites(db: Db, org: OrgId)
    ensures var (db', r) := DeleteOrg(db, org);
            && (r.Ok? <==> org in db.orgs && !HasUser(db, (u: User) => u.orgId == Some(org) && u.isActive))
            && (r.Ok? ==>
                  && r.value == org && org !in db'.orgs && (forall o :: o in db'.orgs <==> o in db.orgs && o != org)
                  && (forall o :: o in db'.orgs ==> db'.orgs[o] == db.orgs[o])
                  && db' == db.(users := db'.users, orgs := db'.orgs)
                  && UsersBecome(db, db', (u: User) => u.orgId == Some(org), (u: User) => u.(orgId := None))
                  && !HasUser(db', (u: User) => u.orgId == Some(org)))
            && (r.Err? ==> db' == db && r.error == if org in db.orgs then Conflict else NotFound)
  {
    hide FirstFrom;
  }

  /** The application seeds an active, verified super admin without organisation exactly when the address is free. */
  lemma {:induction false} WhatSeedingWrites(db: Db, email: Email, password: Password, id: UserId)
    requires Inv(db)
    ensures SeedAdmin(db, email, password, id)
            == if HasUser(db, (u: User) => u.email == email) then db
               else db.(users := db.users + [User(id, email, Bcrypt(password), SuperAdmin, None, true, true, None, None, None, None, None)])
  {
    hide Inv, FirstFrom;
    NoTwoEmails(db, email);
  }

  // ---------------------------------------------------------------- accounts

  /** The row that a registration adds: a plain, active, unverified user with the token and its time. */
  function Registered(id: UserId, email: Email, password: Password, token: Token, now: real): User {
    User(id, email, Bcrypt(password), Member, None, true, false, Some(token), Some(now), None, None, None)
  }

  ghost predicate Issues(db: Db, db': Db, session: Session, user: UserId, now: real) {
    session == Session(user, now + 3600.0) && db'.sessions == db.sessions + {session}
  }

  /** An address registers once. */
  lemma {:induction false} WhatRegistrationWrites(db: Db, email: Email, password: Password, id: UserId, token: Token, now: real)
    requires Inv(db)
    ensures var (db', r) := Register(db, email, password, id, token, now);
            && (r.Ok? <==> !HasUser(db, (u: User) => u.email == email))
            && (r.Ok? ==>
            && r.value == id && db' == db.(users := db.users + [Registered(id, email, password, token, now)], tokens := db.tokens[token := now]))
            && (r.Err? ==> db' == db && r.error == Conflict)
  {
    hide Inv, FirstFrom;
    NoTwoEmails(db, email);
  }

  ghost predicate MayLogIn(u: User, email: Email, password: Password) {
    u.email == email && u.passwordHash == Bcrypt(password) && u.isActive && u.isVerified
  }

  /** A login succeeds exactly for the password of an active, verified account, and gives its user a session of one hour. */
  lemma {:induction false} WhoMayLogIn(db: Db, email: Email, password: Password, now: real)
    requires Inv(db)
    ensures var (db', r) := Login(db, email, password, now);
            && (r.Ok? <==> HasUser(db, (u: User) => MayLogIn(u, email, password)))
            && (r.Ok? ==>
                  && db' == db.(sessions := db'.sessions) && Issues(db, db', r.value, r.value.user, now)
                  && HasUser(db, (u: User) => MayLogIn(u, email, password) && u.id == r.value.user))
            && (r.Err? ==> db' == db && r.error == Unauthorized)
  {
    hide Inv, FirstFrom;
    NoTwoEmails(db, email);
  }

  /** One form for both: a known address logs in, an unknown one registers and gets no session. */
  lemma {:induction false} LoginOrRegistration(db: Db, email: Email, password: Password, id: UserId, token: Token, now: real)
    requires Inv(db)
    ensures var (db', r) := RegisterLoginUnified(db, email, password, id, token, now);
            if HasUser(db, (u: User) => u.email == email) then
              && (r.Ok? <==> HasUser(db, (u: User) => MayLogIn(u, email, password)))
              && (r.Ok? ==>
                    && r.value.Some? && db' == db.(sessions := db'.sessions) && Issues(db, db', r.value.value, r.value.value.user, now)
                    && HasUser(db, (u: User) => MayLogIn(u, email, password) && u.id == r.value.value.user))
              && (r.Err? ==> db' == db && r.error == Unauthorized)
            else
              r == Ok(None)
              && db' == db.(users := db.users + [Registered(id, email, password, token, now)], tokens := db.tokens[token := now])
  {
    hide Inv, FirstFrom, Register;
    NoTwoEmails(db, email);
    WhoMayLogIn(db, email, password, now);
    WhatRegistrationWrites(db, email, password, id, token, now);
  }

  /** A verification that works verifies the holder, clears the token, and gives a session of one hour. */
  lemma {:induction false} WhatVerificationWrites(db: Db, token: Token, now: real)
    requires Inv(db) && VerifyEmailToken(db, token, now).1.Ok?
    ensures var (db', r) := VerifyEmailToken(db, token, now);
            && db' == db.(users := db'.users, sessions := db'.sessions) && Issues(db, db', r.value, r.value.user, now)
            && HasUser(db, (u: User) => u.verificationToken == Some(token) && u.id == r.value.user)
            && UsersBecome(db, db', (u: User) => u.verificationToken == Some(token),
                           (u: User) => u.(isVerified := true, verificationToken := None, verificationSentAt := None))
  {
    hide Inv, FirstFrom;
    OneHolder(db, token);
  }

  /** Asking for a reset answers the same whatever the address; a registered one gets a token for an hour. */
  lemma {:induction false} WhatForgettingWrites(db: Db, email: Email, token: Token, now: real)
    requires Inv(db)
    ensures var (db', r) := ForgotPassword(db, email, token, now);
            && r == Ok(()) && db' == db.(users := db'.users, tokens := db'.tokens)
            && db'.tokens == (if HasUser(db, (u: User) => u.email == email) then db.tokens[token := now] else db.tokens)
            && UsersBecome(db, db', (u: User) => u.email == email, (u: User) => u.(resetToken := Some(token), resetExpiresAt := Some(now + 3600.0)))
  {
    hide Inv, FirstFrom;
    NoTwoEmails(db, email);
  }

  /** A reset that works changes the holder's password, clears the token, and writes nothing else; one that fails writes nothing. */
  lemma {:induction false} WhatResetWrites(db: Db, token: Token, password: Password, now: real)
    requires Inv(db)
    ensures var (db', r) := ResetPassword(db, token, password, now);
            && (r.Err? ==>
            && db' == db)
            && (r.Ok? ==>
                  && OnlyUsers(db, db')
                  && UsersBecome(db, db', (u: User) => u.resetToken == Some(token),
                                 (u: User) => u.(passwordHash := Bcrypt(password), resetToken := None, resetExpiresAt := None)))
  {
    hide Inv, FirstFrom;
    OneHolder(db, token);
  }

  /** Whatever the tables hold, only an active, verified user is let in, and only the one of an open session. */
  lemma {:induction false} WhoIsLetIn(db: Db, bearer: Bearer, now: real)
    ensures var r := GetCurrentUser(db, Some(bearer), now);
            r.Ok? ==> bearer.Jwt? && bearer.session in db.sessions && now <= bearer.session.expiresAt
                      && r.value.id == bearer.session.user && r.value.isActive && r.value.isVerified
  {
    hide FirstFrom;
  }

  // ---------------------------------------------------------------- sign-in with Google

  /**
    Google's word counts when it was reached, knows the account and its address, and names this
    client; without a credential the mock token counts, in development only.
   */
  lemma {:induction false} WhomGoogleVouchesFor(
    credential: Option<GoogleReply>, mock: Option<GoogleId>, email: Option<Email>, mockEmail: Email,
    clientId: Option<nat>, development: bool, google: GoogleId, address: Email)
    ensures SsoIdentity(credential, mock, email, mockEmail, clientId, development) == Some((google, address))
            <==> (exists audience: nat ::
                    credential == Some(Details(Some(google), Some(address), Some(audience))) && clientId == Some(audience))
                 || (credential == None && development && mock == Some(google)
                     && (email == Some(address) || (email == None && address == mockEmail)))
  {}

  ghost predicate SameAccount(u: User, google: GoogleId, email: Email) {
    u.googleId == Some(google) || u.email == email
  }

  /**
    Who signs in with Google: nobody without its word; a stranger becomes a verified user; the one
    account with the identity or the address, if active, is verified and linked unless it is linked
    already; two accounts, one with either, are refused.
   */
  lemma {:induction false} WhoMaySignIn(db: Db, google: GoogleId, email: Email, id: UserId, placeholder: Password, now: real)
    requires Inv(db)
    ensures SsoCallback(db, None, id, placeholder, now) == (db, Err(Unauthorized))
    ensures var (db', r) := SsoCallback(db, Some((google, email)), id, placeholder, now);
            && (r.Ok? ==>
            && db' == db.(users := db'.users, sessions := db'.sessions) && Issues(db, db', r.value, r.value.user, now))
            && (r.Err? ==>
            && db' == db)
            && (!HasUser(db, (u: User) => SameAccount(u, google, email)) ==>
                  r.Ok? && r.value.user == id
                  && db'.users == db.users + [User(id, email, Bcrypt(placeholder), Member, None, true, true, None, None, None, None, Some(google))])
            && (forall i :: 0 <= i < |db.users| && Only(db, i, google, email) ==>
                  && (r.Ok? <==> db.users[i].isActive) && (r.Err? ==>
                  && r.error == Unauthorized)
                  && (r.Ok? ==>
                        && r.value.user == db.users[i].id
                        && UsersBecome(db, db', (u: User) => SameAccount(u, google, email), (u: User) =>
                             u.(isVerified := true, googleId := if u.googleId == None then Some(google) else u.googleId))))
            && ((exists i, j :: 0 <= i < j < |db.users| && SameAccount(db.users[i], google, email) && SameAccount(db.users[j], google, email))
                  ==> r == Err(ManyRows))
  {
    hide Inv, FirstFrom;
  }

  /** Row `i` alone has the identity or the address. */
  ghost predicate Only(db: Db, i: nat, google: GoogleId, email: Email)
    requires i < |db.users|
  {
    forall j :: 0 <= j < |db.users| ==> (SameAccount(db.users[j], google, email) <==> j == i)
  }
}

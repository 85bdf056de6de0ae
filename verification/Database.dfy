/** The services as methods that assign fields of the rows they load and commit. */
module Services {
  import opened Wrappers
  import opened Accounts

  class Database {
    var users: seq<User>
    var keys: seq<ApiKey>
    var orgs: map<OrgId, Slug>
    ghost var plaintexts: set<nat>
    ghost var tokens: map<Token, real>
    var sessions: set<Session>

    ghost function View(): Db
      reads this
    {
      Db(users, keys, orgs, plaintexts, tokens, sessions)
    }

    constructor ()
      ensures View() == EMPTY
    {
      users, keys, orgs, plaintexts, tokens, sessions := [], [], map[], {}, map[], {};
    }

    method SeedSuperAdmin(email: Email, password: Password, id: UserId)
      modifies this`users
      ensures View() == SeedAdmin(old(View()), email, password, id)
    {
      var existing := OneRow(users, (u: User) => u.email == email);
      if existing.NoRow? {
        users := users + [NewUser(id, email, password).(role := SuperAdmin, isVerified := true)];
      }
    }

    method CreateAccessToken(user: UserId, now: real) returns (session: Session)
      modifies this`sessions
      ensures View() == NewSession(old(View()), user, now).0 && session == Session(user, now + 3600.0)
    {
      session := Session(user, now + HOUR);
      sessions := sessions + {session};
    }

    method CreateApiKeyService(caller: User, owner: UserId, org: OrgId, expiresAt: Option<real>, id: KeyId, secret: nat)
      returns (r: Result<Bearer>)
      modifies this
      ensures (View(), r) == CreateApiKey(old(View()), caller, owner, org, expiresAt, id, secret)
    {
      var target := OneRow(users, (u: User) => u.id == owner);
      if caller.id != owner {
        if caller.role == Member {
          return Err(Forbidden);
        }
        if target.NoRow? {
          return Err(NotFound);
        }
        if target.SeveralRows? {
          return Err(ManyRows);
        }
        if caller.role != SuperAdmin {
          if users[target.at].orgId != caller.orgId {
            return Err(Forbidden);
          }
        }
      }
      if target.NoRow? {
        return Err(Conflict);
      }
      keys := keys + [ApiKey(id, owner, Some(org), Sha256(Plaintext(secret)), true, expiresAt, None, None)];
      plaintexts := plaintexts + {secret};
      return Ok(Plaintext(secret));
    }

    method RotateKeyService(caller: User, id: KeyId, secret: nat) returns (r: Result<Bearer>)
      modifies this
      ensures (View(), r) == RotateKey(old(View()), caller, id, secret)
    {
      var found := OneRow(keys, (k: ApiKey) => k.id == id);
      if found.SeveralRows? {
        return Err(ManyRows);
      }
      if found.NoRow? || !keys[found.at].isActive {
        return Err(NotFound);
      }
      if !CanManageKey(caller, keys[found.at]) {
        return Err(Forbidden);
      }
      keys := keys[found.at := keys[found.at].(keyHash := Sha256(Plaintext(secret)))];
      plaintexts := plaintexts + {secret};
      return Ok(Plaintext(secret));
    }

    method RevokeKeyService(caller: User, id: KeyId, now: real) returns (r: Result<KeyId>)
      modifies this
      ensures (View(), r) == RevokeKey(old(View()), caller, id, now)
    {
      var found := OneRow(keys, (k: ApiKey) => k.id == id);
      if found.SeveralRows? {
        return Err(ManyRows);
      }
      if found.NoRow? {
        return Err(NotFound);
      }
      var key := keys[found.at];
      if !key.isActive {
        return Err(Conflict);
      }
      if !CanManageKey(caller, key) {
        return Err(Forbidden);
      }
      key := key.(isActive := false);
      key := key.(revokedAt := Some(now));
      keys := keys[found.at := key];
      return Ok(id);
    }

    method AuthenticateByKeyService(raw: Bearer, now: real) returns (r: Result<ApiKey>)
      modifies this
      ensures (View(), r) == AuthenticateByKey(old(View()), raw, now)
    {
      var found := OneRow(keys, (k: ApiKey) => k.keyHash == Sha256(raw) && k.isActive && Unexpired(k, now));
      if found.SeveralRows? {
        return Err(ManyRows);
      }
      if found.NoRow? {
        return Err(Unauthorized);
      }
      keys := keys[found.at := keys[found.at].(lastUsedAt := Some(now))];
      return Ok(keys[found.at]);
    }

    method InviteUserService(caller: User, org: OrgId, email: Email, role: Role) returns (r: Result<UserId>)
      modifies this
      ensures (View(), r) == InviteUser(old(View()), caller, org, email, role)
    {
      if !CanAssignRole(caller, role) {
        return Err(Forbidden);
      }
      var found := OneRow(users, (u: User) => u.email == email);
      if found.SeveralRows? {
        return Err(ManyRows);
      }
      if found.NoRow? {
        return Err(NotFound);
      }
      var user := users[found.at];
      if user.isActive && user.orgId == Some(org) {
        return Err(Conflict);
      }
      user := user.(orgId := Some(org));
      user := user.(isActive := true);
      if user.role != SuperAdmin {
        user := user.(role := role);
      }
      users := users[found.at := user];
      return Ok(user.id);
    }

    /** The loop revokes the active keys of the target one by one, then the user goes. */
    method RemoveUserFromOrgService(caller: User, org: OrgId, target: UserId, now: real) returns (r: Result<UserId>)
      modifies this
      ensures (View(), r) == RemoveUserFromOrg(old(View()), caller, org, target, now)
    {
      if caller.id == target {
        return Err(Invalid);
      }
      var found := OneRow(users, (u: User) => u.id == target && u.orgId == Some(org));
      if found.SeveralRows? {
        return Err(ManyRows);
      }
      if found.NoRow? {
        return Err(NotFound);
      }
      ghost var before := keys;
      var i := 0;
      while i < |keys|
        invariant i <= |keys| == |before|
        invariant forall j :: 0 <= j < i ==> keys[j] == RevokeAll(before, target, now)[j]
        invariant forall j :: i <= j < |keys| ==> keys[j] == before[j]
        invariant users == old(users) && plaintexts == old(plaintexts) && tokens == old(tokens) && sessions == old(sessions) && orgs == old(orgs)
      {
        if keys[i].userId == target && keys[i].isActive {
          keys := keys[i := keys[i].(isActive := false, revokedAt := Some(now))];
        }
        i := i + 1;
      }
      assert keys == RevokeAll(before, target, now);
      var user := users[found.at].(isActive := false);
      user := user.(orgId := None);
      users := users[found.at := user];
      return Ok(target);
    }

    method UpdateUserRoleService(caller: User, org: OrgId, target: UserId, role: Role) returns (r: Result<UserId>)
      modifies this
      ensures (View(), r) == UpdateUserRole(old(View()), caller, org, target, role)
    {
      if !CanAssignRole(caller, role) {
        return Err(Forbidden);
      }
      var found := OneRow(users, (u: User) => u.id == target && u.orgId == Some(org));
      if found.SeveralRows? {
        return Err(ManyRows);
      }
      if found.NoRow? {
        return Err(NotFound);
      }
      users := users[found.at := users[found.at].(role := role)];
      return Ok(target);
    }

    method CreateOrgService(creator: Option<UserId>, org: OrgId, slug: Slug) returns (r: Result<OrgId>)
      modifies this
      ensures (View(), r) == CreateOrg(old(View()), creator, org, slug)
    {
      if slug in orgs.Values {
        return Err(Conflict);
      }
      orgs := orgs[org := slug];
      if creator.Some? {
        var found := OneRow(users, (u: User) => u.id == creator.value);
        if found.Row? {
          var user := users[found.at];
          if user.orgId.None? && user.role != SuperAdmin {
            user := user.(orgId := Some(org));
            user := user.(role := OrgAdmin);
            users := users[found.at := user];
          }
        }
      }
      return Ok(org);
    }

    /** The loop takes the remaining, inactive members out of the organisation. */
    method DeleteOrgService(org: OrgId) returns (r: Result<OrgId>)
      modifies this
      ensures (View(), r) == DeleteOrg(old(View()), org)
    {
      if org !in orgs {
        return Err(NotFound);
      }
      if !OneRow(users, (u: User) => u.orgId == Some(org) && u.isActive).NoRow? {
        return Err(Conflict);
      }
      ghost var before := users;
      var i := 0;
      while i < |users|
        invariant i <= |users| == |before|
        invariant forall j :: 0 <= j < i ==> users[j] == LeaveOrg(before, org)[j]
        invariant forall j :: i <= j < |users| ==> users[j] == before[j]
        invariant View() == old(View()).(users := users)
      {
        if users[i].orgId == Some(org) {
          users := users[i := users[i].(orgId := None)];
        }
        i := i + 1;
      }
      assert users == LeaveOrg(before, org);
      orgs := orgs - {org};
      return Ok(org);
    }

    method RegisterService(email: Email, password: Password, id: UserId, token: Token, now: real) returns (r: Result<UserId>)
      modifies this
      ensures (View(), r) == Register(old(View()), email, password, id, token, now)
    {
      var existing := OneRow(users, (u: User) => u.email == email);
      if existing.SeveralRows? {
        return Err(ManyRows);
      }
      if existing.Row? {
        return Err(Conflict);
      }
      users := users + [NewUser(id, email, password).(verificationToken := Some(token), verificationSentAt := Some(now))];
      tokens := tokens[token := now];
      return Ok(id);
    }

    method LoginService(email: Email, password: Password, now: real) returns (r: Result<Session>)
      modifies this
      ensures (View(), r) == Login(old(View()), email, password, now)
    {
      var found := OneRow(users, (u: User) => u.email == email);
      if found.SeveralRows? {
        return Err(ManyRows);
      }
      if found.NoRow? || users[found.at].passwordHash != Bcrypt(password) {
        return Err(Unauthorized);
      }
      if !users[found.at].isActive {
        return Err(Unauthorized);
      }
      if !users[found.at].isVerified {
        return Err(Unauthorized);
      }
      var token := CreateAccessToken(users[found.at].id, now);
      return Ok(token);
    }

    /** `credential` is Google's answer when a credential was sent. */
    method SsoCallbackService(credential: Option<GoogleReply>, mock: Option<GoogleId>, mail: Option<Email>, mockEmail: Email,
                              clientId: Option<nat>, development: bool, id: UserId, placeholder: Password, now: real)
      returns (r: Result<Session>)
      modifies this
      ensures (View(), r)
              == SsoCallback(old(View()), SsoIdentity(credential, mock, mail, mockEmail, clientId, development), id, placeholder, now)
    {
      var google: GoogleId, email: Email;
      if credential.Some? {
        var reply := credential.value;
        if reply.Unreached? || reply.Rejected? {
          return Err(Unauthorized);
        }
        if reply.sub.None? || reply.email.None? {
          return Err(Unauthorized);
        }
        if clientId.None? {
          return Err(Unauthorized);
        }
        if reply.audience != clientId {
          return Err(Unauthorized);
        }
        google, email := reply.sub.value, reply.email.value;
      } else {
        if !development {
          return Err(Unauthorized);
        }
        if mock.None? {
          return Err(Unauthorized);
        }
        google := mock.value;
        email := if mail.Some? then mail.value else mockEmail;
      }
      var found := OneRow(users, (u: User) => u.googleId == Some(google) || u.email == email);
      if found.SeveralRows? {
        return Err(ManyRows);
      }
      var user := NewUser(id, email, placeholder).(googleId := Some(google), isVerified := true);
      if found.Row? {
        user := users[found.at];
        if !user.isActive {
          return Err(Unauthorized);
        }
        if user.googleId.None? {
          user := user.(googleId := Some(google));
        }
        user := user.(isVerified := true);
        users := users[found.at := user];
      } else {
        users := users + [user];
      }
      var token := CreateAccessToken(user.id, now);
      return Ok(token);
    }

    method RegisterLoginUnifiedService(email: Email, password: Password, id: UserId, token: Token, now: real)
      returns (r: Result<Option<Session>>)
      modifies this
      ensures (View(), r) == RegisterLoginUnified(old(View()), email, password, id, token, now)
    {
      var found := OneRow(users, (u: User) => u.email == email);
      if found.SeveralRows? {
        return Err(ManyRows);
      }
      if found.Row? {
        var user := users[found.at];
        if user.passwordHash != Bcrypt(password) {
          return Err(Unauthorized);
        }
        if !user.isActive {
          return Err(Unauthorized);
        }
        if !user.isVerified {
          return Err(Unauthorized);
        }
        var session := CreateAccessToken(user.id, now);
        return Ok(Some(session));
      }
      users := users + [NewUser(id, email, password).(verificationToken := Some(token), verificationSentAt := Some(now))];
      tokens := tokens[token := now];
      return Ok(None);
    }

    method VerifyEmailTokenService(token: Token, now: real) returns (r: Result<Session>)
      modifies this
      ensures (View(), r) == VerifyEmailToken(old(View()), token, now)
    {
      var found := OneRow(users, (u: User) => u.verificationToken == Some(token));
      if found.SeveralRows? {
        return Err(ManyRows);
      }
      if found.NoRow? {
        return Err(Unauthorized);
      }
      var user := users[found.at];
      if user.verificationSentAt.Some? && now - user.verificationSentAt.value > DAY {
        return Err(Unauthorized);
      }
      user := user.(isVerified := true);
      user := user.(verificationToken := None);
      user := user.(verificationSentAt := None);
      users := users[found.at := user];
      var session := CreateAccessToken(user.id, now);
      return Ok(session);
    }

    method ForgotPasswordService(email: Email, token: Token, now: real) returns (r: Result<()>)
      modifies this
      ensures (View(), r) == ForgotPassword(old(View()), email, token, now)
    {
      var found := OneRow(users, (u: User) => u.email == email);
      if found.SeveralRows? {
        return Err(ManyRows);
      }
      if found.NoRow? {
        return Ok(());
      }
      var user := users[found.at].(resetToken := Some(token));
      user := user.(resetExpiresAt := Some(now + HOUR));
      users := users[found.at := user];
      tokens := tokens[token := now];
      return Ok(());
    }

    method ResetPasswordService(token: Token, password: Password, now: real) returns (r: Result<()>)
      modifies this
      ensures (View(), r) == ResetPassword(old(View()), token, password, now)
    {
      var found := OneRow(users, (u: User) => u.resetToken == Some(token));
      if found.SeveralRows? {
        return Err(ManyRows);
      }
      if found.NoRow? {
        return Err(Unauthorized);
      }
      var user := users[found.at];
      if user.resetExpiresAt.Some? && now > user.resetExpiresAt.value {
        return Err(Unauthorized);
      }
      user := user.(passwordHash := Bcrypt(password));
      user := user.(resetToken := None);
      user := user.(resetExpiresAt := None);
      users := users[found.at := user];
      return Ok(());
    }

    /** JWT first, then API key. */
    method GetApiKeyUserDependency(bearer: Option<Bearer>, now: real) returns (r: Result<(User, Option<ApiKey>)>)
      modifies this
      ensures (View(), r) == GetApiKeyUser(old(View()), bearer, now)
    {
      if bearer.None? {
        return Err(Unauthorized);
      }
      var raw := bearer.value;
      if raw.Jwt? && raw.session in sessions && now <= raw.session.expiresAt {
        var owner := OneRow(users, (u: User) => u.id == raw.session.user);
        if owner.SeveralRows? {
          return Err(ManyRows);
        }
        if owner.Row? && users[owner.at].isActive {
          return Ok((users[owner.at], None));
        }
      }
      var key := AuthenticateByKeyService(raw, now);
      if key.Err? {
        return Err(key.error);
      }
      var found := OneRow(users, (u: User) => u.id == key.value.userId);
      if found.SeveralRows? {
        return Err(ManyRows);
      }
      if found.NoRow? || !users[found.at].isActive {
        return Err(Unauthorized);
      }
      return Ok((users[found.at], Some(key.value)));
    }
  }
}

/** What holds of credentials in every run: dead keys stay dead, tokens work once, sessions belong to verified users. */
module Credentials {
  import opened Wrappers
  import opened Accounts

  // ---------------------------------------------------------------- the invariant

  ghost predicate GoodUser(u: User, tokens: map<Token, real>) {
    && (u.verificationToken.Some? ==>
          u.verificationToken.value in tokens && u.verificationSentAt == Some(tokens[u.verificationToken.value]))
    && (u.resetToken.Some? ==>
          u.resetToken.value in tokens && u.resetExpiresAt == Some(tokens[u.resetToken.value] + HOUR))
  }

  /** Two rows share neither id, nor address, nor an outstanding token. */
  ghost predicate Apart(u: User, v: User) {
    && u.id != v.id && u.email != v.email
    && (u.verificationToken.Some? ==> u.verificationToken != v.verificationToken)
    && (u.resetToken.Some? ==> u.resetToken != v.resetToken)
  }

  ghost predicate GoodUsers(users: seq<User>, tokens: map<Token, real>) {
    && (forall i :: 0 <= i < |users| ==> GoodUser(users[i], tokens))
    && (forall i, j :: 0 <= i < j < |users| ==> Apart(users[i], users[j]))
  }

  predicate GoodKey(k: ApiKey, plaintexts: set<nat>) {
    k.keyHash.bearer.Plaintext? && k.keyHash.bearer.text in plaintexts && (k.isActive <==> k.revokedAt.None?) && k.orgId.Some?
  }

  ghost predicate GoodKeys(keys: seq<ApiKey>, plaintexts: set<nat>) {
    && (forall i :: 0 <= i < |keys| ==> GoodKey(keys[i], plaintexts))
    && (forall i, j :: 0 <= i < j < |keys| ==> keys[i].id != keys[j].id && keys[i].keyHash != keys[j].keyHash)
  }

  ghost predicate VerifiedUser(users: seq<User>, id: UserId) {
    exists i :: 0 <= i < |users| && users[i].id == id && users[i].isVerified
  }

  ghost predicate Inv(db: Db) {
    && GoodUsers(db.users, db.tokens)
    && GoodKeys(db.keys, db.plaintexts)
    && (forall s :: s in db.sessions ==> VerifiedUser(db.users, s.user))
  }

  // ---------------------------------------------------------------- how the tables may change

  /** A row keeps its id and address, never loses its verification nor becomes a super admin, and takes only tokens that are new. */
  ghost predicate UserEvolves(u: User, u': User, tokens: map<Token, real>) {
    && u'.id == u.id && u'.email == u.email && (u.isVerified ==> u'.isVerified) && (u'.role == SuperAdmin ==> u.role == SuperAdmin)
    && (u'.verificationToken.Some? ==> u'.verificationToken == u.verificationToken || u'.verificationToken.value !in tokens)
    && (u'.resetToken.Some? ==> u'.resetToken == u.resetToken || u'.resetToken.value !in tokens)
  }

  /** A key is never activated again, and takes only a plaintext that is new. */
  ghost predicate KeyEvolves(k: ApiKey, k': ApiKey, plaintexts: set<nat>) {
    && k'.id == k.id && k'.userId == k.userId && (k'.isActive ==> k.isActive)
    && (k'.keyHash == k.keyHash || IsNew(k'.keyHash, plaintexts))
  }

  ghost predicate IsNew(d: Digest, plaintexts: set<nat>) {
    d.bearer.Plaintext? && d.bearer.text !in plaintexts
  }

  ghost predicate UsersEvolve(users: seq<User>, users': seq<User>, tokens: map<Token, real>) {
    && |users| <= |users'|
    && (forall i :: 0 <= i < |users| ==> UserEvolves(users[i], users'[i], tokens))
    && (forall i :: |users| <= i < |users'| ==>
          (users'[i].verificationToken.Some? ==> users'[i].verificationToken.value !in tokens) && users'[i].resetToken.None?)
  }

  ghost predicate KeysEvolve(keys: seq<ApiKey>, keys': seq<ApiKey>, plaintexts: set<nat>) {
    && |keys| <= |keys'|
    && (forall i :: 0 <= i < |keys| ==> KeyEvolves(keys[i], keys'[i], plaintexts))
    && (forall i :: |keys| <= i < |keys'| ==> IsNew(keys'[i].keyHash, plaintexts))
  }

  ghost predicate Evolves(db: Db, db': Db) {
    && UsersEvolve(db.users, db'.users, db.tokens)
    && KeysEvolve(db.keys, db'.keys, db.plaintexts)
    && db.plaintexts <= db'.plaintexts && db.tokens.Keys <= db'.tokens.Keys
  }

  lemma {:induction false} NothingEvolves(db: Db)
    ensures Evolves(db, db)
  {}

  // ---------------------------------------------------------------- every step keeps both

  lemma {:induction false} ReplaceUser(db: Db, i: nat, u': User, tokens': map<Token, real>)
    requires Inv(db) && i < |db.users| && UserEvolves(db.users[i], u', db.tokens) && GoodUser(u', tokens')
    requires db.tokens.Keys <= tokens'.Keys && forall t :: t in db.tokens ==> tokens'[t] == db.tokens[t]
    ensures var db' := db.(users := db.users[i := u'], tokens := tokens');
            Inv(db') && Evolves(db, db')
  {
    var users' := db.users[i := u'];
    forall j, k | 0 <= j < k < |users'| ensures Apart(users'[j], users'[k]) {
      assert Apart(db.users[j], db.users[k]);
      assert GoodUser(db.users[j], db.tokens) && GoodUser(db.users[k], db.tokens);
    }
    forall j | 0 <= j < |users'| ensures GoodUser(users'[j], tokens') && UserEvolves(db.users[j], users'[j], db.tokens) {
      assert GoodUser(db.users[j], db.tokens);
    }
    VerifiedKept(db, users');
  }

  lemma {:induction false} VerifiedKept(db: Db, users': seq<User>)
    requires Inv(db) && |db.users| <= |users'|
    requires forall i :: 0 <= i < |db.users| ==> UserEvolves(db.users[i], users'[i], db.tokens)
    ensures forall s :: s in db.sessions ==> VerifiedUser(users', s.user)
  {
    forall s | s in db.sessions ensures VerifiedUser(users', s.user) {
      var i :| 0 <= i < |db.users| && db.users[i].id == s.user && db.users[i].isVerified;
      assert UserEvolves(db.users[i], users'[i], db.tokens);
    }
  }

  lemma {:induction false} AddUser(db: Db, u: User, tokens': map<Token, real>)
    requires Inv(db) && FreshUser(db, u.id) && GoodUser(u, tokens') && u.resetToken.None?
    requires forall i :: 0 <= i < |db.users| ==> db.users[i].email != u.email
    requires u.verificationToken.Some? ==> u.verificationToken.value !in db.tokens
    requires db.tokens.Keys <= tokens'.Keys && forall t :: t in db.tokens ==> tokens'[t] == db.tokens[t]
    ensures var db' := db.(users := db.users + [u], tokens := tokens');
            Inv(db') && Evolves(db, db')
  {
    var users' := db.users + [u];
    forall j, k | 0 <= j < k < |users'| ensures Apart(users'[j], users'[k]) {
      assert GoodUser(db.users[j], db.tokens);
      if k < |db.users| {
        assert Apart(db.users[j], db.users[k]);
      }
    }
    forall j | 0 <= j < |users'| ensures GoodUser(users'[j], tokens') {
      if j < |db.users| {
        assert GoodUser(db.users[j], db.tokens);
      }
    }
    VerifiedKept(db, users');
  }

  lemma {:induction false} AddSession(db: Db, user: UserId, now: real)
    requires Inv(db) && VerifiedUser(db.users, user)
    ensures Inv(NewSession(db, user, now).0) && Evolves(db, NewSession(db, user, now).0)
  {}

  lemma {:induction false} EvolvesThenSession(db: Db, mid: Db, user: UserId, now: real)
    requires Evolves(db, mid)
    ensures Evolves(db, NewSession(mid, user, now).0)
  {}

  lemma {:induction false} ReplaceKey(db: Db, i: nat, k': ApiKey, plaintexts': set<nat>)
    requires Inv(db) && i < |db.keys| && KeyEvolves(db.keys[i], k', db.plaintexts)
    requires GoodKey(k', plaintexts') && db.plaintexts <= plaintexts'
    ensures var db' := db.(keys := db.keys[i := k'], plaintexts := plaintexts');
            Inv(db') && Evolves(db, db')
  {
    var keys' := db.keys[i := k'];
    forall j, k | 0 <= j < k < |keys'| ensures keys'[j].id != keys'[k].id && keys'[j].keyHash != keys'[k].keyHash {
      assert GoodKey(db.keys[j], db.plaintexts) && GoodKey(db.keys[k], db.plaintexts);
    }
    forall j | 0 <= j < |keys'| ensures GoodKey(keys'[j], plaintexts') && KeyEvolves(db.keys[j], keys'[j], db.plaintexts) {
      assert GoodKey(db.keys[j], db.plaintexts);
    }
  }

  lemma {:induction false} CreateKeeps(db: Db, step: Step)
    requires Inv(db) && Enabled(db, step) && step.StepCreate?
    ensures Inv(Apply(db, step)) && Evolves(db, Apply(db, step))
  {
    hide GoodUsers, GoodKeys, Evolves;
    NothingEvolves(db);
    if Apply(db, step) != db {
      AddKey(db, ApiKey(step.id, step.owner, Some(step.org), Sha256(Plaintext(step.secret)), true, step.expiresAt, None, None), step.secret);
    }
  }

  lemma {:induction false} AddKey(db: Db, k: ApiKey, secret: nat)
    requires Inv(db) && secret !in db.plaintexts && k.keyHash == Sha256(Plaintext(secret)) && k.isActive && k.revokedAt.None? && k.orgId.Some?
    requires forall i :: 0 <= i < |db.keys| ==> db.keys[i].id != k.id
    ensures var db' := db.(keys := db.keys + [k], plaintexts := db.plaintexts + {secret});
            Inv(db') && Evolves(db, db')
  {
    hide GoodUsers;
    var keys', plaintexts' := db.keys + [k], db.plaintexts + {secret};
    forall j | 0 <= j < |db.keys| ensures GoodKey(db.keys[j], db.plaintexts) && db.keys[j].keyHash != k.keyHash {}
    assert GoodKeys(keys', plaintexts');
  }

  lemma {:induction false} RotateKeeps(db: Db, step: Step)
    requires Inv(db) && Enabled(db, step) && step.StepRotate?
    ensures Inv(Apply(db, step)) && Evolves(db, Apply(db, step))
  {
    hide GoodUsers, GoodKeys, Evolves;
    NothingEvolves(db);
    var found := KeyById(db, step.key);
    if found.Row? && Apply(db, step) != db {
      KeyIsGood(db, found.at);
      ReplaceKey(db, found.at, db.keys[found.at].(keyHash := Sha256(Plaintext(step.secret))), db.plaintexts + {step.secret});
    }
  }

  lemma {:induction false} KeyIsGood(db: Db, i: nat)
    requires Inv(db) && i < |db.keys|
    ensures GoodKey(db.keys[i], db.plaintexts)
  {}

  lemma {:induction false} UserIsGood(db: Db, i: nat)
    requires Inv(db) && i < |db.users|
    ensures GoodUser(db.users[i], db.tokens)
  {}

  lemma {:induction false} RevokeKeeps(db: Db, step: Step)
    requires Inv(db) && step.StepRevoke?
    ensures Inv(Apply(db, step)) && Evolves(db, Apply(db, step))
  {
    hide GoodUsers, GoodKeys, Evolves;
    NothingEvolves(db);
    var found := KeyById(db, step.key);
    if found.Row? && Apply(db, step) != db {
      KeyIsGood(db, found.at);
      ReplaceKey(db, found.at, db.keys[found.at].(isActive := false, revokedAt := Some(step.now)), db.plaintexts);
    }
  }

  lemma {:induction false} AuthenticateKeeps(db: Db, raw: Bearer, now: real)
    requires Inv(db)
    ensures var db' := AuthenticateByKey(db, raw, now).0;
            Inv(db') && Evolves(db, db')
  {
    hide GoodUsers, GoodKeys, Evolves;
    NothingEvolves(db);
    var found := OneRow(db.keys, (k: ApiKey) => k.keyHash == Sha256(raw) && k.isActive && Unexpired(k, now));
    if found.Row? {
      KeyIsGood(db, found.at);
      ReplaceKey(db, found.at, db.keys[found.at].(lastUsedAt := Some(now)), db.plaintexts);
    }
  }

  lemma {:induction false} CallKeeps(db: Db, step: Step)
    requires Inv(db) && step.StepCall?
    ensures Inv(Apply(db, step)) && Evolves(db, Apply(db, step))
  {
    hide Inv, Evolves;
    NothingEvolves(db);
    if step.bearer.Some? {
      AuthenticateKeeps(db, step.bearer.value, step.now);
    }
  }

  /** The two rows differ in role, organisation and activity at most. */
  ghost predicate Moved(u: User, u': User) {
    u' == u.(role := u'.role, orgId := u'.orgId, isActive := u'.isActive)
  }

  lemma {:induction false} MoveUsers(db: Db, users': seq<User>, orgs': map<OrgId, Slug>)
    requires Inv(db) && |users'| == |db.users|
    requires forall i :: 0 <= i < |users'| ==>
      Moved(db.users[i], users'[i]) && (users'[i].role == SuperAdmin ==> db.users[i].role == SuperAdmin)
    ensures var db' := db.(users := users', orgs := orgs');
            Inv(db') && Evolves(db, db')
  {
    forall i, j | 0 <= i < j < |users'| ensures Apart(users'[i], users'[j]) {
      assert Apart(db.users[i], db.users[j]);
    }
    forall i | 0 <= i < |users'| ensures GoodUser(users'[i], db.tokens) && UserEvolves(db.users[i], users'[i], db.tokens) {
      assert GoodUser(db.users[i], db.tokens);
    }
    VerifiedKept(db, users');
  }

  lemma {:induction false} InviteKeeps(db: Db, step: Step)
    requires Inv(db) && step.StepInvite?
    ensures Inv(Apply(db, step)) && Evolves(db, Apply(db, step))
  {
    hide Inv, Evolves, FirstFrom;
    MoveUsers(db, Apply(db, step).users, db.orgs);
  }

  lemma {:induction false} RoleKeeps(db: Db, step: Step)
    requires Inv(db) && step.StepRole?
    ensures Inv(Apply(db, step)) && Evolves(db, Apply(db, step))
  {
    hide Inv, Evolves, FirstFrom;
    MoveUsers(db, Apply(db, step).users, db.orgs);
  }

  lemma {:induction false} CreateOrgKeeps(db: Db, step: Step)
    requires Inv(db) && step.StepCreateOrg?
    ensures Inv(Apply(db, step)) && Evolves(db, Apply(db, step))
  {
    hide Inv, Evolves, FirstFrom;
    MoveUsers(db, Apply(db, step).users, Apply(db, step).orgs);
  }

  lemma {:induction false} DeleteOrgKeeps(db: Db, step: Step)
    requires Inv(db) && step.StepDeleteOrg?
    ensures Inv(Apply(db, step)) && Evolves(db, Apply(db, step))
  {
    hide Inv, Evolves, FirstFrom;
    MoveUsers(db, Apply(db, step).users, Apply(db, step).orgs);
  }

  lemma {:induction false} SeedKeeps(db: Db, step: Step)
    requires Inv(db) && Enabled(db, step) && step.StepSeed?
    ensures Inv(Apply(db, step)) && Evolves(db, Apply(db, step))
  {
    hide GoodUsers, GoodKeys, Evolves;
    NothingEvolves(db);
    if UserByEmail(db, step.email).NoRow? {
      AddUser(db, NewUser(step.id, step.email, step.password).(role := SuperAdmin, isVerified := true), db.tokens);
    }
  }

  lemma {:induction false} RevokeAllKeeps(db: Db, owner: UserId, now: real)
    requires Inv(db)
    ensures var db' := db.(keys := RevokeAll(db.keys, owner, now));
            Inv(db') && Evolves(db, db')
  {
    var keys' := RevokeAll(db.keys, owner, now);
    forall j | 0 <= j < |keys'| ensures GoodKey(keys'[j], db.plaintexts) && KeyEvolves(db.keys[j], keys'[j], db.plaintexts) {
      assert GoodKey(db.keys[j], db.plaintexts);
    }
  }

  lemma {:induction false} RemoveKeeps(db: Db, step: Step)
    requires Inv(db) && step.StepRemove?
    ensures Inv(Apply(db, step)) && Evolves(db, Apply(db, step))
  {
    hide GoodUsers, GoodKeys, UsersEvolve, KeysEvolve, RevokeAll;
    NothingEvolves(db);
    var found := OneRow(db.users, (u: User) => u.id == step.target && u.orgId == Some(step.org));
    if step.caller.id != step.target && found.Row? {
      RevokeAllKeeps(db, step.target, step.now);
      var mid := db.(keys := RevokeAll(db.keys, step.target, step.now));
      UserIsGood(db, found.at);
      ReplaceUser(mid, found.at, db.users[found.at].(isActive := false, orgId := None), db.tokens);
    }
  }

  lemma {:induction false} RegisterKeeps(db: Db, email: Email, password: Password, id: UserId, token: Token, now: real)
    requires Inv(db) && FreshUser(db, id) && token !in db.tokens
    ensures var db' := Register(db, email, password, id, token, now).0;
            Inv(db') && Evolves(db, db')
  {
    hide GoodUsers, GoodKeys, Evolves;
    NothingEvolves(db);
    if UserByEmail(db, email).NoRow? {
      AddUser(db, NewUser(id, email, password).(verificationToken := Some(token), verificationSentAt := Some(now)), db.tokens[token := now]);
    }
  }

  lemma {:induction false} LoginKeeps(db: Db, email: Email, password: Password, now: real)
    requires Inv(db)
    ensures var db' := Login(db, email, password, now).0;
            Inv(db') && Evolves(db, db')
  {
    hide GoodUsers, GoodKeys, Evolves;
    NothingEvolves(db);
    var found := UserByEmail(db, email);
    if found.Row? && Login(db, email, password, now).1.Ok? {
      AddSession(db, db.users[found.at].id, now);
    }
  }

  lemma {:induction false} SsoKeeps(db: Db, step: Step)
    requires Inv(db) && Enabled(db, step) && step.StepSso?
    ensures Inv(Apply(db, step)) && Evolves(db, Apply(db, step))
  {
    hide GoodUsers, GoodKeys, Evolves;
    NothingEvolves(db);
    if step.identity.Some? {
      var (google, email) := step.identity.value;
      var found := OneRow(db.users, (u: User) => u.googleId == Some(google) || u.email == email);
      if found.NoRow? {
        var u := NewUser(step.id, email, step.password).(googleId := Some(google), isVerified := true);
        AddUser(db, u, db.tokens);
        var mid := db.(users := db.users + [u]);
        assert mid.users[|db.users|] == u;
        AddSession(mid, step.id, step.now);
        EvolvesThenSession(db, mid, step.id, step.now);
      } else if found.Row? && db.users[found.at].isActive {
        var u := db.users[found.at];
        var u' := u.(googleId := if u.googleId.None? then Some(google) else u.googleId, isVerified := true);
        UserIsGood(db, found.at);
        ReplaceUser(db, found.at, u', db.tokens);
        var mid := db.(users := db.users[found.at := u']);
        assert mid.users[found.at].isVerified;
        AddSession(mid, u.id, step.now);
        EvolvesThenSession(db, mid, u.id, step.now);
      }
    }
  }

  lemma {:induction false} VerifyKeeps(db: Db, step: Step)
    requires Inv(db) && step.StepVerify?
    ensures Inv(Apply(db, step)) && Evolves(db, Apply(db, step))
  {
    hide GoodUsers, GoodKeys, Evolves;
    NothingEvolves(db);
    var found := OneRow(db.users, (u: User) => u.verificationToken == Some(step.token));
    if found.Row? && VerifyEmailToken(db, step.token, step.now).1.Ok? {
      var u := db.users[found.at];
      var u' := u.(isVerified := true, verificationToken := None, verificationSentAt := None);
      UserIsGood(db, found.at);
      ReplaceUser(db, found.at, u', db.tokens);
      var mid := db.(users := db.users[found.at := u']);
      assert mid.users[found.at].isVerified;
      AddSession(mid, u.id, step.now);
      EvolvesThenSession(db, mid, u.id, step.now);
    }
  }

  lemma {:induction false} ForgotKeeps(db: Db, step: Step)
    requires Inv(db) && Enabled(db, step) && step.StepForgot?
    ensures Inv(Apply(db, step)) && Evolves(db, Apply(db, step))
  {
    hide GoodUsers, GoodKeys, Evolves;
    NothingEvolves(db);
    var found := UserByEmail(db, step.email);
    if found.Row? {
      UserIsGood(db, found.at);
      ReplaceUser(db, found.at, db.users[found.at].(resetToken := Some(step.token), resetExpiresAt := Some(step.now + HOUR)), db.tokens[step.token := step.now]);
    }
  }

  lemma {:induction false} ResetKeeps(db: Db, step: Step)
    requires Inv(db) && step.StepReset?
    ensures Inv(Apply(db, step)) && Evolves(db, Apply(db, step))
  {
    hide GoodUsers, GoodKeys, Evolves;
    NothingEvolves(db);
    var found := OneRow(db.users, (u: User) => u.resetToken == Some(step.token));
    if found.Row? && ResetPassword(db, step.token, step.password, step.now).1.Ok? {
      UserIsGood(db, found.at);
      ReplaceUser(db, found.at, db.users[found.at].(passwordHash := Bcrypt(step.password), resetToken := None, resetExpiresAt := None), db.tokens);
    }
  }

  /** Every service keeps the invariant and changes the tables only as they may change. */
  lemma {:induction false} StepKeeps(db: Db, step: Step)
    requires Inv(db) && Enabled(db, step)
    ensures Inv(Apply(db, step)) && Evolves(db, Apply(db, step))
  {
    hide Inv, Evolves, Register, Login;
    match step
    case StepSeed(_, _, _) => SeedKeeps(db, step);
    case StepRole(_, _, _, _) => RoleKeeps(db, step);
    case StepCreateOrg(_, _, _) => CreateOrgKeeps(db, step);
    case StepDeleteOrg(_) => DeleteOrgKeeps(db, step);
    case StepCreate(_, _, _, _, _, _) => CreateKeeps(db, step);
    case StepRotate(_, _, _) => RotateKeeps(db, step);
    case StepRevoke(_, _, _) => RevokeKeeps(db, step);
    case StepCall(_, _) => CallKeeps(db, step);
    case StepInvite(_, _, _, _) => InviteKeeps(db, step);
    case StepRemove(_, _, _, _) => RemoveKeeps(db, step);
    case StepRegister(email, password, id, token, now) => RegisterKeeps(db, email, password, id, token, now);
    case StepLogin(email, password, now) => LoginKeeps(db, email, password, now);
    case StepSso(_, _, _, _) => SsoKeeps(db, step);
    case StepUnified(email, password, id, token, now) =>
      RegisterKeeps(db, email, password, id, token, now);
      LoginKeeps(db, email, password, now);
    case StepVerify(_, _) => VerifyKeeps(db, step);
    case StepForgot(_, _, _) => ForgotKeeps(db, step);
    case StepReset(_, _, _) => ResetKeeps(db, step);
  }

  lemma {:induction false} RunKeeps(db: Db, steps: seq<Step>)
    requires Inv(db) && CanRun(db, steps)
    ensures Inv(Run(db, steps))
    decreases |steps|
  {
    hide Inv, Evolves, Enabled, Apply;
    if steps != [] {
      StepKeeps(db, steps[0]);
      RunKeeps(Apply(db, steps[0]), steps[1..]);
    }
  }

  // ---------------------------------------------------------------- dead keys

  /** The plaintext was generated, and no active key has it. */
  ghost predicate DeadKey(db: Db, p: nat) {
    p in db.plaintexts && forall i :: 0 <= i < |db.keys| ==> !(db.keys[i].isActive && db.keys[i].keyHash == Sha256(Plaintext(p)))
  }

  lemma {:induction false} DeadKeyStaysDead(db: Db, steps: seq<Step>, p: nat)
    requires Inv(db) && CanRun(db, steps) && DeadKey(db, p)
    ensures DeadKey(Run(db, steps), p)
    decreases |steps|
  {
    hide Inv, Enabled, Apply;
    if steps != [] {
      var db' := Apply(db, steps[0]);
      StepKeeps(db, steps[0]);
      forall i | 0 <= i < |db'.keys| ensures !(db'.keys[i].isActive && db'.keys[i].keyHash == Sha256(Plaintext(p))) {
        if i < |db.keys| {
          assert KeyEvolves(db.keys[i], db'.keys[i], db.plaintexts);
        }
      }
      DeadKeyStaysDead(db', steps[1..], p);
    }
  }

  /** The row has the hash, is active, and has no expiry or one that is still to come. */
  ghost predicate Opens(k: ApiKey, raw: Bearer, now: real) {
    k.keyHash == Sha256(raw) && k.isActive && (k.expiresAt == None || now < k.expiresAt.value)
  }

  /** An API key authenticates exactly when an active, unexpired row has its hash, and never finds two. */
  lemma {:induction false} AuthenticationExact(db: Db, raw: Bearer, now: real)
    requires Inv(db)
    ensures var r := AuthenticateByKey(db, raw, now).1;
            && (r.Ok? <==> exists i :: 0 <= i < |db.keys| && Opens(db.keys[i], raw, now))
            && (r.Ok? ==> r.value.keyHash == Sha256(raw) && r.value.isActive && r.value.lastUsedAt == Some(now))
            && (r.Err? ==> r.error == Unauthorized)
  {}

  /**
    The inference endpoints accept a credential exactly when it is a session that `JwtUser` accepts,
    or its hash is that of an active, unexpired key whose owner is active; every refusal is the same.
    So a working key of a deactivated owner is refused.
   */
  lemma {:induction false} InferenceAccessExact(db: Db, bearer: Bearer, now: real)
    requires Inv(db)
    ensures var r := GetApiKeyUser(db, Some(bearer), now).1;
            && (r.Ok? <==>
                  || JwtUser(db, bearer, now).Some?
                  || exists i, j :: 0 <= i < |db.keys| && 0 <= j < |db.users| && OpensWith(db.keys[i], db.users[j], bearer, now))
            && (r.Ok? ==> match r.value.1
                          case None => JwtUser(db, bearer, now) == Some(r.value.0)
                          case Some(key) => OpensWith(key, r.value.0, bearer, now))
            && (r.Ok? ==> r.value.0 in db.users)
            && (r.Err? ==> r.error == Unauthorized)
    ensures GetApiKeyUser(db, None, now) == (db, Err(Unauthorized))
  {
    hide GoodUsers, GoodKeys, AuthenticateByKey, JwtUser;
    AuthenticationExact(db, bearer, now);
    AuthenticationReads(db, bearer, now);
    NoTwoUsers(db);
    var (db', r) := AuthenticateByKey(db, bearer, now);
    if r.Ok? {
      assert UserById(db', r.value.userId) == UserById(db, r.value.userId);
    }
    if JwtUser(db, bearer, now).Some? {
      JwtBranchesAgree(db, bearer, now);
    }
    if i, j :| 0 <= i < |db.keys| && 0 <= j < |db.users| && OpensWith(db.keys[i], db.users[j], bearer, now) {
      OneByHash(db, i);
      assert r.value.userId == db.keys[i].userId;
    }
  }

  /** The key has this hash, is active and unexpired, and belongs to this active user. */
  ghost predicate OpensWith(k: ApiKey, u: User, bearer: Bearer, now: real) {
    Opens(k, bearer, now) && u.id == k.userId && u.isActive
  }

  lemma {:induction false} AuthenticationReads(db: Db, raw: Bearer, now: real)
    ensures var (db', r) := AuthenticateByKey(db, raw, now);
            && db'.users == db.users
            && (r.Ok? ==> Unexpired(r.value, now)
                          && exists i :: 0 <= i < |db.keys| && r.value == db.keys[i].(lastUsedAt := Some(now)) && db.keys[i].keyHash == Sha256(raw))
  {
    hide FirstFrom;
  }

  lemma {:induction false} NoTwoUsers(db: Db)
    requires Inv(db)
    ensures forall id :: !UserById(db, id).SeveralRows?
  {
    hide GoodKeys;
  }

  /** A key id has one working plaintext: two credentials that authenticate as the same key are the same. */
  lemma {:induction false} OneWorkingPlaintext(db: Db, raw: Bearer, now: real, raw': Bearer, now': real)
    requires Inv(db)
    requires AuthenticateByKey(db, raw, now).1.Ok? && AuthenticateByKey(db, raw', now').1.Ok?
    requires AuthenticateByKey(db, raw, now).1.value.id == AuthenticateByKey(db, raw', now').1.value.id
    ensures raw == raw'
  {
    hide GoodUsers, GoodKey;
  }

  /** The step takes the key in row `i` out of service: rotates it, revokes it, or removes its owner. */
  ghost predicate Kills(db: Db, step: Step, i: nat)
    requires i < |db.keys|
  {
    match step
    case StepRotate(caller, key, secret) => key == db.keys[i].id && RotateKey(db, caller, key, secret).1.Ok?
    case StepRevoke(caller, key, now) => key == db.keys[i].id && RevokeKey(db, caller, key, now).1.Ok?
    case StepRemove(caller, org, target, now) => target == db.keys[i].userId && RemoveUserFromOrg(db, caller, org, target, now).1.Ok?
    case _ => false
  }

  lemma {:induction false} KilledIsDead(db: Db, step: Step, i: nat)
    requires Inv(db) && Enabled(db, step) && i < |db.keys| && Kills(db, step, i)
    ensures DeadKey(Apply(db, step), db.keys[i].keyHash.bearer.text)
  {
    hide FirstFrom;
    var p := db.keys[i].keyHash.bearer.text;
    var db' := Apply(db, step);
    KeyIsGood(db, i);
    assert forall j :: 0 <= j < |db.keys| && db.keys[j].keyHash == db.keys[i].keyHash ==> j == i;
    match step
    case StepRotate(_, key, secret) =>
      assert KeyById(db, key) == Row(i);
    case StepRevoke(_, key, _) =>
      assert KeyById(db, key) == Row(i);
    case StepRemove(_, _, _, _) =>
  }

  /**
    Dead credentials stay dead: in any run from a consistent state, such as the empty or the seeded
    tables, once a key is rotated, revoked, or revoked with the removal of its owner, its plaintext
    never authenticates again, whatever follows, a new invitation of the owner included.
   */
  lemma {:induction false} DeadCredentialsStayDead(start: Db, before: seq<Step>, kill: Step, after: seq<Step>, i: nat, now: real)
    requires Inv(start) && CanRun(start, before)
    requires var db := Run(start, before);
             i < |db.keys| && Enabled(db, kill) && Kills(db, kill, i) && CanRun(Apply(db, kill), after)
    ensures var db := Run(start, before);
            db.keys[i].keyHash.bearer.Plaintext?
            && AuthenticateByKey(Run(Apply(db, kill), after), db.keys[i].keyHash.bearer, now).1 == Err(Unauthorized)
  {
    hide GoodUsers, GoodKeys, Apply, Enabled, Kills;
    RunKeeps(start, before);
    var db := Run(start, before);
    KeyIsGood(db, i);
    StepKeeps(db, kill);
    KilledIsDead(db, kill, i);
    DeadKeyStaysDead(Apply(db, kill), after, db.keys[i].keyHash.bearer.text);
    RunKeeps(Apply(db, kill), after);
    AuthenticationExact(Run(Apply(db, kill), after), db.keys[i].keyHash.bearer, now);
  }

  /** No step of the run takes the key in row `i` out of service. */
  ghost predicate NeverKilled(db: Db, steps: seq<Step>, i: nat)
    decreases |steps|
  {
    steps == [] || ((i < |db.keys| ==> !Kills(db, steps[0], i)) && NeverKilled(Apply(db, steps[0]), steps[1..], i))
  }

  /** The two rows are the same key with the same plaintext, in the same state but for the time of its last use. */
  ghost predicate SameKey(k: ApiKey, k': ApiKey) {
    k' == k.(lastUsedAt := k'.lastUsedAt)
  }

  /** The steps that write the key table. */
  predicate WritesKeys(step: Step) {
    step.StepCreate? || step.StepRotate? || step.StepRevoke? || step.StepCall? || step.StepRemove?
  }

  lemma {:induction false} OthersWriteNoKeys(db: Db, step: Step)
    requires !WritesKeys(step)
    ensures Apply(db, step).keys == db.keys
  {
    hide FirstFrom, OneRow;
  }

  lemma {:induction false} CallKeepsKey(db: Db, bearer: Option<Bearer>, now: real, i: nat)
    requires i < |db.keys|
    ensures var db' := GetApiKeyUser(db, bearer, now).0;
            i < |db'.keys| && SameKey(db.keys[i], db'.keys[i])
  {
    hide FirstFrom;
  }

  /** A step that does not kill an active key leaves it as it is. */
  lemma {:induction false} UnkilledIsKept(db: Db, step: Step, i: nat)
    requires i < |db.keys| && db.keys[i].isActive && !Kills(db, step, i)
    ensures var db' := Apply(db, step);
            i < |db'.keys| && SameKey(db.keys[i], db'.keys[i])
  {
    hide FirstFrom, GetApiKeyUser;
    if !WritesKeys(step) {
      OthersWriteNoKeys(db, step);
    } else if step.StepCall? {
      CallKeepsKey(db, step.bearer, step.now, i);
    }
  }

  lemma {:induction false} NeverKilledIsKept(db: Db, steps: seq<Step>, i: nat)
    requires i < |db.keys| && db.keys[i].isActive && NeverKilled(db, steps, i)
    ensures i < |Run(db, steps).keys| && SameKey(db.keys[i], Run(db, steps).keys[i])
    decreases |steps|
  {
    hide Apply, Kills;
    if steps != [] {
      UnkilledIsKept(db, steps[0], i);
      NeverKilledIsKept(Apply(db, steps[0]), steps[1..], i);
    }
  }

  lemma {:induction false} KilledOnceIsDead(db: Db, steps: seq<Step>, i: nat)
    requires Inv(db) && CanRun(db, steps) && i < |db.keys| && db.keys[i].isActive && !NeverKilled(db, steps, i)
    ensures DeadKey(Run(db, steps), db.keys[i].keyHash.bearer.text)
    decreases |steps|
  {
    hide Inv, Enabled, Apply, Kills, DeadKey;
    StepKeeps(db, steps[0]);
    KeyIsGood(db, i);
    if Kills(db, steps[0], i) {
      KilledIsDead(db, steps[0], i);
      DeadKeyStaysDead(Apply(db, steps[0]), steps[1..], db.keys[i].keyHash.bearer.text);
    } else {
      UnkilledIsKept(db, steps[0], i);
      KilledOnceIsDead(Apply(db, steps[0]), steps[1..], i);
    }
  }

  /**
    The life of a key, exactly: at the end of any run the plaintext of a key that was active at its
    start authenticates if and only if no step rotated it, revoked it or removed its owner, and it
    has not expired.
   */
  lemma {:induction false} KeyLife(db: Db, steps: seq<Step>, i: nat, now: real)
    requires Inv(db) && CanRun(db, steps) && i < |db.keys| && db.keys[i].isActive
    ensures AuthenticateByKey(Run(db, steps), db.keys[i].keyHash.bearer, now).1.Ok?
            <==> NeverKilled(db, steps, i) && Opens(db.keys[i], db.keys[i].keyHash.bearer, now)
  {
    hide GoodUsers, GoodKeys, Apply, Enabled, AuthenticateByKey, NeverKilled;
    var db' := Run(db, steps);
    KeyIsGood(db, i);
    RunKeeps(db, steps);
    AuthenticationExact(db', db.keys[i].keyHash.bearer, now);
    if NeverKilled(db, steps, i) {
      NeverKilledIsKept(db, steps, i);
      OneByHash(db', i);
    } else {
      KilledOnceIsDead(db, steps, i);
    }
  }

  /** The empty tables are consistent, and so are those that hold the seeded super admin. */
  lemma {:induction false} StartsAreGood(email: Email, password: Password, id: UserId)
    ensures Inv(EMPTY) && Inv(SeedAdmin(EMPTY, email, password, id))
  {}

  // ---------------------------------------------------------------- verified users and their sessions

  lemma {:induction false} VerificationNeverReverts(db: Db, steps: seq<Step>, id: UserId)
    requires Inv(db) && CanRun(db, steps) && VerifiedUser(db.users, id)
    ensures VerifiedUser(Run(db, steps).users, id)
    decreases |steps|
  {
    hide GoodUsers, GoodKeys, Enabled, Apply;
    if steps != [] {
      var db' := Apply(db, steps[0]);
      StepKeeps(db, steps[0]);
      var i :| 0 <= i < |db.users| && db.users[i].id == id && db.users[i].isVerified;
      assert UserEvolves(db.users[i], db'.users[i], db.tokens);
      VerificationNeverReverts(db', steps[1..], id);
    }
  }

  /** A session decodes to one row, that of a verified user. */
  lemma {:induction false} SessionUser(db: Db, bearer: Bearer, now: real) returns (i: nat)
    requires Inv(db) && Decodes(db, bearer, now)
    ensures i < |db.users| && UserById(db, bearer.session.user) == Row(i) && db.users[i].isVerified
  {
    var k :| 0 <= k < |db.users| && db.users[k].id == bearer.session.user && db.users[k].isVerified;
    var found := UserById(db, bearer.session.user);
    i := found.at;
  }

  /**
    The inference endpoints do not look at `is_verified`, and need not: in a reachable state their
    JWT branch accepts the same credentials as the account endpoints, for the same user, and both
    accept a session exactly until it expires or its user is deactivated.
   */
  lemma {:induction false} JwtBranchesAgree(db: Db, bearer: Bearer, now: real)
    requires Inv(db)
    ensures JwtUser(db, bearer, now).Some? <==> GetCurrentUser(db, Some(bearer), now).Ok?
    ensures JwtUser(db, bearer, now).Some? ==>
      var u := JwtUser(db, bearer, now).value;
      GetCurrentUser(db, Some(bearer), now) == Ok(u) && u in db.users && u.id == bearer.session.user
    ensures JwtUser(db, bearer, now).None? ==> GetCurrentUser(db, Some(bearer), now) == Err(Unauthorized)
    ensures GetCurrentUser(db, None, now) == Err(Unauthorized)
    ensures JwtUser(db, bearer, now).Some? <==>
      bearer.Jwt? && bearer.session in db.sessions && now <= bearer.session.expiresAt && exists i :: 0 <= i < |db.users| && db.users[i].id == bearer.session.user && db.users[i].isActive
  {
    if Decodes(db, bearer, now) {
      var i := SessionUser(db, bearer, now);
    }
  }

  /**
    A password reset ends no session, although requirement FR-007 wants it to end all: every
    credential that was accepted before it is accepted after it, and no other.
   */
  lemma {:induction false} ResetEndsNoSession(db: Db, token: Token, password: Password, at: real, bearer: Bearer, now: real)
    requires Inv(db)
    ensures GetCurrentUser(ResetPassword(db, token, password, at).0, Some(bearer), now).Ok?
            <==> GetCurrentUser(db, Some(bearer), now).Ok?
  {
    hide Inv, GoodUsers, GoodKeys, GetCurrentUser, JwtUser, Evolves;
    var step := StepReset(token, password, at);
    var db' := ResetPassword(db, token, password, at).0;
    StepKeeps(db, step);
    JwtBranchesAgree(db, bearer, now);
    JwtBranchesAgree(db', bearer, now);
    assert |db'.users| == |db.users|;
    forall i | 0 <= i < |db.users| ensures db'.users[i].id == db.users[i].id && db'.users[i].isActive == db.users[i].isActive {}
    assert Decodes(db', bearer, now) <==> Decodes(db, bearer, now);
  }

  lemma {:induction false} RunStep(db: Db, step: Step, steps: seq<Step>)
    ensures Run(db, [step] + steps) == Run(Apply(db, step), steps)
    ensures CanRun(db, [step] + steps) <==> Enabled(db, step) && CanRun(Apply(db, step), steps)
  {
    assert ([step] + steps)[1..] == steps;
  }

  lemma {:induction false} RunOfNothing(db: Db)
    ensures Run(db, []) == db && CanRun(db, [])
  {}

  // ---------------------------------------------------------------- super admins

  lemma {:induction false} NewRowsAreNoSuperAdmins(db: Db, step: Step, i: nat)
    requires |db.users| <= i < |Apply(db, step).users| && Apply(db, step).users[i].role == SuperAdmin
    ensures step.StepSeed? && Apply(db, step).users[i].id == step.id && Apply(db, step).users[i].email == step.email
  {
    hide FirstFrom, OneRow;
  }

  /** The run seeds this account. */
  ghost predicate Seeds(steps: seq<Step>, u: User) {
    exists k :: 0 <= k < |steps| && steps[k].StepSeed? && steps[k].id == u.id && steps[k].email == u.email
  }

  /**
    Nobody is promoted: at the end of any run a super admin is one that was a super admin at its
    start, or one that the start of the application seeded on the way.
   */
  lemma {:induction false} SuperAdminsAreSeeded(db: Db, steps: seq<Step>, i: nat)
    requires Inv(db) && CanRun(db, steps)
    requires i < |Run(db, steps).users| && Run(db, steps).users[i].role == SuperAdmin
    ensures (i < |db.users| && db.users[i].role == SuperAdmin && db.users[i].id == Run(db, steps).users[i].id)
            || Seeds(steps, Run(db, steps).users[i])
    decreases |steps|
  {
    hide Inv, Enabled, Apply;
    if steps != [] {
      var db', rest, u := Apply(db, steps[0]), steps[1..], Run(db, steps).users[i];
      StepKeeps(db, steps[0]);
      RowsKeepNames(db', rest);
      SuperAdminsAreSeeded(db', rest, i);
      if Seeds(rest, u) {
        var k :| 0 <= k < |rest| && rest[k].StepSeed? && rest[k].id == u.id && rest[k].email == u.email;
        assert steps[k + 1] == rest[k];
      } else if i < |db.users| {
        assert UserEvolves(db.users[i], db'.users[i], db.tokens);
      } else {
        NewRowsAreNoSuperAdmins(db, steps[0], i);
      }
    }
  }

  lemma {:induction false} RowsKeepNames(db: Db, steps: seq<Step>)
    requires Inv(db) && CanRun(db, steps)
    ensures |db.users| <= |Run(db, steps).users|
    ensures forall i :: 0 <= i < |db.users| ==>
      Run(db, steps).users[i].id == db.users[i].id && Run(db, steps).users[i].email == db.users[i].email
    decreases |steps|
  {
    hide Inv, Enabled, Apply;
    if steps != [] {
      var db' := Apply(db, steps[0]);
      StepKeeps(db, steps[0]);
      RowsKeepNames(db', steps[1..]);
      forall i | 0 <= i < |db.users| ensures db'.users[i].id == db.users[i].id && db'.users[i].email == db.users[i].email {
        assert UserEvolves(db.users[i], db'.users[i], db.tokens);
      }
    }
  }

  // ---------------------------------------------------------------- one-shot tokens

  /** The token was generated, and no row holds it for verification. */
  ghost predicate SpentVerification(db: Db, t: Token) {
    t in db.tokens && forall i :: 0 <= i < |db.users| ==> db.users[i].verificationToken != Some(t)
  }

  ghost predicate SpentReset(db: Db, t: Token) {
    t in db.tokens && forall i :: 0 <= i < |db.users| ==> db.users[i].resetToken != Some(t)
  }

  lemma {:induction false} SpentStaysSpent(db: Db, steps: seq<Step>, t: Token)
    requires Inv(db) && CanRun(db, steps)
    ensures SpentVerification(db, t) ==> SpentVerification(Run(db, steps), t)
    ensures SpentReset(db, t) ==> SpentReset(Run(db, steps), t)
    decreases |steps|
  {
    hide Inv, Enabled, Apply;
    if steps != [] {
      var db' := Apply(db, steps[0]);
      StepKeeps(db, steps[0]);
      forall i | 0 <= i < |db'.users|
        ensures SpentVerification(db, t) ==> db'.users[i].verificationToken != Some(t)
        ensures SpentReset(db, t) ==> db'.users[i].resetToken != Some(t)
      {
        if i < |db.users| {
          assert UserEvolves(db.users[i], db'.users[i], db.tokens);
        }
      }
      SpentStaysSpent(db', steps[1..], t);
    }
  }

  /** A verification token is accepted exactly while a row holds it and a day has not passed since it was generated. */
  lemma {:induction false} VerificationExact(db: Db, t: Token, now: real)
    requires Inv(db)
    ensures var r := VerifyEmailToken(db, t, now).1;
            && (r.Ok? <==> (exists i :: 0 <= i < |db.users| && db.users[i].verificationToken == Some(t)) && now - db.tokens[t] <= 86400.0)
            && (r.Err? ==> r.error == Unauthorized)
  {
    OneHolder(db, t);
    if i :| 0 <= i < |db.users| && db.users[i].verificationToken == Some(t) {
      UserIsGood(db, i);
    }
  }

  /** A reset token is accepted exactly while a row holds it and an hour has not passed since it was generated. */
  lemma {:induction false} ResetExact(db: Db, t: Token, password: Password, now: real)
    requires Inv(db)
    ensures var r := ResetPassword(db, t, password, now).1;
            && (r.Ok? <==> (exists i :: 0 <= i < |db.users| && db.users[i].resetToken == Some(t)) && now - db.tokens[t] <= 3600.0)
            && (r.Err? ==> r.error == Unauthorized)
  {
    OneHolder(db, t);
    if i :| 0 <= i < |db.users| && db.users[i].resetToken == Some(t) {
      UserIsGood(db, i);
    }
  }

  lemma {:induction false} OneHolder(db: Db, t: Token)
    requires Inv(db)
    ensures !OneRow(db.users, (u: User) => u.verificationToken == Some(t)).SeveralRows?
    ensures !OneRow(db.users, (u: User) => u.resetToken == Some(t)).SeveralRows?
    ensures (exists i :: 0 <= i < |db.users| && (db.users[i].verificationToken == Some(t) || db.users[i].resetToken == Some(t))) ==> t in db.tokens
  {
    forall i, j | 0 <= i < j < |db.users|
      ensures !(db.users[i].verificationToken == Some(t) && db.users[j].verificationToken == Some(t))
      ensures !(db.users[i].resetToken == Some(t) && db.users[j].resetToken == Some(t))
    {
      assert Apart(db.users[i], db.users[j]);
    }
  }

  /** A verification token works once: after it has, it is refused in every later state. */
  lemma {:induction false} VerificationTokenWorksOnce(db: Db, t: Token, at: real, after: seq<Step>, now: real)
    requires Inv(db) && VerifyEmailToken(db, t, at).1.Ok? && CanRun(VerifyEmailToken(db, t, at).0, after)
    ensures VerifyEmailToken(Run(VerifyEmailToken(db, t, at).0, after), t, now).1 == Err(Unauthorized)
  {
    hide Inv, GoodUsers, GoodKeys, Evolves, SpentReset, FirstFrom;
    var db' := VerifyEmailToken(db, t, at).0;
    OneHolder(db, t);
    StepKeeps(db, StepVerify(t, at));
    assert SpentVerification(db', t);
    SpentStaysSpent(db', after, t);
  }

  lemma {:induction false} ResetTokenWorksOnce(db: Db, t: Token, password: Password, at: real, after: seq<Step>, password': Password, now: real)
    requires Inv(db) && ResetPassword(db, t, password, at).1.Ok? && CanRun(ResetPassword(db, t, password, at).0, after)
    ensures ResetPassword(Run(ResetPassword(db, t, password, at).0, after), t, password', now).1 == Err(Unauthorized)
  {
    hide Inv, GoodUsers, GoodKeys, Evolves, SpentVerification, FirstFrom;
    var db' := ResetPassword(db, t, password, at).0;
    OneHolder(db, t);
    StepKeeps(db, StepReset(t, password, at));
    assert SpentReset(db', t);
    SpentStaysSpent(db', after, t);
  }

  /** Asking again kills the older reset token: it is refused in every later state. */
  lemma {:induction false} NewerResetTokenKillsOlder(db: Db, i: nat, newer: Token, at: real, after: seq<Step>, password: Password, now: real)
    requires Inv(db) && i < |db.users| && db.users[i].resetToken.Some? && newer !in db.tokens
    requires CanRun(ForgotPassword(db, db.users[i].email, newer, at).0, after)
    ensures var db' := Run(ForgotPassword(db, db.users[i].email, newer, at).0, after);
            ResetPassword(db', db.users[i].resetToken.value, password, now).1 == Err(Unauthorized)
  {
    hide FirstFrom, GoodKeys, GoodUser, Evolves;
    var older, email := db.users[i].resetToken.value, db.users[i].email;
    var db' := ForgotPassword(db, email, newer, at).0;
    UserIsGood(db, i);
    forall j | 0 <= j < |db.users| && j != i ensures db.users[j].resetToken != Some(older) {
      if j < i {
        assert Apart(db.users[j], db.users[i]);
      } else {
        assert Apart(db.users[i], db.users[j]);
      }
    }
    OneByEmail(db, i);
    StepKeeps(db, StepForgot(email, newer, at));
    assert SpentReset(db', older);
    SpentStaysSpent(db', after, older);
  }

  // ---------------------------------------------------------------- what was handed out works

  /** A plaintext that was just created or rotated in authenticates as its key, exactly until the key expires. */
  lemma {:induction false} IssuedKeyWorks(db: Db, step: Step, key: ApiKey, now: real)
    requires Inv(db) && Enabled(db, step) && (step.StepCreate? || step.StepRotate?)
    requires key in Apply(db, step).keys && key.keyHash == Sha256(Plaintext(step.secret))
    ensures var r := AuthenticateByKey(Apply(db, step), Plaintext(step.secret), now).1;
            if Opens(key, Plaintext(step.secret), now) then r == Ok(key.(lastUsedAt := Some(now))) else r == Err(Unauthorized)
    ensures key.id == if step.StepCreate? then step.id else step.key
    ensures step.StepCreate? ==> key.userId == step.owner && key.orgId == Some(step.org)
  {
    hide FirstFrom, Evolves, Inv, GoodUsers, GoodKeys, GoodKey, AuthenticateByKey;
    StepKeeps(db, step);
    var db' := Apply(db, step);
    var i :| 0 <= i < |db'.keys| && db'.keys[i] == key;
    assert forall j :: 0 <= j < |db.keys| ==> db.keys[j].keyHash != key.keyHash by {
      forall j | 0 <= j < |db.keys| ensures db.keys[j].keyHash != key.keyHash {
        NotTheSecret(db, j, step.secret);
      }
    }
    AnswersByHash(db', i, Plaintext(step.secret), now);
  }

  /** The row with the hash of a credential decides what authentication answers. */
  lemma {:induction false} AnswersByHash(db: Db, i: nat, raw: Bearer, now: real)
    requires Inv(db) && i < |db.keys| && db.keys[i].keyHash == Sha256(raw) && db.keys[i].isActive
    ensures AuthenticateByKey(db, raw, now).1
            == if Unexpired(db.keys[i], now) then Ok(db.keys[i].(lastUsedAt := Some(now))) else Err(Unauthorized)
  {
    hide FirstFrom, Inv;
    OneByHash(db, i);
  }

  lemma {:induction false} NotTheSecret(db: Db, i: nat, secret: nat)
    requires Inv(db) && i < |db.keys| && secret !in db.plaintexts
    ensures db.keys[i].keyHash != Sha256(Plaintext(secret))
  {
    KeyIsGood(db, i);
  }

  lemma {:induction false} OneByHash(db: Db, i: nat)
    requires Inv(db) && i < |db.keys|
    ensures forall j :: 0 <= j < |db.keys| && j != i ==> db.keys[j].keyHash != db.keys[i].keyHash
  {
    hide GoodUsers, GoodKey;
  }

  /** After a reset only the new password logs in, and only an active, verified user. */
  lemma {:induction false} ResetThenLogin(db: Db, token: Token, password: Password, at: real, i: nat, tried: Password, now: real)
    requires Inv(db) && ResetPassword(db, token, password, at).1.Ok?
    requires i < |db.users| && db.users[i].resetToken == Some(token)
    ensures Login(ResetPassword(db, token, password, at).0, db.users[i].email, tried, now).1.Ok?
            <==> tried == password && db.users[i].isActive && db.users[i].isVerified
  {
    hide FirstFrom;
    var db' := ResetPassword(db, token, password, at).0;
    StepKeeps(db, StepReset(token, password, at));
    OneByEmail(db', i);
  }

  lemma {:induction false} OneByEmail(db: Db, i: nat)
    requires Inv(db) && i < |db.users|
    ensures UserByEmail(db, db.users[i].email) == Row(i)
  {
    forall j | 0 <= j < |db.users| && j != i ensures db.users[j].email != db.users[i].email {
      if j < i {
        assert Apart(db.users[j], db.users[i]);
      } else {
        assert Apart(db.users[i], db.users[j]);
      }
    }
  }

  /** The session that a verification hands out opens the account of the token's holder, if it is active. */
  lemma {:induction false} VerifiedSessionOpens(db: Db, token: Token, i: nat, at: real)
    requires Inv(db) && i < |db.users| && db.users[i].verificationToken == Some(token) && VerifyEmailToken(db, token, at).1.Ok?
    ensures var (db', r) := VerifyEmailToken(db, token, at);
            r.value == Session(db.users[i].id, at + 3600.0)
            && (GetCurrentUser(db', Some(Jwt(r.value)), at).Ok? <==> db.users[i].isActive)
  {
    hide Evolves, GetCurrentUser, JwtUser, FirstFrom;
    var (db', r) := VerifyEmailToken(db, token, at);
    StepKeeps(db, StepVerify(token, at));
    JwtBranchesAgree(db', Jwt(r.value), at);
    assert db'.users[i].id == r.value.user;
    forall j | 0 <= j < |db'.users| && j != i ensures db'.users[j].id != r.value.user {
      if j < i {
        assert Apart(db'.users[j], db'.users[i]);
      } else {
        assert Apart(db'.users[i], db'.users[j]);
      }
    }
  }
}

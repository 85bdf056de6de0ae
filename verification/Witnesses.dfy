/** Runs from the empty tables that show two failing properties at a reachable state. */
module Witnesses {
  import opened Wrappers
  import opened Accounts
  import opened Credentials
  import opened KeyListing

  // ---------------------------------------------------------------- runs that the routes allow

  /** Some session opens the account of this row. */
  ghost predicate SignedIn(db: Db, u: User, now: real) {
    exists s :: s in db.sessions && GetCurrentUser(db, Some(Jwt(s)), now) == Ok(u)
  }

  /** The guards of the routes: the caller is signed in, and of the role and organisation they ask for. */
  ghost predicate RouteAllows(db: Db, step: Step, now: real) {
    match step
    case StepInvite(caller, org, _, _) =>
      SignedIn(db, caller, now) && (caller.role == SuperAdmin || (caller.role == OrgAdmin && caller.orgId == Some(org)))
    case StepCreate(caller, _, org, _, _, _) => SignedIn(db, caller, now) && caller.orgId == Some(org)
    case StepCreateOrg(creator, _, _) => exists u :: SignedIn(db, u, now) && u.role == SuperAdmin && creator == Some(u.id)
    case _ => step.StepSeed? || step.StepRegister? || step.StepLogin? || step.StepVerify? || step.StepForgot? || step.StepReset?
  }

  /** Every step can be taken and passes the routes, at a time at which all sessions are still open. */
  ghost predicate Allowed(db: Db, steps: seq<Step>, now: real)
    decreases |steps|
  {
    steps == [] || (Enabled(db, steps[0]) && RouteAllows(db, steps[0], now) && Allowed(Apply(db, steps[0]), steps[1..], now))
  }

  ghost predicate Reaches(steps: seq<Step>, db: Db, now: real) {
    Allowed(EMPTY, steps, now) && Run(EMPTY, steps) == db
  }

  lemma {:induction false} AppendStep(db: Db, steps: seq<Step>, step: Step, now: real)
    requires Allowed(db, steps, now) && Enabled(Run(db, steps), step) && RouteAllows(Run(db, steps), step, now)
    ensures Allowed(db, steps + [step], now) && Run(db, steps + [step]) == Apply(Run(db, steps), step)
    decreases |steps|
  {
    hide Enabled, RouteAllows, Apply;
    if steps == [] {
      assert [] + [step] == [step] && [step][1..] == [];
    } else {
      AppendStep(Apply(db, steps[0]), steps[1..], step, now);
      assert (steps + [step])[1..] == steps[1..] + [step];
    }
  }

  lemma {:induction false} ReachNext(steps: seq<Step>, db: Db, step: Step, next: Db, now: real)
    requires Reaches(steps, db, now) && Enabled(db, step) && RouteAllows(db, step, now) && Apply(db, step) == next
    ensures Reaches(steps + [step], next, now)
  {
    hide Enabled, RouteAllows, Apply;
    AppendStep(EMPTY, steps, step, now);
  }

  lemma {:induction false} NothingReaches()
    ensures Reaches([], EMPTY, 4.0)
  {}

  // ---------------------------------------------------------------- the steps of a one-account run

  lemma {:induction false} OneOf<T>(row: T, p: T -> bool)
    ensures OneRow([row], p) == if p(row) then Row(0) else NoRow
  {}

  lemma {:induction false} RegisterFirst(email: Email, password: Password, id: UserId, token: Token, now: real)
    ensures var u := NewUser(id, email, password).(verificationToken := Some(token), verificationSentAt := Some(now));
            Apply(EMPTY, StepRegister(email, password, id, token, now)) == Db([u], [], map[], {}, map[token := now], {})
  {}

  lemma {:induction false} VerifyOnly(db: Db, u: User, token: Token, now: real)
    requires db.users == [u] && u.verificationToken == Some(token) && u.verificationSentAt == Some(0.0) && now <= DAY
    ensures Apply(db, StepVerify(token, now))
            == db.(users := [u.(isVerified := true, verificationToken := None, verificationSentAt := None)],
                   sessions := db.sessions + {Session(u.id, now + HOUR)})
  {
    OneOf(u, (v: User) => v.verificationToken == Some(token));
  }

  lemma {:induction false} ForgotOnly(db: Db, u: User, token: Token, now: real)
    requires db.users == [u]
    ensures Apply(db, StepForgot(u.email, token, now))
            == db.(users := [u.(resetToken := Some(token), resetExpiresAt := Some(now + HOUR))], tokens := db.tokens[token := now])
  {
    OneOf(u, (v: User) => v.email == u.email);
  }

  lemma {:induction false} ResetOnly(db: Db, u: User, token: Token, password: Password, expires: real, now: real)
    requires db.users == [u] && u.resetToken == Some(token) && u.resetExpiresAt == Some(expires) && now <= expires
    ensures ResetPassword(db, token, password, now)
            == (db.(users := [u.(passwordHash := Bcrypt(password), resetToken := None, resetExpiresAt := None)]), Ok(()))
  {
    OneOf(u, (v: User) => v.resetToken == Some(token));
    var u' := u.(passwordHash := Bcrypt(password), resetToken := None, resetExpiresAt := None);
    assert db.users[0 := u'] == [u'];
  }

  lemma {:induction false} CurrentOnly(db: Db, u: User, session: Session, now: real)
    requires db.users == [u] && u.id == session.user && u.isActive && u.isVerified
    requires session in db.sessions && now <= session.expiresAt
    ensures GetCurrentUser(db, Some(Jwt(session)), now) == Ok(u)
  {
    OneOf(u, (v: User) => v.id == session.user);
  }

  // ---------------------------------------------------------------- a reset

  const FRESH: User := NewUser(0, 7, 1).(verificationToken := Some(10), verificationSentAt := Some(0.0))
  const MEMBER: User := NewUser(0, 7, 1).(isVerified := true)
  const SESSION: Session := Session(0, 1.0 + HOUR)

  /** Register, verify, ask for a reset. */
  const RESETTING: seq<Step> := [StepRegister(7, 1, 0, 10, 0.0)] + [StepVerify(10, 1.0)] + [StepForgot(7, 11, 2.0)]

  lemma {:induction false} ResettingReaches()
    ensures Reaches([StepRegister(7, 1, 0, 10, 0.0)], Db([FRESH], [], map[], {}, map[10 := 0.0], {}), 4.0)
    ensures Reaches(RESETTING, Db([MEMBER.(resetToken := Some(11), resetExpiresAt := Some(2.0 + HOUR))], [], map[], {},
                                  map[10 := 0.0, 11 := 2.0], {SESSION}), 4.0)
  {
    hide Apply, Reaches;
    var s1, s2, s3 := StepRegister(7, 1, 0, 10, 0.0), StepVerify(10, 1.0), StepForgot(7, 11, 2.0);
    var db1, db2 := Db([FRESH], [], map[], {}, map[10 := 0.0], {}), Db([MEMBER], [], map[], {}, map[10 := 0.0], {SESSION});
    NothingReaches();
    RegisterFirst(7, 1, 0, 10, 0.0);
    ReachNext([], EMPTY, s1, db1, 4.0);
    assert [] + [s1] == [s1];
    VerifyOnly(db1, FRESH, 10, 1.0);
    ReachNext([s1], db1, s2, db2, 4.0);
    ForgotOnly(db2, MEMBER, 11, 2.0);
    ReachNext([s1] + [s2], db2, s3, Apply(db2, s3), 4.0);
  }

  /** The reset succeeds, and the session that the verification handed out is still accepted. */
  lemma {:induction false} SessionSurvivesReset()
    ensures var db := Run(EMPTY, RESETTING);
            Allowed(EMPTY, RESETTING, 4.0)
            && VerifyEmailToken(Run(EMPTY, RESETTING[..1]), 10, 1.0).1 == Ok(SESSION)
            && ResetPassword(db, 11, 2, 3.0).1.Ok?
            && GetCurrentUser(ResetPassword(db, 11, 2, 3.0).0, Some(Jwt(SESSION)), 4.0).Ok?
  {
    hide ResetPassword, GetCurrentUser, Run, Allowed, Apply;
    var db := Run(EMPTY, RESETTING);
    ResettingReaches();
    assert RESETTING[..1] == [StepRegister(7, 1, 0, 10, 0.0)];
    OneOf(FRESH, (v: User) => v.verificationToken == Some(10));
    ResetOnly(db, db.users[0], 11, 2, 2.0 + HOUR, 3.0);
    CurrentOnly(ResetPassword(db, 11, 2, 3.0).0, MEMBER.(passwordHash := Bcrypt(2)), SESSION, 4.0);
  }

  // ---------------------------------------------------------------- a member who changes organisation

  lemma {:induction false} OneOfTwo<T>(a: T, b: T, p: T -> bool)
    ensures p(a) && !p(b) ==> OneRow([a, b], p) == Row(0)
    ensures !p(a) && p(b) ==> OneRow([a, b], p) == Row(1)
    ensures !p(a) && !p(b) ==> OneRow([a, b], p) == NoRow
  {
    hide FirstFrom;
    var rows := [a, b];
    assert rows[0] == a && rows[1] == b;
  }

  lemma {:induction false} SeedFirst(email: Email, password: Password, id: UserId)
    ensures Apply(EMPTY, StepSeed(email, password, id))
            == Db([NewUser(id, email, password).(role := SuperAdmin, isVerified := true)], [], map[], {}, map[], {})
  {}

  lemma {:induction false} LoginOnly(db: Db, root: User, password: Password, now: real)
    requires db.users == [root] && root.passwordHash == Bcrypt(password) && root.isActive && root.isVerified
    ensures Apply(db, StepLogin(root.email, password, now)) == db.(sessions := db.sessions + {Session(root.id, now + HOUR)})
  {
    OneOf(root, (v: User) => v.email == root.email);
  }

  lemma {:induction false} OrgBySuperAdmin(db: Db, root: User, org: OrgId, slug: Slug)
    requires db.users == [root] && root.role == SuperAdmin && slug !in db.orgs.Values
    ensures Apply(db, StepCreateOrg(Some(root.id), org, slug)) == db.(orgs := db.orgs[org := slug])
  {
    OneOf(root, (v: User) => v.id == root.id);
  }

  lemma {:induction false} RegisterSecond(db: Db, root: User, email: Email, password: Password, id: UserId, token: Token, now: real)
    requires db.users == [root] && root.email != email
    ensures var u := NewUser(id, email, password).(verificationToken := Some(token), verificationSentAt := Some(now));
            Apply(db, StepRegister(email, password, id, token, now)) == db.(users := [root, u], tokens := db.tokens[token := now])
  {
    OneOf(root, (v: User) => v.email == email);
    assert !OneRow(db.users, (v: User) => v.email == email).Row?;
  }

  lemma {:induction false} VerifySecond(db: Db, root: User, u: User, token: Token, now: real)
    requires db.users == [root, u] && root.verificationToken.None?
    requires u.verificationToken == Some(token) && u.verificationSentAt.Some? && now - u.verificationSentAt.value <= DAY
    ensures var u' := u.(isVerified := true, verificationToken := None, verificationSentAt := None);
            Apply(db, StepVerify(token, now)) == db.(users := [root, u'], sessions := db.sessions + {Session(u.id, now + HOUR)})
  {
    OneOfTwo(root, u, (v: User) => v.verificationToken == Some(token));
    var u' := u.(isVerified := true, verificationToken := None, verificationSentAt := None);
    assert db.users[1 := u'] == [root, u'];
  }

  lemma {:induction false} InviteSecond(db: Db, root: User, u: User, org: OrgId)
    requires db.users == [root, u] && root.role == SuperAdmin && root.email != u.email
    requires u.role == Member && u.isActive && u.orgId != Some(org)
    ensures Apply(db, StepInvite(root, org, u.email, Member)) == db.(users := [root, u.(orgId := Some(org))])
  {
    OneOfTwo(root, u, (v: User) => v.email == u.email);
    assert db.users[1 := u.(orgId := Some(org))] == [root, u.(orgId := Some(org))];
  }

  lemma {:induction false} CreateOwn(db: Db, root: User, u: User, org: OrgId, id: KeyId, secret: nat)
    requires db.users == [root, u] && root.id != u.id && db.keys == []
    ensures var k := ApiKey(id, u.id, Some(org), Sha256(Plaintext(secret)), true, None, None, None);
            Apply(db, StepCreate(u, u.id, org, None, id, secret)) == db.(keys := [k], plaintexts := db.plaintexts + {secret})
  {
    OneOfTwo(root, u, (v: User) => v.id == u.id);
  }

  lemma {:induction false} BothSignedIn(db: Db, root: User, u: User, s: Session, t: Session, now: real)
    requires db.users == [root, u] && root.id != u.id && db.sessions == {s, t} && s.user == root.id && t.user == u.id
    requires root.isActive && root.isVerified && u.isActive && u.isVerified && now <= s.expiresAt && now <= t.expiresAt
    ensures SignedIn(db, root, now) && SignedIn(db, u, now)
  {
    OneOfTwo(root, u, (v: User) => v.id == root.id);
    OneOfTwo(root, u, (v: User) => v.id == u.id);
    assert GetCurrentUser(db, Some(Jwt(s)), now) == Ok(root);
    assert GetCurrentUser(db, Some(Jwt(t)), now) == Ok(u);
  }

  const ROOT: User := NewUser(99, 99, 8).(role := SuperAdmin, isVerified := true)
  const NEWCOMER: User := NewUser(0, 7, 1).(verificationToken := Some(10), verificationSentAt := Some(2.0))
  const ROOT_SESSION: Session := Session(99, 1.0 + HOUR)
  const MEMBER_SESSION: Session := Session(0, 3.0 + HOUR)
  const KEY: ApiKey := ApiKey(5, 0, Some(1), Sha256(Plaintext(20)), true, None, None, None)

  /** The super admin signs in and creates two organisations. */
  const SETUP: seq<Step> := [StepSeed(99, 8, 99), StepLogin(99, 8, 1.0), StepCreateOrg(Some(99), 1, 1), StepCreateOrg(Some(99), 2, 2)]

  lemma {:induction false} SetupReaches()
    ensures Reaches(SETUP, Db([ROOT], [], map[1 := 1, 2 := 2], {}, map[], {ROOT_SESSION}), 4.0)
  {
    hide Apply, GetCurrentUser, Reaches;
    var db1, db2 := Db([ROOT], [], map[], {}, map[], {}), Db([ROOT], [], map[], {}, map[], {ROOT_SESSION});
    var db3, db4 := db2.(orgs := map[1 := 1]), db2.(orgs := map[1 := 1, 2 := 2]);
    NothingReaches();
    SeedFirst(99, 8, 99);
    ReachNext([], EMPTY, SETUP[0], db1, 4.0);
    LoginOnly(db1, ROOT, 8, 1.0);
    ReachNext([] + [SETUP[0]], db1, SETUP[1], db2, 4.0);
    CurrentOnly(db2, ROOT, ROOT_SESSION, 4.0);
    OrgBySuperAdmin(db2, ROOT, 1, 1);
    assert SignedIn(db2, ROOT, 4.0);
    ReachNext([] + [SETUP[0]] + [SETUP[1]], db2, SETUP[2], db3, 4.0);
    CurrentOnly(db3, ROOT, ROOT_SESSION, 4.0);
    OrgBySuperAdmin(db3, ROOT, 2, 2);
    assert SignedIn(db3, ROOT, 4.0);
    ReachNext([] + [SETUP[0]] + [SETUP[1]] + [SETUP[2]], db3, SETUP[3], db4, 4.0);
    assert [] + [SETUP[0]] + [SETUP[1]] + [SETUP[2]] + [SETUP[3]] == SETUP;
  }

  /** A user registers and verifies the address. */
  const ENTRY: seq<Step> := SETUP + [StepRegister(7, 1, 0, 10, 2.0)] + [StepVerify(10, 3.0)]

  lemma {:induction false} EntryReaches()
    ensures Reaches(ENTRY, Db([ROOT, MEMBER], [], map[1 := 1, 2 := 2], {}, map[10 := 2.0], {ROOT_SESSION, MEMBER_SESSION}), 4.0)
  {
    hide Apply, Reaches;
    var db4 := Db([ROOT], [], map[1 := 1, 2 := 2], {}, map[], {ROOT_SESSION});
    var db5 := db4.(users := [ROOT, NEWCOMER], tokens := map[10 := 2.0]);
    var db6 := db5.(users := [ROOT, MEMBER], sessions := {ROOT_SESSION, MEMBER_SESSION});
    SetupReaches();
    RegisterSecond(db4, ROOT, 7, 1, 0, 10, 2.0);
    assert db4.tokens[10 := 2.0] == map[10 := 2.0];
    ReachNext(SETUP, db4, StepRegister(7, 1, 0, 10, 2.0), db5, 4.0);
    VerifySecond(db5, ROOT, NEWCOMER, 10, 3.0);
    assert db5.sessions + {MEMBER_SESSION} == db6.sessions;
    ReachNext(SETUP + [StepRegister(7, 1, 0, 10, 2.0)], db5, StepVerify(10, 3.0), db6, 4.0);
  }

  /**
    The user is then invited to one organisation, creates a key there, and is invited to the other:
    the key is listed and cannot be managed.
   */
  lemma {:induction false} OwnKeyElsewhereHappens()
    ensures var steps := ENTRY + [StepInvite(ROOT, 1, 7, Member)] + [StepCreate(MEMBER.(orgId := Some(1)), 0, 1, None, 5, 20)]
                         + [StepInvite(ROOT, 2, 7, Member)];
            var db := Db([ROOT, MEMBER.(orgId := Some(2))], [KEY], map[1 := 1, 2 := 2], {20}, map[10 := 2.0], {ROOT_SESSION, MEMBER_SESSION});
            Reaches(steps, db, 4.0) && KEY.isActive && OwnKeyElsewhere(db.users[1], KEY)
            && InScope(db.users[1], None, KEY) && !CanManageKey(db.users[1], KEY)
  {
    hide Apply, Reaches, SignedIn;
    var v1, v2 := MEMBER.(orgId := Some(1)), MEMBER.(orgId := Some(2));
    var db6 := Db([ROOT, MEMBER], [], map[1 := 1, 2 := 2], {}, map[10 := 2.0], {ROOT_SESSION, MEMBER_SESSION});
    var db7, db8 := db6.(users := [ROOT, v1]), db6.(users := [ROOT, v1], keys := [KEY], plaintexts := {20});
    EntryReaches();
    InviteSecond(db6, ROOT, MEMBER, 1);
    BothSignedIn(db6, ROOT, MEMBER, ROOT_SESSION, MEMBER_SESSION, 4.0);
    ReachNext(ENTRY, db6, StepInvite(ROOT, 1, 7, Member), db7, 4.0);
    CreateOwn(db7, ROOT, v1, 1, 5, 20);
    BothSignedIn(db7, ROOT, v1, ROOT_SESSION, MEMBER_SESSION, 4.0);
    ReachNext(ENTRY + [StepInvite(ROOT, 1, 7, Member)], db7, StepCreate(v1, 0, 1, None, 5, 20), db8, 4.0);
    InviteSecond(db8, ROOT, v1, 2);
    BothSignedIn(db8, ROOT, v1, ROOT_SESSION, MEMBER_SESSION, 4.0);
    ReachNext(ENTRY + [StepInvite(ROOT, 1, 7, Member)] + [StepCreate(v1, 0, 1, None, 5, 20)], db8, StepInvite(ROOT, 2, 7, Member),
              db8.(users := [ROOT, v2]), 4.0);
  }
}

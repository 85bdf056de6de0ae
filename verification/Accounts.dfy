/**
  The tables of users, API keys and organisations, the tokens and sessions handed out, and every
  service that writes roles, memberships, keys or credentials. Secrets are fresh, hashing is injective, session tokens cannot be forged; times are
  in seconds. Row ids, secrets and the clock are passed in.
 */
module Accounts {
  import opened Wrappers

  type UserId = nat

  type OrgId = nat

  type KeyId = nat

  type Slug = nat

  type Email = nat

  type Token = nat

  type GoogleId = nat

  type Password = nat

  datatype Role = SuperAdmin | OrgAdmin | TeamLead | Member

  /** What a JWT signed by the server says; the server signs no other. */
  datatype Session = Session(user: UserId, expiresAt: real)

  /** A bearer credential: a signed session, or any other text, such as an API key. */
  datatype Bearer = Jwt(session: Session) | Plaintext(text: nat)

  /** SHA-256 and bcrypt are taken to be injective. */
  datatype Digest = Sha256(bearer: Bearer)

  datatype PasswordHash = Bcrypt(password: Password)

  datatype User = User(
    id: UserId,
    email: Email,
    passwordHash: PasswordHash,
    role: Role,
    orgId: Option<OrgId>,
    isActive: bool,
    isVerified: bool,
    verificationToken: Option<Token>,
    verificationSentAt: Option<real>,
    resetToken: Option<Token>,
    resetExpiresAt: Option<real>,
    googleId: Option<GoogleId>)

  datatype ApiKey = ApiKey(
    id: KeyId,
    userId: UserId,
    orgId: Option<OrgId>,
    keyHash: Digest,
    isActive: bool,
    expiresAt: Option<real>,
    revokedAt: Option<real>,
    lastUsedAt: Option<real>)

  /**
    The tables, users and keys in order of creation, organisations by id with their slugs. The last
    three fields remember every plaintext key and token ever generated, a token with its time, and
    every session ever signed.
   */
  datatype Db = Db(
    users: seq<User>,
    keys: seq<ApiKey>,
    orgs: map<OrgId, Slug>,
    plaintexts: set<nat>,
    tokens: map<Token, real>,
    sessions: set<Session>)

  datatype Error = Unauthorized | Forbidden | NotFound | Conflict | Invalid | ManyRows

  datatype Result<+T> = Ok(value: T) | Err(error: Error)

  const DAY: real := 86400.0
  const HOUR: real := 3600.0

  // ---------------------------------------------------------------- queries

  datatype Found = NoRow | Row(at: nat) | SeveralRows

  /** The first row at or after `from` that satisfies `p`, or the number of rows. */
  function FirstFrom<T>(rows: seq<T>, p: T -> bool, from: nat): (i: nat)
    requires from <= |rows|
    ensures from <= i <= |rows|
    ensures i < |rows| ==> p(rows[i])
    ensures forall j :: from <= j < i ==> !p(rows[j])
    decreases |rows| - from
  {
    if from == |rows| || p(rows[from]) then from else FirstFrom(rows, p, from + 1)
  }

  /** `scalar_one_or_none()`, which raises when there are several rows. */
  function OneRow<T>(rows: seq<T>, p: T -> bool): (r: Found)
    ensures r.NoRow? ==> forall j :: 0 <= j < |rows| ==> !p(rows[j])
    ensures r.Row? ==> r.at < |rows| && p(rows[r.at]) && forall j :: 0 <= j < |rows| && j != r.at ==> !p(rows[j])
    ensures r.SeveralRows? ==> exists i, j :: 0 <= i < j < |rows| && p(rows[i]) && p(rows[j])
  {
    var i := FirstFrom(rows, p, 0);
    if i == |rows| then NoRow
    else if FirstFrom(rows, p, i + 1) == |rows| then Row(i)
    else SeveralRows
  }

  function UserById(db: Db, id: UserId): Found {
    OneRow(db.users, (u: User) => u.id == id)
  }

  function UserByEmail(db: Db, email: Email): Found {
    OneRow(db.users, (u: User) => u.email == email)
  }

  function KeyById(db: Db, id: KeyId): Found {
    OneRow(db.keys, (k: ApiKey) => k.id == id)
  }

  // ---------------------------------------------------------------- permissions

  predicate CanAssignRole(caller: User, role: Role) {
    (caller.role == SuperAdmin || caller.role == OrgAdmin) && role != SuperAdmin
  }

  /** `assert_can_manage_key` returns. */
  predicate CanManageKey(u: User, k: ApiKey) {
    u.role == SuperAdmin || (u.orgId == k.orgId && (u.role == OrgAdmin || u.role == TeamLead || k.userId == u.id))
  }

  // ---------------------------------------------------------------- API keys

  /** `secret` is the generated plaintext and `id` the generated row id. */
  function CreateApiKey(db: Db, caller: User, owner: UserId, org: OrgId, expiresAt: Option<real>, id: KeyId, secret: nat): (Db, Result<Bearer>) {
    var target := UserById(db, owner);
    if caller.id != owner && caller.role == Member then (db, Err(Forbidden))
    else if caller.id != owner && target.NoRow? then (db, Err(NotFound))
    else if caller.id != owner && target.SeveralRows? then (db, Err(ManyRows))
    else if caller.id != owner && caller.role != SuperAdmin && db.users[target.at].orgId != caller.orgId then (db, Err(Forbidden))
    else if target.NoRow? then (db, Err(Conflict))   // the foreign key on the owner
    else
      var key := ApiKey(id, owner, Some(org), Sha256(Plaintext(secret)), true, expiresAt, None, None);
      (db.(keys := db.keys + [key], plaintexts := db.plaintexts + {secret}), Ok(Plaintext(secret)))
  }

  function RotateKey(db: Db, caller: User, id: KeyId, secret: nat): (Db, Result<Bearer>) {
    match KeyById(db, id)
    case NoRow => (db, Err(NotFound))
    case SeveralRows => (db, Err(ManyRows))
    case Row(i) =>
      var key := db.keys[i];
      if !key.isActive then (db, Err(NotFound))
      else if !CanManageKey(caller, key) then (db, Err(Forbidden))
      else (db.(keys := db.keys[i := key.(keyHash := Sha256(Plaintext(secret)))], plaintexts := db.plaintexts + {secret}), Ok(Plaintext(secret)))
  }

  function RevokeKey(db: Db, caller: User, id: KeyId, now: real): (Db, Result<KeyId>) {
    match KeyById(db, id)
    case NoRow => (db, Err(NotFound))
    case SeveralRows => (db, Err(ManyRows))
    case Row(i) =>
      var key := db.keys[i];
      if !key.isActive then (db, Err(Conflict))
      else if !CanManageKey(caller, key) then (db, Err(Forbidden))
      else (db.(keys := db.keys[i := key.(isActive := false, revokedAt := Some(now))]), Ok(id))
  }

  predicate Unexpired(k: ApiKey, now: real) {
    k.expiresAt.None? || k.expiresAt.value > now
  }

  function AuthenticateByKey(db: Db, raw: Bearer, now: real): (Db, Result<ApiKey>) {
    match OneRow(db.keys, (k: ApiKey) => k.keyHash == Sha256(raw) && k.isActive && Unexpired(k, now))
    case NoRow => (db, Err(Unauthorized))
    case SeveralRows => (db, Err(ManyRows))
    case Row(i) =>
      var key := db.keys[i].(lastUsedAt := Some(now));
      (db.(keys := db.keys[i := key]), Ok(key))
  }

  // ---------------------------------------------------------------- members of an organisation

  /** `role` is one of the three that the request schema admits. */
  function InviteUser(db: Db, caller: User, org: OrgId, email: Email, role: Role): (Db, Result<UserId>) {
    if !CanAssignRole(caller, role) then (db, Err(Forbidden))
    else match UserByEmail(db, email)
      case NoRow => (db, Err(NotFound))
      case SeveralRows => (db, Err(ManyRows))
      case Row(i) =>
        var u := db.users[i];
        if u.isActive && u.orgId == Some(org) then (db, Err(Conflict))
        else
          var u' := u.(orgId := Some(org), isActive := true, role := if u.role == SuperAdmin then SuperAdmin else role);
          (db.(users := db.users[i := u']), Ok(u.id))
  }

  function RevokeAll(keys: seq<ApiKey>, owner: UserId, now: real): (r: seq<ApiKey>)
    ensures |r| == |keys|
    ensures forall i :: 0 <= i < |keys| ==>
      r[i] == if keys[i].userId == owner && keys[i].isActive then keys[i].(isActive := false, revokedAt := Some(now)) else keys[i]
  {
    seq(|keys|, i requires 0 <= i < |keys| =>
      if keys[i].userId == owner && keys[i].isActive then keys[i].(isActive := false, revokedAt := Some(now)) else keys[i])
  }

  function RemoveUserFromOrg(db: Db, caller: User, org: OrgId, target: UserId, now: real): (Db, Result<UserId>) {
    if caller.id == target then (db, Err(Invalid))
    else match OneRow(db.users, (u: User) => u.id == target && u.orgId == Some(org))
      case NoRow => (db, Err(NotFound))
      case SeveralRows => (db, Err(ManyRows))
      case Row(i) =>
        (db.(keys := RevokeAll(db.keys, target, now), users := db.users[i := db.users[i].(isActive := false, orgId := None)]), Ok(target))
  }

  function UpdateUserRole(db: Db, caller: User, org: OrgId, target: UserId, role: Role): (Db, Result<UserId>) {
    if !CanAssignRole(caller, role) then (db, Err(Forbidden))
    else match OneRow(db.users, (u: User) => u.id == target && u.orgId == Some(org))
      case NoRow => (db, Err(NotFound))
      case SeveralRows => (db, Err(ManyRows))
      case Row(i) => (db.(users := db.users[i := db.users[i].(role := role)]), Ok(target))
  }

  // ---------------------------------------------------------------- organisations

  /** `creator` is the id of a loaded row; one without organisation joins as its administrator, but for a super admin. */
  function CreateOrg(db: Db, creator: Option<UserId>, org: OrgId, slug: Slug): (Db, Result<OrgId>) {
    if slug in db.orgs.Values then (db, Err(Conflict))
    else
      var db' := db.(orgs := db.orgs[org := slug]);
      var found := if creator.Some? then UserById(db, creator.value) else NoRow;
      if found.Row? && db.users[found.at].orgId.None? && db.users[found.at].role != SuperAdmin then
        (db'.(users := db.users[found.at := db.users[found.at].(orgId := Some(org), role := OrgAdmin)]), Ok(org))
      else (db', Ok(org))
  }

  function LeaveOrg(users: seq<User>, org: OrgId): (r: seq<User>)
    ensures |r| == |users|
    ensures forall i :: 0 <= i < |users| ==> r[i] == if users[i].orgId == Some(org) then users[i].(orgId := None) else users[i]
  {
    seq(|users|, i requires 0 <= i < |users| => if users[i].orgId == Some(org) then users[i].(orgId := None) else users[i])
  }

  function DeleteOrg(db: Db, org: OrgId): (Db, Result<OrgId>) {
    if org !in db.orgs then (db, Err(NotFound))
    else if !OneRow(db.users, (u: User) => u.orgId == Some(org) && u.isActive).NoRow? then (db, Err(Conflict))
    else (db.(users := LeaveOrg(db.users, org), orgs := db.orgs - {org}), Ok(org))
  }

  // ---------------------------------------------------------------- accounts

  /** `create_access_token`: JWT_EXPIRE_MINUTES is 60. */
  function NewSession(db: Db, user: UserId, now: real): (Db, Result<Session>) {
    var s := Session(user, now + HOUR);
    (db.(sessions := db.sessions + {s}), Ok(s))
  }

  function NewUser(id: UserId, email: Email, password: Password): User {
    User(id, email, Bcrypt(password), Member, None, true, false, None, None, None, None, None)
  }

  /** `setup_db` at each start of the application outside production: a verified super admin, unless the address is taken. */
  function SeedAdmin(db: Db, email: Email, password: Password, id: UserId): Db {
    if UserByEmail(db, email).NoRow? then
      db.(users := db.users + [NewUser(id, email, password).(role := SuperAdmin, isVerified := true)])
    else db
  }

  /** `token` is the generated verification token. */
  function Register(db: Db, email: Email, password: Password, id: UserId, token: Token, now: real): (Db, Result<UserId>) {
    if !UserByEmail(db, email).NoRow? then (db, Err(if UserByEmail(db, email).Row? then Conflict else ManyRows))
    else
      var u := NewUser(id, email, password).(verificationToken := Some(token), verificationSentAt := Some(now));
      (db.(users := db.users + [u], tokens := db.tokens[token := now]), Ok(id))
  }

  function Login(db: Db, email: Email, password: Password, now: real): (Db, Result<Session>) {
    match UserByEmail(db, email)
    case NoRow => (db, Err(Unauthorized))
    case SeveralRows => (db, Err(ManyRows))
    case Row(i) =>
      var u := db.users[i];
      if u.passwordHash != Bcrypt(password) || !u.isActive || !u.isVerified then (db, Err(Unauthorized))
      else NewSession(db, u.id, now)
  }

  /** Google's answer to the token check: none, a status other than 200, or the account details. */
  datatype GoogleReply = Unreached | Rejected | Details(sub: Option<GoogleId>, email: Option<Email>, audience: Option<nat>)

  /**
    Who signs in: whom Google vouches for to this client, or, without a credential and in development
    only, the mock token. `mockEmail` is the address made from the mock token.
   */
  function SsoIdentity(credential: Option<GoogleReply>, mock: Option<GoogleId>, email: Option<Email>, mockEmail: Email,
                       clientId: Option<nat>, development: bool): Option<(GoogleId, Email)>
  {
    match credential
    case Some(Details(Some(sub), Some(address), audience)) =>
      if clientId.Some? && audience == clientId then Some((sub, address)) else None
    case Some(_) => None
    case None =>
      if development && mock.Some? then Some((mock.value, if email.Some? then email.value else mockEmail)) else None
  }

  /** `identity` is what Google (or the development stand-in) vouches for, if it vouches at all. */
  function SsoCallback(db: Db, identity: Option<(GoogleId, Email)>, id: UserId, placeholder: Password, now: real): (Db, Result<Session>) {
    if identity.None? then (db, Err(Unauthorized))
    else
      var (google, email) := identity.value;
      match OneRow(db.users, (u: User) => u.googleId == Some(google) || u.email == email)
      case SeveralRows => (db, Err(ManyRows))
      case NoRow =>
        var u := NewUser(id, email, placeholder).(googleId := Some(google), isVerified := true);
        NewSession(db.(users := db.users + [u]), id, now)
      case Row(i) =>
        var u := db.users[i];
        if !u.isActive then (db, Err(Unauthorized))
        else
          var u' := u.(googleId := if u.googleId.None? then Some(google) else u.googleId, isVerified := true);
          NewSession(db.(users := db.users[i := u']), u.id, now)
  }

  /** A session when the account exists, None after a registration. */
  function RegisterLoginUnified(db: Db, email: Email, password: Password, id: UserId, token: Token, now: real): (Db, Result<Option<Session>>) {
    if UserByEmail(db, email).NoRow? then
      (Register(db, email, password, id, token, now).0, Ok(None))
    else
      var (db', r) := Login(db, email, password, now);
      (db', if r.Ok? then Ok(Some(r.value)) else Err(r.error))
  }

  function VerifyEmailToken(db: Db, token: Token, now: real): (Db, Result<Session>) {
    match OneRow(db.users, (u: User) => u.verificationToken == Some(token))
    case NoRow => (db, Err(Unauthorized))
    case SeveralRows => (db, Err(ManyRows))
    case Row(i) =>
      var u := db.users[i];
      if u.verificationSentAt.Some? && now - u.verificationSentAt.value > DAY then (db, Err(Unauthorized))
      else
        var u' := u.(isVerified := true, verificationToken := None, verificationSentAt := None);
        NewSession(db.(users := db.users[i := u']), u.id, now)
  }

  /** `token` is the generated reset token; nothing tells the caller whether the address exists. */
  function ForgotPassword(db: Db, email: Email, token: Token, now: real): (Db, Result<()>) {
    match UserByEmail(db, email)
    case NoRow => (db, Ok(()))
    case SeveralRows => (db, Err(ManyRows))
    case Row(i) =>
      var u' := db.users[i].(resetToken := Some(token), resetExpiresAt := Some(now + HOUR));
      (db.(users := db.users[i := u'], tokens := db.tokens[token := now]), Ok(()))
  }

  function ResetPassword(db: Db, token: Token, password: Password, now: real): (Db, Result<()>) {
    match OneRow(db.users, (u: User) => u.resetToken == Some(token))
    case NoRow => (db, Err(Unauthorized))
    case SeveralRows => (db, Err(ManyRows))
    case Row(i) =>
      var u := db.users[i];
      if u.resetExpiresAt.Some? && now > u.resetExpiresAt.value then (db, Err(Unauthorized))
      else (db.(users := db.users[i := u.(passwordHash := Bcrypt(password), resetToken := None, resetExpiresAt := None)]), Ok(()))
  }

  // ---------------------------------------------------------------- who is calling

  /** `jwt.decode` accepts the credential. */
  predicate Decodes(db: Db, bearer: Bearer, now: real) {
    bearer.Jwt? && bearer.session in db.sessions && now <= bearer.session.expiresAt
  }

  function GetCurrentUser(db: Db, bearer: Option<Bearer>, now: real): Result<User> {
    if bearer.None? || !Decodes(db, bearer.value, now) then Err(Unauthorized)
    else match UserById(db, bearer.value.session.user)
      case NoRow => Err(Unauthorized)
      case SeveralRows => Err(ManyRows)
      case Row(i) => if db.users[i].isActive && db.users[i].isVerified then Ok(db.users[i]) else Err(Unauthorized)
  }

  /** The JWT branch of `get_api_key_user`: the user it returns, unless it falls through to the API key. */
  function JwtUser(db: Db, bearer: Bearer, now: real): Option<User> {
    if !Decodes(db, bearer, now) then None
    else match UserById(db, bearer.session.user)
      case Row(i) => if db.users[i].isActive then Some(db.users[i]) else None
      case _ => None
  }

  function GetApiKeyUser(db: Db, bearer: Option<Bearer>, now: real): (Db, Result<(User, Option<ApiKey>)>) {
    if bearer.None? then (db, Err(Unauthorized))
    else if Decodes(db, bearer.value, now) && UserById(db, bearer.value.session.user).SeveralRows? then (db, Err(ManyRows))
    else if JwtUser(db, bearer.value, now).Some? then (db, Ok((JwtUser(db, bearer.value, now).value, None)))
    else
      var (db', r) := AuthenticateByKey(db, bearer.value, now);
      if r.Err? then (db', Err(r.error))
      else match UserById(db', r.value.userId)
        case Row(i) => if db'.users[i].isActive then (db', Ok((db'.users[i], Some(r.value)))) else (db', Err(Unauthorized))
        case NoRow => (db', Err(Unauthorized))
        case SeveralRows => (db', Err(ManyRows))
  }

  // ---------------------------------------------------------------- runs

  const EMPTY: Db := Db([], [], map[], {}, map[], {})

  datatype Step =
    | StepSeed(email: Email, password: Password, id: UserId)
    | StepCreate(caller: User, owner: UserId, org: OrgId, expiresAt: Option<real>, id: KeyId, secret: nat)
    | StepRotate(caller: User, key: KeyId, secret: nat)
    | StepRevoke(caller: User, key: KeyId, now: real)
    | StepCall(bearer: Option<Bearer>, now: real)
    | StepInvite(caller: User, org: OrgId, email: Email, role: Role)
    | StepRemove(caller: User, org: OrgId, target: UserId, now: real)
    | StepRole(caller: User, org: OrgId, target: UserId, role: Role)
    | StepCreateOrg(creator: Option<UserId>, org: OrgId, slug: Slug)
    | StepDeleteOrg(org: OrgId)
    | StepRegister(email: Email, password: Password, id: UserId, token: Token, now: real)
    | StepLogin(email: Email, password: Password, now: real)
    | StepSso(identity: Option<(GoogleId, Email)>, id: UserId, password: Password, now: real)
    | StepUnified(email: Email, password: Password, id: UserId, token: Token, now: real)
    | StepVerify(token: Token, now: real)
    | StepForgot(email: Email, token: Token, now: real)
    | StepReset(token: Token, password: Password, now: real)

  predicate FreshUser(db: Db, id: UserId) {
    forall i :: 0 <= i < |db.users| ==> db.users[i].id != id
  }

  /** Generated ids and secrets are new. Any user, existing or not, may be the caller. */
  predicate Enabled(db: Db, step: Step) {
    match step
    case StepSeed(_, _, id) => FreshUser(db, id)
    case StepCreateOrg(_, org, _) => org !in db.orgs
    case StepCreate(_, _, _, _, id, secret) => secret !in db.plaintexts && forall i :: 0 <= i < |db.keys| ==> db.keys[i].id != id
    case StepRotate(_, _, secret) => secret !in db.plaintexts
    case StepRegister(_, _, id, token, _) => FreshUser(db, id) && token !in db.tokens
    case StepSso(_, id, _, _) => FreshUser(db, id)
    case StepUnified(_, _, id, token, _) => FreshUser(db, id) && token !in db.tokens
    case StepForgot(_, token, _) => token !in db.tokens
    case _ => true
  }

  function Apply(db: Db, step: Step): Db {
    match step
    case StepSeed(email, password, id) => SeedAdmin(db, email, password, id)
    case StepCreate(caller, owner, org, expiresAt, id, secret) => CreateApiKey(db, caller, owner, org, expiresAt, id, secret).0
    case StepRotate(caller, key, secret) => RotateKey(db, caller, key, secret).0
    case StepRevoke(caller, key, now) => RevokeKey(db, caller, key, now).0
    case StepCall(bearer, now) => GetApiKeyUser(db, bearer, now).0
    case StepInvite(caller, org, email, role) => InviteUser(db, caller, org, email, role).0
    case StepRemove(caller, org, target, now) => RemoveUserFromOrg(db, caller, org, target, now).0
    case StepRole(caller, org, target, role) => UpdateUserRole(db, caller, org, target, role).0
    case StepCreateOrg(creator, org, slug) => CreateOrg(db, creator, org, slug).0
    case StepDeleteOrg(org) => DeleteOrg(db, org).0
    case StepRegister(email, password, id, token, now) => Register(db, email, password, id, token, now).0
    case StepLogin(email, password, now) => Login(db, email, password, now).0
    case StepSso(identity, id, password, now) => SsoCallback(db, identity, id, password, now).0
    case StepUnified(email, password, id, token, now) => RegisterLoginUnified(db, email, password, id, token, now).0
    case StepVerify(token, now) => VerifyEmailToken(db, token, now).0
    case StepForgot(email, token, now) => ForgotPassword(db, email, token, now).0
    case StepReset(token, password, now) => ResetPassword(db, token, password, now).0
  }

  predicate CanRun(db: Db, steps: seq<Step>)
    decreases |steps|
  {
    steps == [] || (Enabled(db, steps[0]) && CanRun(Apply(db, steps[0]), steps[1..]))
  }

  function Run(db: Db, steps: seq<Step>): Db
    decreases |steps|
  {
    if steps == [] then db else Run(Apply(db, steps[0]), steps[1..])
  }
}

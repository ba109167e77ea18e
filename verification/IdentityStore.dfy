/** The identity store as a value, and each command as one committed step on it.
    An error answer leaves the tables as they were, except where the service
    commits before raising: a wrong code, a burned code, a reused token. */
module IdentityStore {
  import opened Domain
  import opened RateLimiter

  datatype Settings = Settings(otpMaxAttempts: int, otpLifetime: nat, otpCooldown: int, refreshLifetime: nat)

  /** The transactional tables. */
  datatype Tables = Tables(
    users: map<UserId, Account>, otps: map<OtpId, OtpCode>, tokens: map<TokenId, RefreshToken>,
    statusLog: seq<StatusChange>, roleLog: seq<RoleChange>)

  /** A code that was compared, for a login or a counted attempt. */
  datatype Verdict = Verdict(phone: Phone, otp: OtpId, at: Time, right: bool)

  /** `ledger`, `family`, `drops`, `lossless` and `clock` record history the
      service does not store: codes compared, the login a token descends from
      (its index in the ledger), cache keys invalidated, whether every publish
      succeeded, and the time. */
  datatype Store = Store(
    cfg: Settings, db: Tables, limits: Limits, events: seq<Event>,
    ledger: seq<Verdict>, family: map<TokenId, nat>, drops: seq<UserId>,
    lossless: bool, clock: Time)

  /** Inputs of a command, with what the environment supplies: fresh ids, the
      random code or token, the time, whether the bus is up, and which row
      `ORDER BY created_at DESC LIMIT 1` returns on a tie (`pick`). */
  datatype Command =
    | RegisterUser(phone: Phone, name: Option<string>, newUser: UserId, now: Time)
    | RequestOtp(phone: Phone, ip: string, newOtp: OtpId, code: string, now: Time)
    | VerifyOtp(phone: Phone, code: string, device: Option<string>, pick: OtpId,
                newToken: TokenId, raw: string, now: Time, busUp: bool)
    | RefreshAccessToken(presented: string, device: Option<string>, newToken: TokenId, raw: string, now: Time)
    | Logout(presented: string, allDevices: bool, now: Time)
    | ChangeRole(user: UserId, role: Role, reason: Option<string>, actor: Option<UserId>, now: Time, busUp: bool)
    | DecideKyc(user: UserId, approved: bool, reason: Option<string>, actor: Option<UserId>, now: Time, busUp: bool)
    | ChangeStatus(user: UserId, status: Status, reason: Option<string>, admin: Option<UserId>, now: Time, busUp: bool)
    | UpdateProfile(user: UserId, name: Option<string>, now: Time, busUp: bool)

  datatype Claims = Claims(sub: UserId, role: Role, status: Status)

  datatype Profile = Profile(
    id: UserId, phone: Phone, fullName: Option<string>, role: Role, status: Status, requested: Option<Role>)

  datatype Error =
    | PhoneAlreadyRegistered
    | RateLimited(retryAfter: int)
    | OtpInvalid(attemptsRemaining: Option<int>)
    | OtpExpired
    | OtpTooManyAttempts(attempts: int)
    | UserNotFound
    | UserSuspended
    | RefreshTokenInvalid
    | RefreshTokenRevoked
    | NoKycPending
    | StatusNotSettable
    | InvalidStatusTransition(before: Status, after: Status)

  datatype Response =
    | Registered(id: UserId, status: Status)
    | OtpRequested(expiresIn: int, retryAfter: int)
    | LoggedIn(claims: Claims, token: string, profile: Profile)
    | Refreshed(claims: Claims, token: string)
    | LoggedOut
    | Answer(profile: Profile)
    | Failed(error: Error)

  datatype Outcome = Outcome(store: Store, response: Response)

  const OTP_REASON: Option<string> := Some("Vérification OTP")

  // ---------------------------------------------------------------------
  // Lookups

  ghost function FindByPhone(users: map<UserId, Account>, phone: Phone): (r: Option<UserId>)
    ensures r.Some? ==> r.value in users && users[r.value].phone == phone
    ensures r.None? ==> forall u :: u in users ==> users[u].phone != phone
  {
    if exists u :: u in users && users[u].phone == phone
    then var u :| u in users && users[u].phone == phone; Some(u)
    else None
  }

  ghost function FindByHash(tokens: map<TokenId, RefreshToken>, hash: Digest): (r: Option<TokenId>)
    ensures r.Some? ==> r.value in tokens && tokens[r.value].hash == hash
    ensures r.None? ==> forall t :: t in tokens ==> tokens[t].hash != hash
  {
    if exists t :: t in tokens && tokens[t].hash == hash
    then var t :| t in tokens && tokens[t].hash == hash; Some(t)
    else None
  }

  predicate IsActive(otps: map<OtpId, OtpCode>, phone: Phone, o: OtpId) {
    o in otps && otps[o].phone == phone && otps[o].consumedAt.None?
  }

  predicate IsLatestActive(otps: map<OtpId, OtpCode>, phone: Phone, o: OtpId) {
    && IsActive(otps, phone, o)
    && forall p | p in otps :: IsActive(otps, phone, p) ==> otps[p].createdAt <= otps[o].createdAt
  }

  // ---------------------------------------------------------------------
  // Row updates

  /** `save` on a known id keeps phone and creation date; on a new id it inserts. */
  function Saved(users: map<UserId, Account>, id: UserId, a: Account, now: Time): map<UserId, Account> {
    if id in users then
      users[id := users[id].(fullName := a.fullName, role := a.role, status := a.status,
                             requested := a.requested, updatedAt := now)]
    else users[id := a.(updatedAt := now)]
  }

  function Attempted(otps: map<OtpId, OtpCode>, o: OtpId): map<OtpId, OtpCode>
    requires o in otps
  {
    otps[o := otps[o].(attempts := otps[o].attempts + 1)]
  }

  function Consumed(otps: map<OtpId, OtpCode>, o: OtpId, now: Time): map<OtpId, OtpCode>
    requires o in otps
  {
    if otps[o].consumedAt.Some? then otps else otps[o := otps[o].(consumedAt := Some(now))]
  }

  function RevokedRow(t: RefreshToken, now: Time): RefreshToken {
    if t.revokedAt.None? then t.(revokedAt := Some(now)) else t
  }

  function Revoked(tokens: map<TokenId, RefreshToken>, t: TokenId, now: Time): map<TokenId, RefreshToken> {
    if t in tokens then tokens[t := RevokedRow(tokens[t], now)] else tokens
  }

  function RevokedAll(tokens: map<TokenId, RefreshToken>, user: UserId, now: Time): map<TokenId, RefreshToken> {
    map t | t in tokens :: if tokens[t].owner == user then RevokedRow(tokens[t], now) else tokens[t]
  }

  function ProfileOf(id: UserId, a: Account): Profile {
    Profile(id, a.phone, a.fullName, a.role, a.status, a.requested)
  }

  function ClaimsOf(id: UserId, a: Account): Claims {
    Claims(id, a.role, a.status)
  }

  function Published(s: Store, e: Event, up: bool): Store {
    if up then s.(events := s.events + [e]) else s.(lossless := false)
  }

  function Dropped(s: Store, user: UserId): Store {
    s.(drops := s.drops + [user])
  }

  /** One account written, its audit rows appended, its cache key dropped, and
      the change announced. */
  function Updated(s: Store, id: UserId, a: Account, at: Time,
                   statusRows: seq<StatusChange>, roleRows: seq<RoleChange>, event: Event, up: bool): Store
  {
    var db := s.db.(users := Saved(s.db.users, id, a, at),
                    statusLog := s.db.statusLog + statusRows, roleLog := s.db.roleLog + roleRows);
    Published(Dropped(s.(db := db), id), event, up)
  }

  function Fail(s: Store, e: Error): Outcome {
    Outcome(s, Failed(e))
  }

  // ---------------------------------------------------------------------
  // Commands

  ghost function DoRegister(s: Store, c: Command): Outcome
    requires c.RegisterUser?
  {
    if FindByPhone(s.db.users, c.phone).Some? then Fail(s, PhoneAlreadyRegistered)
    else
      var name := if c.name == Some("") then None else c.name;
      var a := Account(c.phone, name, User, PendingVerification, None, c.now, c.now);
      Outcome(s.(db := s.db.(users := Saved(s.db.users, c.newUser, a, c.now))),
              Registered(c.newUser, PendingVerification))
  }

  ghost function DoRequestOtp(s: Store, c: Command): Outcome
    requires c.RequestOtp?
  {
    var hit := s.(limits := HitIp(s.limits, c.ip, c.now));
    var left := CooldownLeft(hit.limits, c.phone, s.cfg.otpCooldown, c.now);
    if !Allowed(s.limits, c.ip, c.now) then Fail(hit, RateLimited(s.cfg.otpCooldown))
    else if left > 0 then Fail(hit, RateLimited(left))
    else
      var minted :=
        if FindByPhone(s.db.users, c.phone).None? then hit
        else hit.(db := s.db.(otps := s.db.otps[c.newOtp :=
                    OtpCode(c.phone, Digest(c.code), c.now + s.cfg.otpLifetime, c.now, None, 0)]));
      Outcome(minted.(limits := MarkSent(hit.limits, c.phone, s.cfg.otpCooldown, c.now)),
              OtpRequested(s.cfg.otpLifetime, s.cfg.otpCooldown))
  }

  ghost function DoVerifyOtp(s: Store, c: Command): Outcome
    requires c.VerifyOtp?
  {
    if !IsLatestActive(s.db.otps, c.phone, c.pick) then Fail(s, OtpInvalid(None))
    else if s.db.otps[c.pick].IsExpired(c.now) then Fail(s, OtpExpired)
    else if Digest(c.code) != s.db.otps[c.pick].codeHash then WrongCode(s, c)
    else RightCode(s, c)
  }

  ghost function WrongCode(s: Store, c: Command): Outcome
    requires c.VerifyOtp? && IsLatestActive(s.db.otps, c.phone, c.pick)
  {
    var attempts := s.db.otps[c.pick].attempts + 1;
    var burned := attempts >= s.cfg.otpMaxAttempts;
    var counted := Attempted(s.db.otps, c.pick);
    var otps := if burned then Consumed(counted, c.pick, c.now) else counted;
    var error := if burned then OtpTooManyAttempts(attempts) else OtpInvalid(Some(s.cfg.otpMaxAttempts - attempts));
    Fail(s.(db := s.db.(otps := otps), ledger := s.ledger + [Verdict(c.phone, c.pick, c.now, false)]), error)
  }

  ghost function RightCode(s: Store, c: Command): Outcome
    requires c.VerifyOtp? && IsLatestActive(s.db.otps, c.phone, c.pick)
  {
    var found := FindByPhone(s.db.users, c.phone);
    if found.None? then Fail(s, UserNotFound)
    else
      var id := found.value;
      var user := s.db.users[id];
      if user.status.Suspended? then Fail(s, UserSuspended)
      else
        Outcome(Admitted(s, c, id), LoggedIn(ClaimsOf(id, Verified(user)), c.raw, ProfileOf(id, Verified(user))))
  }

  /** A first verification activates the account, or parks it while a role
      request is open; later ones leave it as it is. */
  function Verified(user: Account): Account {
    if !user.status.PendingVerification? then user
    else user.(status := if user.requested.Some? then PendingKyc else Active)
  }

  /** The store after the code of account `id` was accepted. */
  ghost function Admitted(s: Store, c: Command, id: UserId): Store
    requires c.VerifyOtp? && c.pick in s.db.otps && id in s.db.users
  {
    var user := s.db.users[id];
    var token := RefreshToken(id, Digest(c.raw), c.device, c.now + s.cfg.refreshLifetime, c.now, None);
    var spent := s.(db := s.db.(otps := Consumed(s.db.otps, c.pick, c.now), tokens := s.db.tokens[c.newToken := token]),
                    family := s.family[c.newToken := |s.ledger|],
                    ledger := s.ledger + [Verdict(c.phone, c.pick, c.now, true)]);
    if user.status.PendingVerification? then
      var row := StatusChange(id, PendingVerification, Verified(user).status, OTP_REASON, None, c.now);
      Updated(spent, id, Verified(user), c.now, [row], [], UserRegistered(id, user.phone, user.role), c.busUp)
    else Dropped(spent, id)
  }

  /** The two shapes of a verification: a login, or nothing but the judged code. */
  lemma VerifyCases(s: Store, c: Command)
    requires c.VerifyOtp?
    ensures var o := DoVerifyOtp(s, c);
            if o.response.LoggedIn? then
              && IsLatestActive(s.db.otps, c.phone, c.pick) && !s.db.otps[c.pick].IsExpired(c.now)
              && s.db.otps[c.pick].codeHash == Digest(c.code)
              && FindByPhone(s.db.users, c.phone) == Some(o.response.claims.sub)
              && !s.db.users[o.response.claims.sub].status.Suspended?
              && o.store == Admitted(s, c, o.response.claims.sub)
            else o.store == s.(db := s.db.(otps := o.store.db.otps), ledger := o.store.ledger)
  {
  }

  ghost function DoRefresh(s: Store, c: Command): Outcome
    requires c.RefreshAccessToken?
  {
    var found := FindByHash(s.db.tokens, Digest(c.presented));
    if found.None? then Fail(s, RefreshTokenInvalid)
    else
      var stored := s.db.tokens[found.value];
      if stored.revokedAt.Some? then
        Fail(s.(db := s.db.(tokens := RevokedAll(s.db.tokens, stored.owner, c.now))), RefreshTokenRevoked)
      else if stored.expiresAt <= c.now then Fail(s, RefreshTokenInvalid)
      else if stored.owner !in s.db.users then Fail(s, RefreshTokenInvalid)
      else
        var user := s.db.users[stored.owner];
        if !SessionAllowed(user.status) then Fail(s, UserSuspended)
        else
          Outcome(Rotated(s, found.value, c.device, c.newToken, c.raw, c.now),
                  Refreshed(ClaimsOf(stored.owner, user), c.raw))
  }

  /** The presented token dies; its successor inherits device and login. */
  ghost function Rotated(s: Store, spent: TokenId, device: Option<string>, id: TokenId, raw: string, now: Time): Store
    requires spent in s.db.tokens
  {
    var stored := s.db.tokens[spent];
    var kept := if device == None || device == Some("") then stored.device else device;
    var issued := RefreshToken(stored.owner, Digest(raw), kept, now + s.cfg.refreshLifetime, now, None);
    var family := if spent in s.family then s.family[spent] else |s.ledger|;
    s.(db := s.db.(tokens := Revoked(s.db.tokens, spent, now)[id := issued]), family := s.family[id := family])
  }

  ghost function DoLogout(s: Store, c: Command): Outcome
    requires c.Logout?
  {
    var found := FindByHash(s.db.tokens, Digest(c.presented));
    if found.None? then Outcome(s, LoggedOut)
    else
      var tokens := if c.allDevices then RevokedAll(s.db.tokens, s.db.tokens[found.value].owner, c.now)
                    else Revoked(s.db.tokens, found.value, c.now);
      Outcome(s.(db := s.db.(tokens := tokens)), LoggedOut)
  }

  ghost function DoChangeRole(s: Store, c: Command): Outcome
    requires c.ChangeRole?
  {
    if c.user !in s.db.users then Fail(s, UserNotFound)
    else
      var user := s.db.users[c.user];
      if user.NeedsKycFor(c.role) then
        if user.requested == Some(c.role) then Outcome(s, Answer(ProfileOf(c.user, user)))
        else
          var now := user.(requested := Some(c.role));
          var row := RoleChange(c.user, user.role, None, Some(c.role), c.reason, c.actor, c.now);
          var event := UserUpdated(c.user, user.phone, user.role, ["requested_role"]);
          Outcome(Updated(s, c.user, now, c.now, [], [row], event, c.busUp), Answer(ProfileOf(c.user, now)))
      else if user.role == c.role then Outcome(s, Answer(ProfileOf(c.user, user)))
      else
        var now := user.(role := c.role, requested := None);
        var row := RoleChange(c.user, user.role, Some(c.role), None, c.reason, c.actor, c.now);
        var event := UserRoleChanged(c.user, user.phone, c.role, user.role, c.role);
        Outcome(Updated(s, c.user, now, c.now, [], [row], event, c.busUp), Answer(ProfileOf(c.user, now)))
  }

  function KycReason(reason: Option<string>, approved: bool): Option<string> {
    if reason.Some? && reason.value != "" then reason
    else Some(if approved then "Décision KYC : accordé" else "Décision KYC : refusé")
  }

  /** Either way the request is settled and a parked account becomes usable;
      only an approval grants the role. */
  function Decided(user: Account, approved: bool): Account
    requires user.requested.Some?
  {
    user.(requested := None, role := if approved then user.requested.value else user.role,
          status := if user.status.PendingKyc? then Active else user.status)
  }

  function DecisionRow(id: UserId, user: Account, approved: bool, reason: Option<string>,
                       actor: Option<UserId>, at: Time): RoleChange
  {
    RoleChange(id, user.role, if approved then user.requested else None, user.requested, reason, actor, at)
  }

  function DecisionStatusRows(id: UserId, user: Account, approved: bool, reason: Option<string>,
                              actor: Option<UserId>, at: Time): seq<StatusChange>
  {
    if user.status.PendingKyc? then [StatusChange(id, PendingKyc, Active, KycReason(reason, approved), actor, at)]
        else []
  }

  ghost function DoDecideKyc(s: Store, c: Command): Outcome
    requires c.DecideKyc?
  {
    if c.user !in s.db.users then Fail(s, UserNotFound)
    else
      var user := s.db.users[c.user];
      if user.requested.None? then Fail(s, NoKycPending)
      else
        var now := Decided(user, c.approved);
        var statusRows := DecisionStatusRows(c.user, user, c.approved, c.reason, c.actor, c.now);
        var row := DecisionRow(c.user, user, c.approved, c.reason, c.actor, c.now);
        var event := if c.approved then UserRoleChanged(c.user, user.phone, now.role, user.role, now.role)
                     else UserUpdated(c.user, user.phone, now.role, ["requested_role"]);
        Outcome(Updated(s, c.user, now, c.now, statusRows, [row], event, c.busUp), Answer(ProfileOf(c.user, now)))
  }

  ghost function DoChangeStatus(s: Store, c: Command): Outcome
    requires c.ChangeStatus?
  {
    if !AdminSettable(c.status) then Fail(s, StatusNotSettable)
    else if c.user !in s.db.users then Fail(s, UserNotFound)
    else
      var user := s.db.users[c.user];
      if !CanTransition(user.status, c.status) then Fail(s, InvalidStatusTransition(user.status, c.status))
      else
        var now := user.(status := c.status);
        var row := StatusChange(c.user, user.status, c.status, c.reason, c.admin, c.now);
        var tokens := if c.status.Suspended? then RevokedAll(s.db.tokens, c.user, c.now) else s.db.tokens;
        var event := UserStatusChanged(c.user, user.phone, user.role, user.status, c.status, c.reason);
        Outcome(Updated(s.(db := s.db.(tokens := tokens)), c.user, now, c.now, [row], [], event, c.busUp),
            Answer(ProfileOf(c.user, now)))
  }

  ghost function DoUpdateProfile(s: Store, c: Command): Outcome
    requires c.UpdateProfile?
  {
    if c.user !in s.db.users then Fail(s, UserNotFound)
    else
      var user := s.db.users[c.user];
      if c.name.None? || c.name == user.fullName then Outcome(s, Answer(ProfileOf(c.user, user)))
      else
        var now := user.(fullName := c.name);
        var event := UserUpdated(c.user, user.phone, user.role, ["full_name"]);
        Outcome(Updated(s, c.user, now, c.now, [], [], event, c.busUp), Answer(ProfileOf(c.user, now)))
  }

  ghost function Do(s: Store, c: Command): Outcome {
    match c
    case RegisterUser(_, _, _, _) => DoRegister(s, c)
    case RequestOtp(_, _, _, _, _) => DoRequestOtp(s, c)
    case VerifyOtp(_, _, _, _, _, _, _, _) => DoVerifyOtp(s, c)
    case RefreshAccessToken(_, _, _, _, _) => DoRefresh(s, c)
    case Logout(_, _, _) => DoLogout(s, c)
    case ChangeRole(_, _, _, _, _, _) => DoChangeRole(s, c)
    case DecideKyc(_, _, _, _, _, _) => DoDecideKyc(s, c)
    case ChangeStatus(_, _, _, _, _, _) => DoChangeStatus(s, c)
    case UpdateProfile(_, _, _, _) => DoUpdateProfile(s, c)
  }

  ghost function Step(s: Store, c: Command): Outcome {
    Do(s.(clock := c.now), c)
  }

  // ---------------------------------------------------------------------
  // Runs

  ghost predicate FreshToken(s: Store, id: TokenId, raw: string) {
    id !in s.db.tokens && forall t {:trigger s.db.tokens[t].hash} :: t in s.db.tokens ==>
        s.db.tokens[t].hash != Digest(raw)
  }

  /** What the environment guarantees: time does not go back, generated ids and
      tokens are new, the database returns a latest active code if any, and the
      one route that changes a status names the admin. */
  ghost predicate Admissible(s: Store, c: Command) {
    && s.clock <= c.now
    && (c.RegisterUser? ==> c.newUser !in s.db.users)
    && (c.RequestOtp? ==> c.newOtp !in s.db.otps)
    && (c.VerifyOtp? ==>
          && FreshToken(s, c.newToken, c.raw)
          && ((exists o :: IsActive(s.db.otps, c.phone, o)) ==> IsLatestActive(s.db.otps, c.phone, c.pick)))
    && (c.RefreshAccessToken? ==> FreshToken(s, c.newToken, c.raw))
    && (c.ChangeStatus? ==> c.admin.Some?)
  }

  /** The empty store over accounts brought in by a migration (possibly none):
      distinct phones, nothing pending, and no table filled but `users`. */
  ghost predicate Genesis(s: Store) {
    && UniquePhones(s.db.users)
    && (forall u :: u in s.db.users ==> s.db.users[u].requested.None? && !s.db.users[u].status.PendingKyc?)
    && s.db.otps == map[] && s.db.tokens == map[] && s.db.statusLog == [] && s.db.roleLog == []
    && s.limits == Limits(map[], map[]) && s.events == [] && s.ledger == [] && s.family == map[] && s.drops == []
    && s.lossless
  }

  ghost predicate UniquePhones(users: map<UserId, Account>) {
    forall u, v {:trigger users[u].phone, users[v].phone} ::
        u in users && v in users && users[u].phone == users[v].phone ==> u == v
  }

  ghost predicate UniqueHashes(tokens: map<TokenId, RefreshToken>) {
    forall t, r {:trigger tokens[t].hash, tokens[r].hash} ::
        t in tokens && r in tokens && tokens[t].hash == tokens[r].hash ==> t == r
  }

  ghost predicate ValidRun(s: Store, run: seq<Command>) {
    run == [] ||
    (ValidRun(s, run[..|run| - 1]) && Admissible(Exec(s, run[..|run| - 1]), run[|run| - 1]))
  }

  ghost function Exec(s: Store, run: seq<Command>): Store {
    if run == [] then s else Step(Exec(s, run[..|run| - 1]), run[|run| - 1]).store
  }
}

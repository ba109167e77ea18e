/** When each command gives which answer, and what it then does: one condition
    per answer, on the tables and the inputs alone. */
module Outcomes {
  import opened Domain
  import opened RateLimiter
  import opened IdentityStore

  /** A profile and a set of claims, column by column. */
  predicate Shows(p: Profile, id: UserId, a: Account) {
    && p.id == id && p.phone == a.phone && p.fullName == a.fullName
    && p.role == a.role && p.status == a.status && p.requested == a.requested
  }

  predicate Names(claims: Claims, id: UserId, a: Account) {
    claims.sub == id && claims.role == a.role && claims.status == a.status
  }

  // ---------------------------------------------------------------------
  // Verification

  predicate Unused(otps: map<OtpId, OtpCode>, phone: Phone, o: OtpId) {
    o in otps && otps[o].phone == phone && otps[o].consumedAt == None
  }

  predicate NewestUnused(otps: map<OtpId, OtpCode>, phone: Phone, o: OtpId) {
    Unused(otps, phone, o) && forall p | p in otps :: Unused(otps, phone, p) ==> otps[p].createdAt <= otps[o].createdAt
  }

  predicate Holds(users: map<UserId, Account>, phone: Phone, u: UserId) {
    u in users && users[u].phone == phone
  }

  /** The code is the newest unused one of the phone, alive, and matches. */
  predicate RightCode(s: Store, c: Command)
    requires c.VerifyOtp?
  {
    && NewestUnused(s.db.otps, c.phone, c.pick) && c.now < s.db.otps[c.pick].expiresAt
    && s.db.otps[c.pick].codeHash == Digest(c.code)
  }

  lemma LatestIsNewest(otps: map<OtpId, OtpCode>, phone: Phone, o: OtpId)
    ensures IsActive(otps, phone, o) <==> Unused(otps, phone, o)
    ensures IsLatestActive(otps, phone, o) <==> NewestUnused(otps, phone, o)
  {
    if IsLatestActive(otps, phone, o) {
      forall p | p in otps && Unused(otps, phone, p) ensures otps[p].createdAt <= otps[o].createdAt {
        assert IsActive(otps, phone, p);
      }
    }
    if NewestUnused(otps, phone, o) {
      forall p | p in otps && IsActive(otps, phone, p) ensures otps[p].createdAt <= otps[o].createdAt {
        assert Unused(otps, phone, p);
      }
    }
  }

  /** One condition per answer to a verification; together they are all cases. */
  lemma VerifyIff(s: Store, c: Command)
    requires Admissible(s, c) && c.VerifyOtp? && UniquePhones(s.db.users)
    ensures var r := Step(s, c).response;
            && (r == Failed(OtpInvalid(None)) <==> forall o :: !Unused(s.db.otps, c.phone, o))
            && (r == Failed(OtpExpired) <==>
                  NewestUnused(s.db.otps, c.phone, c.pick) && s.db.otps[c.pick].expiresAt <= c.now)
            && (r == Failed(UserNotFound) <==> RightCode(s, c) && forall u :: !Holds(s.db.users, c.phone, u))
            && (r == Failed(UserSuspended) <==>
                  RightCode(s, c) && exists u :: Holds(s.db.users, c.phone, u) && s.db.users[u].status == Suspended)
            && (r.LoggedIn? <==>
                  RightCode(s, c) && exists u :: Holds(s.db.users, c.phone, u) && s.db.users[u].status != Suspended)
  {
    var t := s.(clock := c.now);
    LatestIsNewest(s.db.otps, c.phone, c.pick);
    forall o ensures IsActive(s.db.otps, c.phone, o) <==> Unused(s.db.otps, c.phone, o) {
      LatestIsNewest(s.db.otps, c.phone, o);
    }
    var found := FindByPhone(s.db.users, c.phone);
    if found.Some? {
      assert Holds(s.db.users, c.phone, found.value);
      forall u | Holds(s.db.users, c.phone, u) ensures u == found.value {
        assert s.db.users[u].phone == s.db.users[found.value].phone;
      }
    }
    VerifyTable(t, c);
  }

  lemma VerifyTable(s: Store, c: Command)
    requires c.VerifyOtp?
    ensures var r, found := DoVerifyOtp(s, c).response, FindByPhone(s.db.users, c.phone);
            var latest := IsLatestActive(s.db.otps, c.phone, c.pick);
            if !latest then r == Failed(OtpInvalid(None))
            else if s.db.otps[c.pick].expiresAt <= c.now then r == Failed(OtpExpired)
            else if s.db.otps[c.pick].codeHash != Digest(c.code) then
              r.Failed? && (r.error.OtpTooManyAttempts? || (r.error.OtpInvalid? && r.error.attemptsRemaining.Some?))
            else if found.None? then r == Failed(UserNotFound)
            else if s.db.users[found.value].status == Suspended then r == Failed(UserSuspended)
            else r.LoggedIn? && r.claims.sub == found.value
  {
  }

  /** What a wrong code costs. */
  lemma WrongCodeIff(s: Store, c: Command)
    requires c.VerifyOtp?
    requires NewestUnused(s.db.otps, c.phone, c.pick) && c.now < s.db.otps[c.pick].expiresAt
    ensures var r, n := Step(s, c).response, s.db.otps[c.pick].attempts + 1;
            var counted := r.Failed?
                && (r.error.OtpTooManyAttempts? || (r.error.OtpInvalid? && r.error.attemptsRemaining.Some?));
            && (counted <==> s.db.otps[c.pick].codeHash != Digest(c.code))
            && (counted ==> r.error == if n >= s.cfg.otpMaxAttempts then OtpTooManyAttempts(n)
                else OtpInvalid(Some(s.cfg.otpMaxAttempts - n)))
  {
    LatestIsNewest(s.db.otps, c.phone, c.pick);
    VerifyTable(s.(clock := c.now), c);
    if s.db.otps[c.pick].codeHash != Digest(c.code) { WrongError(s.(clock := c.now), c); }
  }

  lemma WrongError(s: Store, c: Command)
    requires c.VerifyOtp? && IsLatestActive(s.db.otps, c.phone, c.pick) && c.now < s.db.otps[c.pick].expiresAt
    requires s.db.otps[c.pick].codeHash != Digest(c.code)
    ensures var n := s.db.otps[c.pick].attempts + 1;
            DoVerifyOtp(s, c).response == Failed(if n >= s.cfg.otpMaxAttempts then OtpTooManyAttempts(n)
                else OtpInvalid(Some(s.cfg.otpMaxAttempts - n)))
  {
  }

  /** A counted try is stored at once, and burns the code at the ceiling. */
  lemma WrongCodeCounts(s: Store, c: Command)
    requires c.VerifyOtp? && NewestUnused(s.db.otps, c.phone, c.pick) && c.now < s.db.otps[c.pick].expiresAt
    requires s.db.otps[c.pick].codeHash != Digest(c.code)
    ensures var n := s.db.otps[c.pick].attempts + 1;
            Step(s, c).store.db.otps == s.db.otps[c.pick := s.db.otps[c.pick].(
              attempts := n, consumedAt := if n >= s.cfg.otpMaxAttempts then Some(c.now) else None)]
  {
    LatestIsNewest(s.db.otps, c.phone, c.pick);
    WrongStored(s.(clock := c.now), c);
  }

  lemma WrongStored(s: Store, c: Command)
    requires c.VerifyOtp? && IsLatestActive(s.db.otps, c.phone, c.pick) && c.now < s.db.otps[c.pick].expiresAt
    requires s.db.otps[c.pick].codeHash != Digest(c.code)
    ensures var n := s.db.otps[c.pick].attempts + 1;
            DoVerifyOtp(s, c).store.db.otps == s.db.otps[c.pick := s.db.otps[c.pick].(
              attempts := n, consumedAt := if n >= s.cfg.otpMaxAttempts then Some(c.now) else None)]
  {
  }

  /** What goes out on the bus: the event, or the loss of it. */
  ghost predicate Announced(s: Store, s': Store, e: Event, up: bool) {
    if up then s'.events == s.events + [e] && s'.lossless == s.lossless else s'.events == s.events && !s'.lossless
  }

  /** A first login makes the account usable, in the state its request calls
      for, with one audit row and one event; a later one leaves it alone. */
  ghost predicate Entered(s: Store, s': Store, c: Command, u: UserId)
    requires c.VerifyOtp?
  {
    && u in s.db.users && u in s'.db.users && Holds(s.db.users, c.phone, u)
    && var a, a' := s.db.users[u], s'.db.users[u];
       if a.status == PendingVerification then
         && (a'.status == PendingKyc <==> a.requested != None) && (a'.status == Active <==> a.requested == None)
         && s'.db.statusLog ==
             s.db.statusLog + [StatusChange(u, PendingVerification, a'.status, Some("Vérification OTP"), None, c.now)]
         && Announced(s, s', UserRegistered(u, a.phone, a.role), c.busUp)
       else
         a' == a && s'.db.statusLog == s.db.statusLog && s'.events == s.events && s'.lossless == s.lossless
  }

  lemma LoginEnters(s: Store, c: Command)
    requires c.VerifyOtp? && Step(s, c).response.LoggedIn?
    ensures Entered(s, Step(s, c).store, c, Step(s, c).response.claims.sub)
  {
    var t := s.(clock := c.now);
    VerifyCases(t, c);
    AdmittedEnters(t, c, Step(s, c).response.claims.sub);
  }

  /** The session that a login opens: a stored token, the spent code, and an
      answer that shows the account as it now is. */
  ghost predicate Opened(s: Store, s': Store, c: Command, u: UserId)
    requires c.VerifyOtp?
  {
    && c.pick in s.db.otps && s'.db.otps == s.db.otps[c.pick := s.db.otps[c.pick].(consumedAt := Some(c.now))]
    && s'.db.tokens == s.db.tokens[c.newToken :=
         RefreshToken(u, Digest(c.raw), c.device, c.now + s.cfg.refreshLifetime, c.now, None)]
  }

  lemma LoginOpens(s: Store, c: Command)
    requires c.VerifyOtp? && Step(s, c).response.LoggedIn?
    ensures var r, s' := Step(s, c).response, Step(s, c).store;
            && Opened(s, s', c, r.claims.sub) && r.claims.sub in s'.db.users && r.token == c.raw
            && Names(r.claims, r.claims.sub, s'.db.users[r.claims.sub])
            && Shows(r.profile, r.claims.sub, s'.db.users[r.claims.sub])
  {
    var t := s.(clock := c.now);
    VerifyCases(t, c);
    AdmittedOpens(t, c, Step(s, c).response.claims.sub);
    LoginShows(t, c);
  }

  lemma AdmittedOpens(s: Store, c: Command, u: UserId)
    requires c.VerifyOtp? && IsLatestActive(s.db.otps, c.phone, c.pick) && u in s.db.users
    ensures Opened(s, Admitted(s, c, u), c, u)
  {
  }

  lemma LoginShows(s: Store, c: Command)
    requires c.VerifyOtp? && DoVerifyOtp(s, c).response.LoggedIn?
    ensures var r, s' := DoVerifyOtp(s, c).response, DoVerifyOtp(s, c).store;
            && r.claims.sub in s'.db.users && r.token == c.raw
            && Names(r.claims, r.claims.sub, s'.db.users[r.claims.sub])
            && Shows(r.profile, r.claims.sub, s'.db.users[r.claims.sub])
  {
    VerifyCases(s, c);
  }

  lemma AdmittedEnters(s: Store, c: Command, u: UserId)
    requires c.VerifyOtp? && c.pick in s.db.otps && Holds(s.db.users, c.phone, u)
    ensures Entered(s, Admitted(s, c, u), c, u)
  {
  }

  // ---------------------------------------------------------------------
  // Refresh

  predicate Presented(tokens: map<TokenId, RefreshToken>, raw: string, t: TokenId) {
    t in tokens && tokens[t].hash == Digest(raw)
  }

  /** The account may go on with its session. */
  predicate Usable(users: map<UserId, Account>, u: UserId) {
    u in users && (users[u].status == Active || users[u].status == PendingKyc)
  }

  lemma RefreshIff(s: Store, c: Command)
    requires c.RefreshAccessToken? && UniqueHashes(s.db.tokens)
    ensures var r, tokens := Step(s, c).response, s.db.tokens;
            && (r.Refreshed? <==> exists t ::
                  && Presented(tokens, c.presented, t) && tokens[t].revokedAt == None && c.now < tokens[t].expiresAt
                  && Usable(s.db.users, tokens[t].owner))
            && (r == Failed(RefreshTokenRevoked) <==> exists t ::
                Presented(tokens, c.presented, t) && tokens[t].revokedAt != None)
            && (r == Failed(UserSuspended) <==> exists t ::
                  && Presented(tokens, c.presented, t) && tokens[t].revokedAt == None && c.now < tokens[t].expiresAt
                  && tokens[t].owner in s.db.users && !Usable(s.db.users, tokens[t].owner))
            && (r == Failed(RefreshTokenInvalid) <==> forall t :: Presented(tokens, c.presented, t) ==>
                  tokens[t].revokedAt == None && (tokens[t].expiresAt <= c.now || tokens[t].owner !in s.db.users))
  {
    var found := FindByHash(s.db.tokens, Digest(c.presented));
    if found.Some? {
      assert Presented(s.db.tokens, c.presented, found.value);
      forall t | Presented(s.db.tokens, c.presented, t) ensures t == found.value {
        assert s.db.tokens[t].hash == s.db.tokens[found.value].hash;
      }
    }
    RefreshTable(s.(clock := c.now), c);
  }

  lemma RefreshTable(s: Store, c: Command)
    requires c.RefreshAccessToken?
    ensures var r, found := DoRefresh(s, c).response, FindByHash(s.db.tokens, Digest(c.presented));
            if found.None? then r == Failed(RefreshTokenInvalid)
            else
              var t := s.db.tokens[found.value];
              if t.revokedAt != None then r == Failed(RefreshTokenRevoked)
              else if t.expiresAt <= c.now || t.owner !in s.db.users then r == Failed(RefreshTokenInvalid)
              else if Usable(s.db.users, t.owner) then r.Refreshed?
              else r == Failed(UserSuspended)
  {
  }

  /** The successor: same owner and login, the device given or else the old
      one, a new lifetime; the presented token dies now and no other moves. */
  lemma RefreshRotates(s: Store, c: Command, t: TokenId)
    requires c.RefreshAccessToken? && UniqueHashes(s.db.tokens) && Step(s, c).response.Refreshed?
    requires Presented(s.db.tokens, c.presented, t) && c.newToken !in s.db.tokens && t in s.family
    ensures var was, tokens' := s.db.tokens[t], Step(s, c).store.db.tokens;
            && tokens'.Keys == s.db.tokens.Keys + {c.newToken}
            && tokens'[c.newToken].owner == was.owner && tokens'[c.newToken].expiresAt == c.now + s.cfg.refreshLifetime
            && tokens'[c.newToken].device == (if c.device != None && c.device != Some("") then c.device else was.device)
            && Step(s, c).store.family[c.newToken] == s.family[t]
            && tokens'[t] == was.(revokedAt := Some(c.now))
            && was.owner in s.db.users && Names(Step(s, c).response.claims, was.owner, s.db.users[was.owner])
            && Step(s, c).response.token == c.raw && tokens'[c.newToken].hash == Digest(c.raw)
            && tokens'[c.newToken].revokedAt == None && tokens'[c.newToken].createdAt == c.now
            && forall r :: r in s.db.tokens && r != t ==> tokens'[r] == s.db.tokens[r]
  {
    var found := FindByHash(s.db.tokens, Digest(c.presented));
    assert s.db.tokens[found.value].hash == s.db.tokens[t].hash;
  }

  // ---------------------------------------------------------------------
  // Code requests

  predicate AddressBusy(l: Limits, ip: string, now: Time) {
    ip != "" && ip in l.counters && now < l.counters[ip].expiresAt && l.counters[ip].count >= 10
  }

  predicate PhoneWaits(l: Limits, phone: Phone, cooldown: int, now: Time) {
    cooldown > 0 && phone in l.cooldowns && now < l.cooldowns[phone]
  }

  lemma RequestIff(s: Store, c: Command)
    requires c.RequestOtp?
    ensures Step(s, c).response ==
            if AddressBusy(s.limits, c.ip, c.now) then Failed(RateLimited(s.cfg.otpCooldown))
            else if PhoneWaits(s.limits, c.phone, s.cfg.otpCooldown, c.now)
              then Failed(RateLimited(s.limits.cooldowns[c.phone] - c.now))
            else OtpRequested(s.cfg.otpLifetime, s.cfg.otpCooldown)
  {
  }

  /** A code is stored exactly for an answered request on a phone that has an
      account. */
  lemma CodeStoredIff(s: Store, c: Command)
    requires Admissible(s, c) && c.RequestOtp?
    ensures var otps' := Step(s, c).store.db.otps;
            && (c.newOtp in otps' <==> Step(s, c).response.OtpRequested? && exists u :: Holds(s.db.users, c.phone, u))
            && (c.newOtp in otps' ==> otps' == s.db.otps[c.newOtp :=
                  OtpCode(c.phone, Digest(c.code), c.now + s.cfg.otpLifetime, c.now, None, 0)])
            && (c.newOtp !in otps' ==> otps' == s.db.otps)
  {
    var found := FindByPhone(s.db.users, c.phone);
    if found.Some? { assert Holds(s.db.users, c.phone, found.value); }
    assert (exists u :: Holds(s.db.users, c.phone, u)) <==> found.Some?;
  }

  /** Every request with an address counts; a window is 600 seconds from the
      first of its requests; the cooldown starts with an answered request. */
  lemma RequestCounts(s: Store, c: Command)
    requires c.RequestOtp?
    ensures var l, l' := s.limits, Step(s, c).store.limits;
            && (c.ip == "" ==> l'.counters == l.counters)
            && (c.ip != "" ==> l'.counters == l.counters[c.ip :=
                  if c.ip in l.counters && c.now < l.counters[c.ip].expiresAt
                  then Counter(l.counters[c.ip].count + 1, l.counters[c.ip].expiresAt)
                  else Counter(1, c.now + 600)])
            && l'.cooldowns == if Step(s, c).response.OtpRequested? && s.cfg.otpCooldown > 0
                               then l.cooldowns[c.phone := c.now + s.cfg.otpCooldown] else l.cooldowns
  {
  }

  // ---------------------------------------------------------------------
  // Roles

  /** Nothing moved but the clock. */
  ghost predicate Idle(s: Store, s': Store, now: Time) {
    s' == s.(clock := now)
  }

  /** Exactly one role row was added, with these columns. */
  ghost predicate RoleRow(s: Store, s': Store, row: RoleChange) {
    s'.db.roleLog == s.db.roleLog + [row]
  }

  lemma ChangeRoleErrors(s: Store, c: Command)
    requires c.ChangeRole?
    ensures var r, s' := Step(s, c).response, Step(s, c).store;
            (r.Failed? <==> c.user !in s.db.users) && (r.Failed? ==> r.error == UserNotFound && Idle(s, s', c.now))
  {
  }

  lemma KycRoleShows(s: Store, c: Command)
    requires c.ChangeRole? && c.user in s.db.users && (c.role == Driver || c.role == Merchant)
    ensures var r, s' := Step(s, c).response, Step(s, c).store;
            r.Answer? && c.user in s'.db.users && Shows(r.profile, c.user, s'.db.users[c.user])
  {
  }

  lemma OtherRoleShows(s: Store, c: Command)
    requires c.ChangeRole? && c.user in s.db.users && (c.role == User || c.role == Admin)
    ensures var r, s' := Step(s, c).response, Step(s, c).store;
            r.Answer? && c.user in s'.db.users && Shows(r.profile, c.user, s'.db.users[c.user])
  {
  }

  /** A role command answers with the account as it now is. */
  lemma ChangeRoleShows(s: Store, c: Command)
    requires c.ChangeRole? && c.user in s.db.users
    ensures var r, s' := Step(s, c).response, Step(s, c).store;
            r.Answer? && c.user in s'.db.users && Shows(r.profile, c.user, s'.db.users[c.user])
  {
    if c.role == Driver || c.role == Merchant { KycRoleShows(s, c); } else { OtherRoleShows(s, c); }
  }

  /** Asking for Driver or Merchant never changes the role; it leaves the
      request pending when the role differs. */
  lemma KycRoleAsked(s: Store, c: Command)
    requires c.ChangeRole? && (c.role == Driver || c.role == Merchant) && c.user in s.db.users
    ensures var s' := Step(s, c).store; var a := s.db.users[c.user];
            && c.user in s'.db.users && s'.db.users[c.user].role == a.role
            && s'.db.users[c.user].requested == (if a.role == c.role then a.requested else Some(c.role))
            && (a.role == c.role || a.requested == Some(c.role) <==> Idle(s, s', c.now))
            && (!Idle(s, s', c.now) ==>
                  && RoleRow(s, s', RoleChange(c.user, a.role, None, Some(c.role), c.reason, c.actor, c.now))
                  && Announced(s, s', UserUpdated(c.user, a.phone, a.role, ["requested_role"]), c.busUp))
  {
  }

  /** Any other role is granted at once and settles what was pending. */
  lemma OtherRoleGranted(s: Store, c: Command)
    requires c.ChangeRole? && (c.role == User || c.role == Admin) && c.user in s.db.users
    ensures var s' := Step(s, c).store; var a := s.db.users[c.user];
            && c.user in s'.db.users && s'.db.users[c.user].role == c.role
            && s'.db.users[c.user].requested == (if a.role == c.role then a.requested else None)
            && (a.role == c.role <==> Idle(s, s', c.now))
            && (!Idle(s, s', c.now) ==>
                  && RoleRow(s, s', RoleChange(c.user, a.role, Some(c.role), None, c.reason, c.actor, c.now))
                  && Announced(s, s', UserRoleChanged(c.user, a.phone, c.role, a.role, c.role), c.busUp))
  {
  }

  // ---------------------------------------------------------------------
  // Decisions

  /** An approval grants the requested role and a refusal keeps the old one;
      either way nothing is pending and a parked account becomes active. */
  lemma DecideKycIff(s: Store, c: Command)
    requires c.DecideKyc?
    ensures var r, s' := Step(s, c).response, Step(s, c).store;
            && (r == Failed(UserNotFound) <==> c.user !in s.db.users)
            && (r == Failed(NoKycPending) <==> c.user in s.db.users && s.db.users[c.user].requested == None)
            && (r.Failed? ==> Idle(s, s', c.now))
            && (c.user in s.db.users && s.db.users[c.user].requested != None ==>
                  && c.user in s'.db.users && r.Answer? && Shows(r.profile, c.user, s'.db.users[c.user])
                  && var a, a' := s.db.users[c.user], s'.db.users[c.user];
                     && a'.role == (if c.approved then a.requested.value else a.role) && a'.requested == None
                     && a'.status == (if a.status == PendingKyc then Active else a.status)
                     && RoleRow(s, s', RoleChange(c.user, a.role, if c.approved then a.requested else None, a.requested,
                                                  c.reason, c.actor, c.now))
                     && Announced(s, s', if c.approved then UserRoleChanged(c.user, a.phone, a'.role, a.role, a'.role)
                                         else UserUpdated(c.user, a.phone, a.role, ["requested_role"]), c.busUp))
  {
  }

  /** The released account has one status row, with the reason given or a
      standard one that names the decision. */
  lemma DecisionReleases(s: Store, c: Command)
    requires c.DecideKyc? && c.user in s.db.users && s.db.users[c.user].requested != None
    ensures var log, log' := s.db.statusLog, Step(s, c).store.db.statusLog;
            var reason := if c.reason != None && c.reason != Some("") then c.reason
                          else if c.approved then Some("Décision KYC : accordé") else Some("Décision KYC : refusé");
            log' == if s.db.users[c.user].status == PendingKyc
                    then log + [StatusChange(c.user, PendingKyc, Active, reason, c.actor, c.now)] else log
  {
  }

  // ---------------------------------------------------------------------
  // Statuses and profiles

  /** An admin can suspend any account that is not suspended, and make active
      any account that is not active; nothing else. */
  lemma ChangeStatusIff(s: Store, c: Command)
    requires c.ChangeStatus?
    ensures var r, s' := Step(s, c).response, Step(s, c).store;
            var settable := c.status == Active || c.status == Suspended;
            && (r == Failed(StatusNotSettable) <==> !settable)
            && (r == Failed(UserNotFound) <==> settable && c.user !in s.db.users)
            && (r.Failed? && r.error.InvalidStatusTransition? <==>
                  settable && c.user in s.db.users && s.db.users[c.user].status == c.status)
            && (r.Answer? <==> settable && c.user in s.db.users && s.db.users[c.user].status != c.status)
            && (r.Failed? ==> Idle(s, s', c.now))
  {
  }

  lemma StatusMoves(s: Store, c: Command)
    requires c.ChangeStatus? && Step(s, c).response.Answer?
    ensures var s' := Step(s, c).store;
            && c.user in s.db.users && c.user in s'.db.users && s'.db.users[c.user].status == c.status
            && Shows(Step(s, c).response.profile, c.user, s'.db.users[c.user])
            && s'.db.statusLog ==
                s.db.statusLog + [StatusChange(c.user, s.db.users[c.user].status, c.status, c.reason, c.admin, c.now)]
            && Announced(s, s', UserStatusChanged(c.user, s.db.users[c.user].phone, s.db.users[c.user].role,
                                                  s.db.users[c.user].status, c.status, c.reason), c.busUp)
            && forall t :: t in s.db.tokens ==>
                 && t in s'.db.tokens
                 && s'.db.tokens[t] == if c.status == Suspended && s.db.tokens[t].owner == c.user
                     && s.db.tokens[t].revokedAt == None
                                       then s.db.tokens[t].(revokedAt := Some(c.now)) else s.db.tokens[t]
  {
  }

  /** A profile changes exactly when a name is given that differs. */
  lemma UpdateProfileIff(s: Store, c: Command)
    requires c.UpdateProfile?
    ensures var r, s' := Step(s, c).response, Step(s, c).store;
            && (r.Failed? <==> c.user !in s.db.users) && (r.Failed? ==> r.error == UserNotFound && Idle(s, s', c.now))
            && (c.user in s.db.users ==>
                  && c.user in s'.db.users && r.Answer? && Shows(r.profile, c.user, s'.db.users[c.user])
                  && var a, a' := s.db.users[c.user], s'.db.users[c.user];
                     && (Idle(s, s', c.now) <==> c.name == None || c.name == a.fullName)
                     && (!Idle(s, s', c.now) ==>
                           && a'.fullName == c.name
                           && Announced(s, s', UserUpdated(c.user, a.phone, a.role, ["full_name"]), c.busUp)))
  {
  }

  // ---------------------------------------------------------------------
  // Names on the wire

  /** The names subscribers filter on. */
  lemma WireNames(e: Event)
    ensures e.Name() in {"user.registered", "user.updated", "user.role_changed", "user.suspended"}
    ensures e.Name() == "user.registered" <==> e.UserRegistered?
    ensures e.Name() == "user.role_changed" <==> e.UserRoleChanged?
    ensures e.Name() == "user.suspended" <==> e.UserStatusChanged? && e.newStatus == Suspended
  {
  }
}

/** The service itself: one object over a database session, a Redis limiter and
    a stream. Each command runs the repository calls in the order the service
    makes them, commits or rolls back, and is proved to be the step of `IdentityStore`. */
module IdentityService {
  import opened Domain
  import opened RateLimiter
  import opened IdentityStore

  lemma {:induction false} LatestAmong(otps: map<OtpId, OtpCode>, pool: set<OtpId>) returns (o: OtpId)
    requires pool != {} && forall p :: p in pool ==> p in otps
    ensures o in pool && forall p :: p in pool ==> otps[p].createdAt <= otps[o].createdAt
    decreases |pool|
  {
    var first :| first in pool;
    var rest := pool - {first};
    o := first;
    if rest != {} {
      var q := LatestAmong(otps, rest);
      if otps[first].createdAt < otps[q].createdAt { o := q; }
      forall p | p in pool ensures otps[p].createdAt <= otps[o].createdAt {
        assert p == first || p in rest;
      }
    }
  }

  lemma LatestExists(otps: map<OtpId, OtpCode>, phone: Phone)
    requires exists o :: IsActive(otps, phone, o)
    ensures exists o :: o in otps && IsLatestActive(otps, phone, o)
  {
    var o :| IsActive(otps, phone, o);
    var pool := set p | p in otps && IsActive(otps, phone, p);
    assert o in pool;
    var latest := LatestAmong(otps, pool);
    assert IsLatestActive(otps, phone, latest);
  }

  lemma AddedUnique(tokens: map<TokenId, RefreshToken>, id: TokenId, row: RefreshToken)
    requires UniqueHashes(tokens) && id !in tokens
    requires forall t {:trigger tokens[t].hash} :: t in tokens ==> tokens[t].hash != row.hash
    ensures UniqueHashes(tokens[id := row])
  {
  }

  lemma RevokedUnique(tokens: map<TokenId, RefreshToken>, t: TokenId, now: Time)
    requires UniqueHashes(tokens)
    ensures UniqueHashes(Revoked(tokens, t, now))
    ensures Revoked(tokens, t, now).Keys == tokens.Keys
    ensures forall r {:trigger Revoked(tokens, t, now)[r].hash} :: r in tokens ==>
            Revoked(tokens, t, now)[r].hash == tokens[r].hash
  {
  }

  lemma RevokedAllUnique(tokens: map<TokenId, RefreshToken>, user: UserId, now: Time)
    requires UniqueHashes(tokens)
    ensures UniqueHashes(RevokedAll(tokens, user, now))
  {
  }

  lemma SavedUnique(users: map<UserId, Account>, id: UserId, a: Account, now: Time)
    requires UniquePhones(users)
    requires id in users || forall u {:trigger users[u].phone} :: u in users ==> users[u].phone != a.phone
    ensures UniquePhones(Saved(users, id, a, now))
  {
  }

  lemma NoRows<T>(log: seq<T>)
    ensures log + [] == log
  {
  }

  lemma AdmittedUnique(s: Store, c: Command, id: UserId)
    requires c.VerifyOtp? && c.pick in s.db.otps && id in s.db.users && FreshToken(s, c.newToken, c.raw)
    requires UniquePhones(s.db.users) && UniqueHashes(s.db.tokens)
    ensures UniquePhones(Admitted(s, c, id).db.users) && UniqueHashes(Admitted(s, c, id).db.tokens)
  {
    SavedUnique(s.db.users, id, Verified(s.db.users[id]), c.now);
    AddedUnique(s.db.tokens, c.newToken,
        RefreshToken(id, Digest(c.raw), c.device, c.now + s.cfg.refreshLifetime, c.now, None));
  }

  class Service {
    const cfg: Settings
    const limiter: RedisOtpRateLimiter
    /** What is committed, and what the open transaction sees. */
    var db: Tables
    var tx: Tables
    var events: seq<Event>
    ghost var ledger: seq<Verdict>
    ghost var family: map<TokenId, nat>
    ghost var drops: seq<UserId>
    ghost var lossless: bool
    ghost var clock: Time

    ghost function View(): Store
      reads this, limiter
    {
      Store(cfg, db, limiter.View(), events, ledger, family, drops, lossless, clock)
    }

    /** Between commands no transaction is open; the two columns looked up by
        equality are unique. */
    ghost predicate Valid()
      reads this
    {
      tx == db && UniquePhones(db.users) && UniqueHashes(db.tokens)
    }

    constructor (cfg: Settings, users: map<UserId, Account>, now: Time)
      requires UniquePhones(users)
      requires forall u :: u in users ==> users[u].requested.None? && !users[u].status.PendingKyc?
      ensures Valid() && Genesis(View()) && View().cfg == cfg && View().db.users == users && clock == now
      ensures fresh(limiter)
    {
      this.cfg := cfg;
      limiter := new RedisOtpRateLimiter();
      db := Tables(users, map[], map[], [], []);
      tx := Tables(users, map[], map[], [], []);
      events, ledger, family, drops, lossless, clock := [], [], map[], [], true, now;
    }

    // --- session ---------------------------------------------------------

    method Commit()
      modifies this`db
      ensures db == tx
    {
      db := tx;
    }

    /** An error answer that reaches the end of the request rolls back whatever
        was not committed. */
    method Raise(e: Error) returns (r: Response)
      modifies this`tx
      ensures tx == db && r == Failed(e)
    {
      tx := db;
      r := Failed(e);
    }

    // --- repositories ----------------------------------------------------

    method LookupPhone(phone: Phone) returns (r: Option<UserId>)
      requires UniquePhones(tx.users)
      ensures r == FindByPhone(tx.users, phone)
    {
      if u :| u in tx.users && tx.users[u].phone == phone {
        return Some(u);
      }
      return None;
    }

    method LookupHash(hash: Digest) returns (r: Option<TokenId>)
      requires UniqueHashes(tx.tokens)
      ensures r == FindByHash(tx.tokens, hash)
    {
      if t :| t in tx.tokens && tx.tokens[t].hash == hash {
        return Some(t);
      }
      return None;
    }

    method LookupLatestActive(phone: Phone) returns (r: Option<OtpId>)
      ensures r.None? ==> forall o :: !IsActive(tx.otps, phone, o)
      ensures r.Some? ==> IsLatestActive(tx.otps, phone, r.value)
    {
      if exists o | o in tx.otps :: IsActive(tx.otps, phone, o) {
        LatestExists(tx.otps, phone);
        var o :| o in tx.otps && IsLatestActive(tx.otps, phone, o);
        return Some(o);
      }
      return None;
    }

    method SaveUser(id: UserId, user: Account, now: Time)
      modifies this`tx
      ensures tx == old(tx).(users := Saved(old(tx).users, id, user, now))
    {
      if id !in tx.users {
        tx := tx.(users := tx.users[id := user.(updatedAt := now)]);
      } else {
        var row := tx.users[id];
        row := row.(fullName := user.fullName);
        row := row.(role := user.role);
        row := row.(status := user.status);
        row := row.(requested := user.requested);
        row := row.(updatedAt := now);
        tx := tx.(users := tx.users[id := row]);
      }
    }

    method RecordStatusChange(row: StatusChange)
      modifies this`tx
      ensures tx == old(tx).(statusLog := old(tx).statusLog + [row])
    {
      tx := tx.(statusLog := tx.statusLog + [row]);
    }

    method RecordRoleChange(row: RoleChange)
      modifies this`tx
      ensures tx == old(tx).(roleLog := old(tx).roleLog + [row])
    {
      tx := tx.(roleLog := tx.roleLog + [row]);
    }

    method SaveOtp(id: OtpId, otp: OtpCode)
      modifies this`tx
      ensures tx == old(tx).(otps := old(tx).otps[id := otp])
    {
      tx := tx.(otps := tx.otps[id := otp]);
    }

    method RegisterAttempt(id: OtpId) returns (attempts: nat)
      requires id in tx.otps
      modifies this`tx
      ensures tx == old(tx).(otps := Attempted(old(tx).otps, id))
      ensures attempts == old(tx).otps[id].attempts + 1
    {
      tx := tx.(otps := tx.otps[id := tx.otps[id].(attempts := tx.otps[id].attempts + 1)]);
      attempts := tx.otps[id].attempts;
    }

    method MarkConsumed(id: OtpId, now: Time)
      modifies this`tx
      ensures tx == old(tx).(otps := if id in old(tx).otps then Consumed(old(tx).otps, id, now) else old(tx).otps)
    {
      if id !in tx.otps || tx.otps[id].consumedAt.Some? {
        return;
      }
      tx := tx.(otps := tx.otps[id := tx.otps[id].(consumedAt := Some(now))]);
    }

    method SaveToken(id: TokenId, token: RefreshToken)
      modifies this`tx
      ensures tx == old(tx).(tokens := old(tx).tokens[id := token])
    {
      tx := tx.(tokens := tx.tokens[id := token]);
    }

    method RevokeToken(id: TokenId, now: Time)
      modifies this`tx
      ensures tx == old(tx).(tokens := Revoked(old(tx).tokens, id, now))
    {
      if id in tx.tokens && tx.tokens[id].revokedAt.None? {
        tx := tx.(tokens := tx.tokens[id := tx.tokens[id].(revokedAt := Some(now))]);
      } else if id in tx.tokens {
        assert tx.tokens[id := tx.tokens[id]] == tx.tokens;
      }
    }

    /** Returns how many rows it revoked. */
    method RevokeAllForUser(user: UserId, now: Time) returns (revoked: nat)
      modifies this`tx
      ensures tx == old(tx).(tokens := RevokedAll(old(tx).tokens, user, now))
      ensures revoked == |set t | t in old(tx).tokens && old(tx).tokens[t].owner == user
              && old(tx).tokens[t].revokedAt.None?|
    {
      revoked := |set t | t in tx.tokens && tx.tokens[t].owner == user && tx.tokens[t].revokedAt.None?|;
      tx := tx.(tokens := map t | t in tx.tokens ::
        if tx.tokens[t].owner == user && tx.tokens[t].revokedAt.None?
        then tx.tokens[t].(revokedAt := Some(now)) else tx.tokens[t]);
      assert tx.tokens == RevokedAll(old(tx).tokens, user, now);
    }

    // --- cache and bus ---------------------------------------------------

    method InvalidateUser(user: UserId)
      modifies this`drops
      ensures drops == old(drops) + [user]
    {
      drops := drops + [user];
    }

    /** A bus failure is swallowed: the write has already landed. */
    method Publish(e: Event, busUp: bool)
      modifies this`events, this`lossless
      ensures events == if busUp then old(events) + [e] else old(events)
      ensures lossless == (busUp && old(lossless))
    {
      if busUp {
        events := events + [e];
      } else {
        lossless := false;
      }
    }

    /** Commit, drop the cached profile, announce: the tail of every command
        that writes an account. `s` is the store before the command. */
    method Conclude(ghost s: Store, id: UserId, ghost user: Account, ghost now: Time,
                    ghost statusRows: seq<StatusChange>, ghost roleRows: seq<RoleChange>, e: Event, busUp: bool)
      requires View() == s.(db := db)
      requires tx == s.db.(users := Saved(s.db.users, id, user, now),
                           statusLog := s.db.statusLog + statusRows, roleLog := s.db.roleLog + roleRows)
      modifies this`db, this`drops, this`events, this`lossless
      ensures View() == Updated(s, id, user, now, statusRows, roleRows, e, busUp) && tx == db
    {
      Commit();
      InvalidateUser(id);
      Publish(e, busUp);
    }

    // --- commands --------------------------------------------------------

    method RegisterUser(phone: Phone, name: Option<string>, newUser: UserId, now: Time) returns (r: Response)
      requires Valid() && clock <= now && newUser !in db.users
      modifies this
      ensures var o := Step(old(View()), Command.RegisterUser(phone, name, newUser, now));
              Valid() && View() == o.store && r == o.response
    {
      clock := now;
      var taken := LookupPhone(phone);
      if taken.Some? {
        r := Raise(PhoneAlreadyRegistered);
        return;
      }
      var fullName := if name == Some("") then None else name;
      SaveUser(newUser, Account(phone, fullName, User, PendingVerification, None, now, now), now);
      Commit();
      r := Registered(newUser, PendingVerification);
    }

    /** A code is only made for a phone that has an account; the cooldown is
        armed, and the answer given, either way. */
    method Accept(phone: Phone, newOtp: OtpId, code: string, now: Time) returns (r: Response)
      requires Valid()
      modifies this`tx, this`db, limiter
      ensures Valid() && r == OtpRequested(cfg.otpLifetime, cfg.otpCooldown)
      ensures limiter.View() == MarkSent(old(limiter.View()), phone, cfg.otpCooldown, now)
      ensures db == if FindByPhone(old(db).users, phone).None? then old(db)
                    else old(db).(otps :=
                        old(db).otps[newOtp := OtpCode(phone, Digest(code), now + cfg.otpLifetime, now, None, 0)])
    {
      var user := LookupPhone(phone);
      if user.Some? {
        SaveOtp(newOtp, OtpCode(phone, Digest(code), now + cfg.otpLifetime, now, None, 0));
        Commit();
      }
      limiter.MarkPhoneSent(phone, cfg.otpCooldown, now);
      r := OtpRequested(cfg.otpLifetime, cfg.otpCooldown);
    }

    /** Address first, then phone; Some carries the seconds to wait. */
    method CheckLimits(phone: Phone, ip: string, now: Time) returns (refused: Option<int>)
      modifies limiter
      ensures limiter.View() == HitIp(old(limiter.View()), ip, now)
      ensures var left := CooldownLeft(limiter.View(), phone, cfg.otpCooldown, now);
              refused == if !Allowed(old(limiter.View()), ip, now) then Some(cfg.otpCooldown)
                         else if left > 0 then Some(left) else None
    {
      if ip != "" {
        var ok := limiter.Hit(ip, now);
        if !ok { return Some(cfg.otpCooldown); }
      }
      var left := limiter.SecondsUntilPhoneAllowed(phone, cfg.otpCooldown, now);
      return if left > 0 then Some(left) else None;
    }

    method RequestOtp(phone: Phone, ip: string, newOtp: OtpId, code: string, now: Time) returns (r: Response)
      requires Valid() && clock <= now && newOtp !in db.otps
      modifies this, limiter
      ensures var o := Step(old(View()), Command.RequestOtp(phone, ip, newOtp, code, now));
              Valid() && View() == o.store && r == o.response
    {
      clock := now;
      var refused := CheckLimits(phone, ip, now);
      if refused.Some? {
        r := Raise(RateLimited(refused.value));
        return;
      }
      r := Accept(phone, newOtp, code, now);
    }

    method WrongOtp(ghost c: Command, otp: OtpId, now: Time) returns (r: Response)
      requires Valid() && c.VerifyOtp? && c.pick == otp && c.now == now && IsLatestActive(tx.otps, c.phone, otp)
      modifies this`tx, this`db, this`ledger
      ensures View() == WrongCode(old(View()), c).store && r == WrongCode(old(View()), c).response && Valid()
    {
      ledger := ledger + [Verdict(c.phone, otp, now, false)];
      var attempts := RegisterAttempt(otp);
      if attempts >= cfg.otpMaxAttempts {
        // Burned: a code left alive after the ceiling would make it decorative.
        MarkConsumed(otp, now);
        Commit();
        r := Raise(OtpTooManyAttempts(attempts));
      } else {
        Commit();
        r := Raise(OtpInvalid(Some(cfg.otpMaxAttempts - attempts)));
      }
    }

    /** The first verification of an account, and nothing on later ones. */
    method Activate(id: UserId, found: Account, now: Time) returns (user: Account)
      modifies this`tx
      ensures user == Verified(found)
      ensures tx == if !found.status.PendingVerification? then old(tx) else old(tx).(
        users := Saved(old(tx).users, id, user, now),
        statusLog := old(tx).statusLog + [StatusChange(id, PendingVerification, user.status, OTP_REASON, None, now)])
    {
      user := found;
      if user.status.PendingVerification? {
        user := user.(status := if user.requested.Some? then PendingKyc else Active);
        SaveUser(id, user, now);
        RecordStatusChange(StatusChange(id, PendingVerification, user.status, OTP_REASON, None, now));
      }
    }

    /** The part of a verification after the account was found usable. */
    method Admit(ghost s: Store, ghost c: Command, id: UserId, device: Option<string>, newToken: TokenId, raw: string,
                 now: Time, busUp: bool)
      returns (user: Account)
      requires c.VerifyOtp? && c == Command.VerifyOtp(c.phone, c.code, device, c.pick, newToken, raw, now, busUp)
      requires c.pick in s.db.otps && id in s.db.users && db == s.db && View() == s
      requires tx == s.db.(otps := Consumed(s.db.otps, c.pick, now))
      modifies this
      ensures View() == Admitted(s, c, id) && user == Verified(s.db.users[id]) && tx == db
    {
      var first := tx.users[id].status.PendingVerification?;
      user := Activate(id, tx.users[id], now);
      SaveToken(newToken, RefreshToken(id, Digest(raw), device, now + cfg.refreshLifetime, now, None));
      Commit();
      family := family[newToken := |ledger|];
      ledger := ledger + [Verdict(c.phone, c.pick, now, true)];
      InvalidateUser(id);
      NoRows(s.db.roleLog);
      if first {
        Publish(UserRegistered(id, user.phone, user.role), busUp);
      }
    }

    method VerifyOtp(phone: Phone, code: string, device: Option<string>, newToken: TokenId, raw: string, now: Time,
                     busUp: bool)
      returns (r: Response, ghost pick: OtpId)
      requires Valid() && clock <= now && FreshToken(View(), newToken, raw)
      modifies this
      ensures var c := Command.VerifyOtp(phone, code, device, pick, newToken, raw, now, busUp);
              && old(Admissible(View(), c)) && Valid()
              && View() == Step(old(View()), c).store && r == Step(old(View()), c).response
    {
      clock := now;
      ghost var s := View();
      pick := 0;
      var found := LookupLatestActive(phone);
      if found.None? {
        assert s.db.otps == tx.otps;
        assert forall o :: !IsActive(s.db.otps, phone, o);
        r := Raise(OtpInvalid(None));
        return;
      }
      var otp := found.value;
      pick := otp;
      ghost var c := Command.VerifyOtp(phone, code, device, pick, newToken, raw, now, busUp);
      if tx.otps[otp].IsExpired(now) {
        r := Raise(OtpExpired);
        return;
      }
      if Digest(code) != tx.otps[otp].codeHash {
        r := WrongOtp(c, otp, now);
        return;
      }
      MarkConsumed(otp, now);
      var holder := LookupPhone(phone);
      if holder.None? {
        r := Raise(UserNotFound);
        return;
      }
      if tx.users[holder.value].status.Suspended? {
        r := Raise(UserSuspended);
        return;
      }
      var user := Admit(s, c, holder.value, device, newToken, raw, now, busUp);
      AdmittedUnique(s, c, holder.value);
      r := LoggedIn(ClaimsOf(holder.value, user), raw, ProfileOf(holder.value, user));
    }

    /** The part of a refresh after the presented token was found usable. */
    method Rotate(spent: TokenId, device: Option<string>, newToken: TokenId, raw: string, now: Time)
      returns (r: Response)
      requires Valid() && spent in db.tokens && db.tokens[spent].owner in db.users && FreshToken(View(), newToken, raw)
      modifies this`tx, this`db, this`family
      ensures View() == Rotated(old(View()), spent, device, newToken, raw, now) && Valid()
      ensures r == old(Refreshed(ClaimsOf(db.tokens[spent].owner, db.users[db.tokens[spent].owner]), raw))
    {
      var stored := tx.tokens[spent];
      var user := tx.users[stored.owner];
      RevokedUnique(tx.tokens, spent, now);
      RevokeToken(spent, now);
      var kept := if device == None || device == Some("") then stored.device else device;
      var token := RefreshToken(stored.owner, Digest(raw), kept, now + cfg.refreshLifetime, now, None);
      AddedUnique(tx.tokens, newToken, token);
      SaveToken(newToken, token);
      Commit();
      family := family[newToken := if spent in family then family[spent] else |ledger|];
      r := Refreshed(ClaimsOf(stored.owner, user), raw);
    }

    /** A revoked token came back: every session of its owner ends, for good,
        before the refusal. */
    method CloseSessions(owner: UserId, now: Time) returns (r: Response)
      requires Valid()
      modifies this`tx, this`db
      ensures Valid() && db == old(db).(tokens := RevokedAll(old(db).tokens, owner, now))
              && r == Failed(RefreshTokenRevoked)
    {
      RevokedAllUnique(tx.tokens, owner, now);
      var _ := RevokeAllForUser(owner, now);
      Commit();
      r := Raise(RefreshTokenRevoked);
    }

    method RefreshAccessToken(presented: string, device: Option<string>, newToken: TokenId, raw: string, now: Time)
      returns (r: Response)
      requires Valid() && clock <= now && FreshToken(View(), newToken, raw)
      modifies this
      ensures var o := Step(old(View()), Command.RefreshAccessToken(presented, device, newToken, raw, now));
              Valid() && View() == o.store && r == o.response
    {
      clock := now;
      var found := LookupHash(Digest(presented));
      if found.None? {
        r := Raise(RefreshTokenInvalid);
        return;
      }
      var stored := tx.tokens[found.value];
      if stored.revokedAt.Some? {
        r := CloseSessions(stored.owner, now);
        return;
      }
      if stored.expiresAt <= now || stored.owner !in tx.users {
        r := Raise(RefreshTokenInvalid);
        return;
      }
      if !SessionAllowed(tx.users[stored.owner].status) {
        r := Raise(UserSuspended);
        return;
      }
      r := Rotate(found.value, device, newToken, raw, now);
    }

    method Logout(presented: string, allDevices: bool, now: Time) returns (r: Response)
      requires Valid() && clock <= now
      modifies this
      ensures var o := Step(old(View()), Command.Logout(presented, allDevices, now));
              Valid() && View() == o.store && r == o.response
    {
      clock := now;
      r := LoggedOut;
      var found := LookupHash(Digest(presented));
      if found.None? {
        return;
      }
      if allDevices {
        var _ := RevokeAllForUser(tx.tokens[found.value].owner, now);
      } else {
        RevokeToken(found.value, now);
      }
      Commit();
    }

    method WriteRole(id: UserId, user: Account, row: RoleChange, e: Event, now: Time, busUp: bool)
      requires Valid() && id in tx.users
      modifies this
      ensures Valid() && View() == Updated(old(View()), id, user, now, [], [row], e, busUp)
    {
      ghost var s := View();
      SavedUnique(tx.users, id, user, now);
      NoRows(tx.statusLog);
      SaveUser(id, user, now);
      RecordRoleChange(row);
      Conclude(s, id, user, now, [], [row], e, busUp);
    }

    method ChangeRole(id: UserId, role: Role, reason: Option<string>, actor: Option<UserId>, now: Time, busUp: bool)
      returns (r: Response)
      requires Valid() && clock <= now
      modifies this
      ensures var o := Step(old(View()), Command.ChangeRole(id, role, reason, actor, now, busUp));
              Valid() && View() == o.store && r == o.response
    {
      clock := now;
      if id !in tx.users {
        r := Raise(UserNotFound);
        return;
      }
      var user := tx.users[id];
      if user.NeedsKycFor(role) {
        if user.requested == Some(role) {
          r := Answer(ProfileOf(id, user));
          return;
        }
        var previous := user.role;
        user := user.(requested := Some(role));
        WriteRole(id, user, RoleChange(id, previous, None, Some(role), reason, actor, now),
                  UserUpdated(id, user.phone, user.role, ["requested_role"]), now, busUp);
        r := Answer(ProfileOf(id, user));
        return;
      }
      if user.role == role {
        r := Answer(ProfileOf(id, user));
        return;
      }
      var oldRole := user.role;
      user := user.(role := role);
      user := user.(requested := None);
      WriteRole(id, user, RoleChange(id, oldRole, Some(role), None, reason, actor, now),
                UserRoleChanged(id, user.phone, role, oldRole, role), now, busUp);
      r := Answer(ProfileOf(id, user));
    }

    method Settle(found: Account, approved: bool) returns (user: Account)
      requires found.requested.Some?
      ensures user == Decided(found, approved)
    {
      user := found.(requested := None);
      if approved {
        user := user.(role := found.requested.value);
      }
      if found.status.PendingKyc? {
        user := user.(status := Active);
      }
    }

    method RecordDecision(id: UserId, previous: Account, user: Account, approved: bool, reason: Option<string>,
                          actor: Option<UserId>, now: Time)
      returns (statusRows: seq<StatusChange>, row: RoleChange)
      requires previous.requested.Some? && user == Decided(previous, approved)
      modifies this`tx
      ensures statusRows == DecisionStatusRows(id, previous, approved, reason, actor, now)
      ensures row == DecisionRow(id, previous, approved, reason, actor, now)
      ensures tx == old(tx).(users := Saved(old(tx).users, id, user, now),
                             statusLog := old(tx).statusLog + statusRows, roleLog := old(tx).roleLog + [row])
    {
      NoRows(tx.statusLog);
      SaveUser(id, user, now);
      statusRows := [];
      if user.status != previous.status {
        var change := StatusChange(id, previous.status, user.status, KycReason(reason, approved), actor, now);
        RecordStatusChange(change);
        statusRows := [change];
      }
      row := RoleChange(id, previous.role, if approved then previous.requested else None,
                        previous.requested, reason, actor, now);
      RecordRoleChange(row);
    }

    method CheckPending(id: UserId) returns (refused: Option<Error>)
      ensures refused == if id !in tx.users then Some(UserNotFound)
                         else if tx.users[id].requested.None? then Some(NoKycPending) else None
    {
      if id !in tx.users { return Some(UserNotFound); }
      return if tx.users[id].requested.None? then Some(NoKycPending) else None;
    }

    method DecideKyc(id: UserId, approved: bool, reason: Option<string>, actor: Option<UserId>, now: Time, busUp: bool)
      returns (r: Response)
      requires Valid() && clock <= now
      modifies this
      ensures var o := Step(old(View()), Command.DecideKyc(id, approved, reason, actor, now, busUp));
              Valid() && View() == o.store && r == o.response
    {
      clock := now;
      ghost var s := View();
      var refused := CheckPending(id);
      if refused.Some? {
        r := Raise(refused.value);
        return;
      }
      var user := Settle(tx.users[id], approved);
      SavedUnique(tx.users, id, user, now);
      var statusRows, row := RecordDecision(id, tx.users[id], user, approved, reason, actor, now);
      var e := if approved then UserRoleChanged(id, user.phone, user.role, row.before, user.role)
               else UserUpdated(id, user.phone, user.role, ["requested_role"]);
      Conclude(s, id, user, now, statusRows, [row], e, busUp);
      r := Answer(ProfileOf(id, user));
    }

    /** The row, its audit, and on a suspension every session of the account. */
    method WriteStatus(id: UserId, user: Account, row: StatusChange, now: Time)
      modifies this`tx
      ensures tx == old(tx).(users := Saved(old(tx).users, id, user, now), statusLog := old(tx).statusLog + [row],
                             tokens := if user.status.Suspended? then RevokedAll(old(tx).tokens, id, now)
                                 else old(tx).tokens)
    {
      SaveUser(id, user, now);
      RecordStatusChange(row);
      if user.status.Suspended? {
        var _ := RevokeAllForUser(id, now);
      }
    }

    method CheckTransition(id: UserId, status: Status) returns (refused: Option<Error>)
      ensures refused == if !AdminSettable(status) then Some(StatusNotSettable)
                         else if id !in tx.users then Some(UserNotFound)
                         else if !CanTransition(tx.users[id].status, status)
                             then Some(InvalidStatusTransition(tx.users[id].status, status))
                         else None
    {
      if !AdminSettable(status) { return Some(StatusNotSettable); }
      if id !in tx.users { return Some(UserNotFound); }
      var current := tx.users[id].status;
      if !CanTransition(current, status) { return Some(InvalidStatusTransition(current, status)); }
      return None;
    }

    method ChangeStatus(id: UserId, status: Status, reason: Option<string>, admin: Option<UserId>, now: Time,
                        busUp: bool)
      returns (r: Response)
      requires Valid() && clock <= now
      modifies this
      ensures var o := Step(old(View()), Command.ChangeStatus(id, status, reason, admin, now, busUp));
              Valid() && View() == o.store && r == o.response
    {
      clock := now;
      ghost var s := View();
      var refused := CheckTransition(id, status);
      if refused.Some? {
        r := Raise(refused.value);
        return;
      }
      var user := tx.users[id];
      var current := user.status;
      user := user.(status := status);
      SavedUnique(tx.users, id, user, now);
      RevokedAllUnique(tx.tokens, id, now);
      NoRows(tx.roleLog);
      var row := StatusChange(id, current, status, reason, admin, now);
      WriteStatus(id, user, row, now);
      Conclude(s.(db := s.db.(tokens := tx.tokens)), id, user, now, [row], [],
               UserStatusChanged(id, user.phone, user.role, current, status, reason), busUp);
      r := Answer(ProfileOf(id, user));
    }

    method UpdateProfile(id: UserId, name: Option<string>, now: Time, busUp: bool) returns (r: Response)
      requires Valid() && clock <= now
      modifies this
      ensures var o := Step(old(View()), Command.UpdateProfile(id, name, now, busUp));
              Valid() && View() == o.store && r == o.response
    {
      clock := now;
      ghost var s := View();
      if id !in tx.users {
        r := Raise(UserNotFound);
        return;
      }
      var user := tx.users[id];
      var changed: seq<string> := [];
      if name.Some? && name != user.fullName {
        user := user.(fullName := name);
        changed := changed + ["full_name"];
      }
      if changed == [] {
        r := Answer(ProfileOf(id, user));
        return;
      }
      SavedUnique(tx.users, id, user, now);
      NoRows(tx.statusLog);
      NoRows(tx.roleLog);
      assert changed == ["full_name"];
      SaveUser(id, user, now);
      Conclude(s, id, user, now, [], [], UserUpdated(id, user.phone, user.role, changed), busUp);
      r := Answer(ProfileOf(id, user));
    }
  }
}

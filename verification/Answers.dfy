/** What an answer is worth later: refused commands leave no trace in a run, and
    the claims handed out never outlive the account they describe for long. */
module Answers {
  import opened Domain
  import opened IdentityStore
  import opened Footprint
  import KeyRotation

  // ---------------------------------------------------------------------
  // Refusals

  ghost predicate Untouched(s: Store, s': Store) {
    && s'.cfg == s.cfg && s'.clock == s.clock
    && s'.db.users == s.db.users && s'.db.statusLog == s.db.statusLog && s'.db.roleLog == s.db.roleLog
    && s'.events == s.events && s'.drops == s.drops && s'.family == s.family && s'.lossless == s.lossless
  }

  /** The refusals before which the service commits: a counted attempt, a
      reused token, a counted request. */
  predicate CommitsFirst(e: Error) {
    e.OtpTooManyAttempts? || (e.OtpInvalid? && e.attemptsRemaining.Some?) || e.RefreshTokenRevoked? || e.RateLimited?
  }

  ghost predicate OnlyCommitted(s: Store, s': Store, e: Error) {
    && Untouched(s, s')
    && (e.OtpTooManyAttempts? || (e.OtpInvalid? && e.attemptsRemaining.Some?)
        || (s'.db.otps == s.db.otps && s'.ledger == s.ledger))
    && (e.RefreshTokenRevoked? || s'.db.tokens == s.db.tokens)
    && (e.RateLimited? || s'.limits == s.limits)
  }

  lemma VerifyRefusal(s: Store, c: Command)
    requires c.VerifyOtp? && DoVerifyOtp(s, c).response.Failed?
    ensures OnlyCommitted(s, DoVerifyOtp(s, c).store, DoVerifyOtp(s, c).response.error)
  {
    VerifyCases(s, c);
  }

  lemma TokenRefusal(s: Store, c: Command)
    requires (c.RegisterUser? || c.RequestOtp? || c.RefreshAccessToken? || c.Logout?) && Do(s, c).response.Failed?
    ensures OnlyCommitted(s, Do(s, c).store, Do(s, c).response.error)
  {
  }

  lemma AccountRefusal(s: Store, c: Command)
    requires (c.ChangeRole? || c.DecideKyc? || c.ChangeStatus? || c.UpdateProfile?) && Do(s, c).response.Failed?
    ensures Do(s, c).store == s
  {
  }

  lemma RefusalLeavesNoTrace(s: Store, c: Command)
    requires Step(s, c).response.Failed?
    ensures OnlyCommitted(s.(clock := c.now), Step(s, c).store, Step(s, c).response.error)
  {
    var now := s.(clock := c.now);
    if c.VerifyOtp? {
      VerifyRefusal(now, c);
    } else if Announces(c) {
      AccountRefusal(now, c);
    } else {
      TokenRefusal(now, c);
    }
  }

  ghost predicate RolledBack(s: Store, c: Command) {
    var r := Step(s, c).response;
    r.Failed? && !CommitsFirst(r.error)
  }

  /** The commands of a run that were not rolled back. */
  ghost function Effective(s0: Store, run: seq<Command>): seq<Command> {
    if run == [] then []
    else
      var past, c := run[..|run| - 1], run[|run| - 1];
      if RolledBack(Exec(s0, past), c) then Effective(s0, past) else Effective(s0, past) + [c]
  }

  /** Leaving out every command that was rolled back gives a run that ends in
      the same store. */
  lemma {:induction false} RolledBackIsInvisible(s0: Store, run: seq<Command>)
    requires ValidRun(s0, run)
    ensures ValidRun(s0, Effective(s0, run)) && Exec(s0, Effective(s0, run)).clock <= Exec(s0, run).clock
    ensures Exec(s0, run) == Exec(s0, Effective(s0, run)).(clock := Exec(s0, run).clock)
  {
    if run != [] {
      var past, c := run[..|run| - 1], run[|run| - 1];
      RolledBackIsInvisible(s0, past);
      var s, t := Exec(s0, past), Exec(s0, Effective(s0, past));
      if RolledBack(s, c) {
        OnlyTheClock(s, c);
      } else {
        ClockForgotten(s, t, c);
        OneMore(s0, Effective(s0, past), c);
      }
    }
  }

  lemma OnlyTheClock(s: Store, c: Command)
    requires RolledBack(s, c)
    ensures Step(s, c).store == s.(clock := c.now)
  {
    RefusalLeavesNoTrace(s, c);
  }

  /** A step depends on the store, not on when it was last written. */
  lemma ClockForgotten(s: Store, t: Store, c: Command)
    requires Admissible(s, c) && t.clock <= s.clock && s == t.(clock := s.clock)
    ensures Admissible(t, c) && Step(t, c) == Step(s, c)
  {
    assert s.(clock := c.now) == t.(clock := c.now);
  }

  lemma OneMore(s0: Store, run: seq<Command>, c: Command)
    requires ValidRun(s0, run) && Admissible(Exec(s0, run), c)
    ensures ValidRun(s0, run + [c]) && Exec(s0, run + [c]) == Step(Exec(s0, run), c).store
  {
    assert (run + [c])[..|run|] == run;
  }

  // ---------------------------------------------------------------------
  // The claims of one answer

  function ClaimsIn(r: Response): Option<Claims> {
    match r
    case LoggedIn(claims, _, _) => Some(claims)
    case Refreshed(claims, _) => Some(claims)
    case _ => None
  }

  /** The refresh token handed out is stored, alive, owned by the account the
      claims name, and the claims are that account's role and status. */
  ghost predicate Opens(s: Store, s': Store, t: TokenId, claims: Claims, raw: string, now: Time) {
    && t in s'.db.tokens && t !in s.db.tokens
    && s'.db.tokens[t].hash == Digest(raw) && s'.db.tokens[t].revokedAt.None?
    && s'.db.tokens[t].owner == claims.sub && s'.db.tokens[t].expiresAt == now + s.cfg.refreshLifetime
    && claims.sub in s.db.users && !s.db.users[claims.sub].status.Suspended?
    && claims.sub in s'.db.users && claims == ClaimsOf(claims.sub, s'.db.users[claims.sub])
    && (claims.status == Active || claims.status == PendingKyc)
  }

  lemma LoginAnswer(s: Store, c: Command)
    requires c.VerifyOtp? && c.newToken !in s.db.tokens && DoVerifyOtp(s, c).response.LoggedIn?
    ensures var s', r := DoVerifyOtp(s, c).store, DoVerifyOtp(s, c).response;
            && Opens(s, s', c.newToken, r.claims, r.token, c.now)
            && r.profile == ProfileOf(r.claims.sub, s'.db.users[r.claims.sub]) && r.profile.phone == c.phone
  {
    VerifyCases(s, c);
    var s', sub := DoVerifyOtp(s, c).store, DoVerifyOtp(s, c).response.claims.sub;
    assert s'.db.users[sub].status == Verified(s.db.users[sub]).status;
  }

  lemma RefreshAnswer(s: Store, c: Command)
    requires c.RefreshAccessToken? && c.newToken !in s.db.tokens && DoRefresh(s, c).response.Refreshed?
    ensures var s', r := DoRefresh(s, c).store, DoRefresh(s, c).response;
            Opens(s, s', c.newToken, r.claims, r.token, c.now)
  {
  }

  lemma OnlyVerify(s: Store, c: Command)
    requires Do(s, c).response.LoggedIn?
    ensures c.VerifyOtp?
  {
  }

  lemma OnlyRefresh(s: Store, c: Command)
    requires Do(s, c).response.Refreshed?
    ensures c.RefreshAccessToken?
  {
  }

  /** A session is only ever opened for an account that may hold one, with the
      role and status the store commits. */
  lemma SessionIsCommitted(s: Store, c: Command)
    requires Admissible(s, c)
    ensures var s', r := Step(s, c).store, Step(s, c).response;
            && (r.LoggedIn? ==> c.VerifyOtp? && Opens(s, s', c.newToken, r.claims, r.token, c.now)
                                && r.profile == ProfileOf(r.claims.sub, s'.db.users[r.claims.sub])
                                    && r.profile.phone == c.phone)
            && (r.Refreshed? ==> c.RefreshAccessToken? && Opens(s, s', c.newToken, r.claims, r.token, c.now))
  {
    var now := s.(clock := c.now);
    if Step(s, c).response.LoggedIn? {
      OnlyVerify(now, c);
      LoginAnswer(now, c);
    } else if Step(s, c).response.Refreshed? {
      OnlyRefresh(now, c);
      RefreshAnswer(now, c);
    }
  }

  // ---------------------------------------------------------------------
  // Access tokens over whole runs

  function RoleName(role: Role): string {
    match role
    case User => "user"
    case Driver => "driver"
    case Merchant => "merchant"
    case Admin => "admin"
  }

  function StatusName(status: Status): string {
    match status
    case PendingVerification => "pending_verification"
    case PendingKyc => "pending_kyc"
    case Active => "active"
    case Suspended => "suspended"
  }

  /** The access token that goes with the claims of an answer. */
  function AccessToken(ring: KeyRotation.KeyRing, claims: Claims, issuer: string, now: Time, life: nat)
    : KeyRotation.Token
  {
    KeyRotation.Issue(ring, claims.sub, RoleName(claims.role), StatusName(claims.status), issuer, now, life)
  }

  /** The claims answered by the command at position `i` of a run. */
  ghost function ClaimsAt(s0: Store, run: seq<Command>, i: nat): Option<Claims>
    requires i < |run|
  {
    ClaimsIn(Step(Exec(s0, run[..i]), run[i]).response)
  }

  lemma {:induction false} ValidPrefix(s0: Store, run: seq<Command>, i: nat)
    requires ValidRun(s0, run) && i <= |run|
    ensures ValidRun(s0, run[..i]) && Exec(s0, run[..i]).clock <= Exec(s0, run).clock
    ensures i < |run| ==>
            Admissible(Exec(s0, run[..i]), run[i]) && Exec(s0, run[..i + 1]) == Step(Exec(s0, run[..i]), run[i]).store
    ensures i < |run| ==> run[i].now <= Exec(s0, run).clock
  {
    assert run[..|run|] == run;
    if i < |run| {
      var past := run[..|run| - 1];
      StepWithin(Exec(s0, past), run[|run| - 1]);
      assert past[..i] == run[..i];
      assert run[..i + 1][..i] == run[..i];
      ValidPrefix(s0, past, i);
    }
  }

  /** Claims used before their lifetime ends describe their account as some
      committed state of that lifetime had it. */
  lemma ClaimsAreRecent(s0: Store, run: seq<Command>, i: nat, life: nat, now: Time)
    requires ValidRun(s0, run) && i < |run| && ClaimsAt(s0, run, i).Some?
    requires run[i].now <= now < run[i].now + life
    ensures var claims, s := ClaimsAt(s0, run, i).value, Exec(s0, run[..i + 1]);
            && now - life < s.clock <= now
            && claims.sub in s.db.users && claims == ClaimsOf(claims.sub, s.db.users[claims.sub])
            && (claims.status == Active || claims.status == PendingKyc)
  {
    ValidPrefix(s0, run, i);
    SessionIsCommitted(Exec(s0, run[..i]), run[i]);
    StepWithin(Exec(s0, run[..i]), run[i]);
  }

  /** A consumer that lets a request through acts on an account that was active,
      with that very role, at some instant of the last token lifetime. */
  lemma VerifiedIsRecent(s0: Store, run: seq<Command>, i: nat, ring: KeyRotation.KeyRing, issuer: string, life: nat,
                         key: KeyRotation.Key, now: Time)
    requires ValidRun(s0, run) && i < |run| && ClaimsAt(s0, run, i).Some?
    ensures var claims := ClaimsAt(s0, run, i).value;
            var token := AccessToken(ring, claims, issuer, run[i].now, life);
            var id := KeyRotation.Narrowed(KeyRotation.Decode(token, key, issuer, now));
            id.Verified? ==>
              var s := Exec(s0, run[..i + 1]);
              && now - life < s.clock <= now
              && id.user in s.db.users && s.db.users[id.user].status.Active?
                  && RoleName(s.db.users[id.user].role) == id.role
  {
    var claims := ClaimsAt(s0, run, i).value;
    var token := AccessToken(ring, claims, issuer, run[i].now, life);
    if KeyRotation.Narrowed(KeyRotation.Decode(token, key, issuer, now)).Verified? {
      ClaimsAreRecent(s0, run, i, life, now);
    }
  }

  predicate Reinstates(c: Command, u: UserId) {
    c.ChangeStatus? && c.user == u && c.status.Active?
  }

  ghost predicate SuspendedIn(s: Store, u: UserId) {
    u in s.db.users && s.db.users[u].status.Suspended?
  }

  lemma VerifySuspended(s: Store, c: Command, u: UserId)
    requires c.VerifyOtp? && SuspendedIn(s, u)
    ensures SuspendedIn(DoVerifyOtp(s, c).store, u)
  {
    VerifyCases(s, c);
  }

  lemma AdminSuspended(s: Store, c: Command, u: UserId)
    requires (c.DecideKyc? || c.ChangeStatus?) && SuspendedIn(s, u) && !Reinstates(c, u)
    ensures SuspendedIn(Do(s, c).store, u)
  {
  }

  lemma StaysSuspended(s: Store, c: Command, u: UserId)
    requires Admissible(s, c) && SuspendedIn(s, u) && !Reinstates(c, u)
    ensures SuspendedIn(Step(s, c).store, u)
    ensures ClaimsIn(Step(s, c).response).Some? ==> ClaimsIn(Step(s, c).response).value.sub != u
  {
    var now := s.(clock := c.now);
    SessionIsCommitted(s, c);
    if c.VerifyOtp? {
      VerifySuspended(now, c, u);
    } else if c.DecideKyc? || c.ChangeStatus? {
      AdminSuspended(now, c, u);
    } else {
      StepWithin(s, c);
      KeptSuspended(now, Step(s, c).store, c, u);
    }
  }

  lemma KeptSuspended(s: Store, s': Store, c: Command, u: UserId)
    requires Within(s, s', c) && !WritesStatuses(c) && SuspendedIn(s, u)
    ensures SuspendedIn(s', u)
  {
    assert u in s'.db.users;
  }

  lemma {:induction false} SuspendedThroughout(s0: Store, run: seq<Command>, n: nat, u: UserId, j: nat)
    requires ValidRun(s0, run) && n <= j <= |run| && SuspendedIn(Exec(s0, run[..n]), u)
    requires forall i :: n <= i < |run| ==> !Reinstates(run[i], u)
    ensures SuspendedIn(Exec(s0, run[..j]), u)
  {
    if n < j {
      SuspendedThroughout(s0, run, n, u, j - 1);
      ValidPrefix(s0, run, j - 1);
      StaysSuspended(Exec(s0, run[..j - 1]), run[j - 1], u);
    }
  }

  /** From a suspension to the next reinstatement, nothing answers claims that
      name the account, whatever codes and tokens are presented. */
  lemma NoClaimsWhileSuspended(s0: Store, run: seq<Command>, n: nat, u: UserId, i: nat)
    requires ValidRun(s0, run) && n <= i < |run| && SuspendedIn(Exec(s0, run[..n]), u)
    requires forall k :: n <= k < |run| ==> !Reinstates(run[k], u)
    ensures SuspendedIn(Exec(s0, run[..i + 1]), u)
    ensures ClaimsAt(s0, run, i).Some? ==> ClaimsAt(s0, run, i).value.sub != u
  {
    SuspendedThroughout(s0, run, n, u, i);
    ValidPrefix(s0, run, i);
    StaysSuspended(Exec(s0, run[..i]), run[i], u);
  }

  lemma ExpiredIsRefused(token: KeyRotation.Token, key: KeyRotation.Key, issuer: string, now: Time)
    requires token.Token? && token.claims.exp.Some? && token.claims.exp.value <= now
    ensures !KeyRotation.Narrowed(KeyRotation.Decode(token, key, issuer, now)).Verified?
  {
  }

  lemma IssuedBefore(s0: Store, run: seq<Command>, n: nat, i: nat)
    requires ValidRun(s0, run) && i < n <= |run|
    ensures run[i].now <= Exec(s0, run[..n]).clock
  {
    ValidPrefix(s0, run, n);
    ValidPrefix(s0, run[..n], i);
  }

  /** One token lifetime after a suspension no consumer, whatever key it holds,
      lets the account through on any token of the run. */
  lemma SuspensionReachesConsumers(s0: Store, run: seq<Command>, n: nat, u: UserId, i: nat, ring: KeyRotation.KeyRing,
                                   issuer: string, life: nat, key: KeyRotation.Key, now: Time)
    requires ValidRun(s0, run) && n <= |run| && SuspendedIn(Exec(s0, run[..n]), u)
    requires forall k :: n <= k < |run| ==> !Reinstates(run[k], u)
    requires i < |run| && ClaimsAt(s0, run, i).Some? && ClaimsAt(s0, run, i).value.sub == u
    requires Exec(s0, run[..n]).clock + life <= now
    ensures var token := AccessToken(ring, ClaimsAt(s0, run, i).value, issuer, run[i].now, life);
            !KeyRotation.Narrowed(KeyRotation.Decode(token, key, issuer, now)).Verified?
  {
    if n <= i { NoClaimsWhileSuspended(s0, run, n, u, i); }
    IssuedBefore(s0, run, n, i);
    ExpiredIsRefused(AccessToken(ring, ClaimsAt(s0, run, i).value, issuer, run[i].now, life), key, issuer, now);
  }
}

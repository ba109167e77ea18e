/** What a person gets done, over whole runs: a code that was asked for lets its
    phone in, a session goes on until something ends it, and a request for a
    role ends as it is decided. */
module Journeys {
  import opened Domain
  import opened IdentityStore
  import opened Footprint
  import Outcomes
  import OtpLedger
  import Sessions

  lemma {:induction false} SameSettings(s: Store, run: seq<Command>)
    requires ValidRun(s, run)
    ensures Exec(s, run).cfg == s.cfg
  {
    if run != [] {
      SameSettings(s, run[..|run| - 1]);
      StepWithin(Exec(s, run[..|run| - 1]), run[|run| - 1]);
    }
  }

  // ---------------------------------------------------------------------
  // From a code request to a login

  /** The code made by request `c` is unused, with at most `n` wrong tries; and
      it is the newest of its phone, if codes are spaced. */
  ghost predicate Waiting(s: Store, c: Command, n: nat)
    requires c.RequestOtp?
  {
    && c.newOtp in s.db.otps
    && s.db.otps[c.newOtp].attempts <= n
    && s.db.otps[c.newOtp] ==
         OtpCode(c.phone, Digest(c.code), c.now + s.cfg.otpLifetime, c.now, None, s.db.otps[c.newOtp].attempts)
    && (s.cfg.otpCooldown > 0 ==> OlderOthers(s.db.otps, c.newOtp, c.phone, c.now))
  }

  ghost predicate OlderOthers(otps: map<OtpId, OtpCode>, id: OtpId, phone: Phone, now: Time) {
    forall o :: o != id && Outcomes.Unused(otps, phone, o) ==> otps[o].createdAt < now
  }

  lemma RequestWaits(s: Store, c: Command)
    requires OtpLedger.Sound(s) && Admissible(s, c) && c.RequestOtp? && Step(s, c).response.OtpRequested?
    requires exists u :: Outcomes.Holds(s.db.users, c.phone, u)
    ensures Waiting(Step(s, c).store, c, 0)
  {
    Outcomes.CodeStoredIff(s, c);
    Outcomes.RequestIff(s, c);
    StepWithin(s, c);
    if s.cfg.otpCooldown > 0 {
      forall o | o != c.newOtp && Outcomes.Unused(Step(s, c).store.db.otps, c.phone, o)
        ensures Step(s, c).store.db.otps[o].createdAt < c.now
      {
        assert o in s.db.otps && s.db.otps[o].phone == c.phone;
      }
    }
  }

  /** A try with another code on the same phone. */
  predicate WrongTry(c: Command, d: Command)
    requires c.RequestOtp?
  {
    d.VerifyOtp? && d.phone == c.phone && d.code != c.code
  }

  /** Neither a newer request for the phone nor a try with the code itself. */
  predicate Elsewhere(c: Command, d: Command)
    requires c.RequestOtp?
  {
    (d.RequestOtp? ==> d.phone != c.phone) && (d.VerifyOtp? && d.phone == c.phone ==> d.code != c.code)
  }

  function WrongTries(c: Command, run: seq<Command>): nat
    requires c.RequestOtp?
  {
    if run == [] then 0 else WrongTries(c, run[..|run| - 1]) + if WrongTry(c, run[|run| - 1]) then 1 else 0
  }

  lemma OtherRequestWaits(s: Store, c: Command, d: Command, n: nat)
    requires c.RequestOtp? && d.RequestOtp? && Waiting(s, c, n) && Admissible(s, d) && d.phone != c.phone
    ensures Waiting(Step(s, d).store, c, n)
  {
    Outcomes.CodeStoredIff(s, d);
    StepWithin(s, d);
    var otps' := Step(s, d).store.db.otps;
    forall o | o != c.newOtp && Outcomes.Unused(otps', c.phone, o)
      ensures Outcomes.Unused(s.db.otps, c.phone, o) && otps'[o] == s.db.otps[o] {
    }
  }

  lemma JudgedWaits(otps: map<OtpId, OtpCode>, otps': map<OtpId, OtpCode>, pick: OtpId, id: OtpId, phone: Phone,
                    now: Time)
    requires OlderOthers(otps, id, phone, now) && pick in otps && pick in otps' && otps' == otps[pick := otps'[pick]]
    requires otps'[pick].phone == otps[pick].phone && otps'[pick].createdAt == otps[pick].createdAt
    requires otps[pick].consumedAt == None
    ensures OlderOthers(otps', id, phone, now)
  {
    forall o | o != id && Outcomes.Unused(otps', phone, o) ensures otps'[o].createdAt < now {
      assert Outcomes.Unused(otps, phone, o);
    }
  }

  lemma TryWaits(s: Store, c: Command, d: Command, n: nat)
    requires c.RequestOtp? && d.VerifyOtp? && Waiting(s, c, n) && Elsewhere(c, d)
    requires WrongTry(c, d) ==> n + 1 < s.cfg.otpMaxAttempts
    ensures Waiting(Step(s, d).store, c, if WrongTry(c, d) then n + 1 else n)
  {
    var t := s.(clock := d.now);
    OtpLedger.VerdictRecorded(t, d);
    var s' := Step(s, d).store;
    if s'.db.otps != s.db.otps && s.cfg.otpCooldown > 0 {
      JudgedWaits(s.db.otps, s'.db.otps, d.pick, c.newOtp, c.phone, c.now);
    }
  }

  lemma StepWaits(s: Store, c: Command, d: Command, n: nat)
    requires c.RequestOtp? && Waiting(s, c, n) && Admissible(s, d) && Elsewhere(c, d)
    requires WrongTry(c, d) ==> n + 1 < s.cfg.otpMaxAttempts
    ensures Waiting(Step(s, d).store, c, if WrongTry(c, d) then n + 1 else n)
  {
    StepWithin(s, d);
    if d.RequestOtp? { OtherRequestWaits(s, c, d, n); }
    else if d.VerifyOtp? { TryWaits(s, c, d, n); }
  }

  lemma {:induction false} RunWaits(s: Store, c: Command, run: seq<Command>)
    requires c.RequestOtp? && Waiting(s, c, 0) && ValidRun(s, run) && WrongTries(c, run) < s.cfg.otpMaxAttempts
    requires forall k :: 0 <= k < |run| ==> Elsewhere(c, run[k])
    ensures Waiting(Exec(s, run), c, WrongTries(c, run))
  {
    if run != [] {
      var past := run[..|run| - 1];
      RunWaits(s, c, past);
      SameSettings(s, past);
      StepWaits(Exec(s, past), c, run[|run| - 1], WrongTries(c, past));
    }
  }

  lemma WaitingIsNewest(s: Store, c: Command, v: Command, n: nat)
    requires c.RequestOtp? && Waiting(s, c, n) && Admissible(s, v) && v.VerifyOtp? && v.phone == c.phone
    requires s.cfg.otpCooldown > 0 || v.pick == c.newOtp
    ensures v.pick == c.newOtp && Outcomes.NewestUnused(s.db.otps, c.phone, c.newOtp)
  {
    assert Outcomes.Unused(s.db.otps, c.phone, c.newOtp);
    Outcomes.LatestIsNewest(s.db.otps, c.phone, c.newOtp);
    Outcomes.LatestIsNewest(s.db.otps, c.phone, v.pick);
    assert IsActive(s.db.otps, c.phone, c.newOtp);
    assert Outcomes.Unused(s.db.otps, c.phone, v.pick);
  }

  /** Whatever else goes on: the code of an answered request for a known phone
      logs its account in, while it is alive, newest, not burned and the account
      not suspended; and a first login makes the account usable. */
  lemma FreshCodeLogsIn(s0: Store, run: seq<Command>, c: Command, between: seq<Command>, v: Command, u: UserId)
    requires Genesis(s0) && ValidRun(s0, run) && s0.cfg.otpMaxAttempts >= 1
    requires var s := Exec(s0, run);
             && Admissible(s, c) && c.RequestOtp? && Step(s, c).response.OtpRequested?
                 && Outcomes.Holds(s.db.users, c.phone, u)
             && ValidRun(Step(s, c).store, between)
    requires WrongTries(c, between) < s0.cfg.otpMaxAttempts
    requires forall k :: 0 <= k < |between| ==> Elsewhere(c, between[k])
    requires v.VerifyOtp? && v.phone == c.phone && v.code == c.code && v.now < c.now + s0.cfg.otpLifetime
    requires s0.cfg.otpCooldown > 0 || v.pick == c.newOtp
    requires var s' := Exec(Step(Exec(s0, run), c).store, between);
             Admissible(s', v) && u in s'.db.users && s'.db.users[u].status != Suspended
    ensures var s' := Exec(Step(Exec(s0, run), c).store, between);
            && Step(s', v).response.LoggedIn? && Step(s', v).response.claims.sub == u
            && Outcomes.Entered(s', Step(s', v).store, v, u)
  {
    var s, s1 := Exec(s0, run), Step(Exec(s0, run), c).store;
    var s' := Exec(s1, between);
    OtpLedger.AlwaysSound(s0, run);
    RequestWaits(s, c);
    StepWithin(s, c);
    RunWaits(s1, c, between);
    SameSettings(s1, between);
    WaitingIsNewest(s', c, v, WrongTries(c, between));
    Sessions.AlwaysSound(s0, run);
    Sessions.StepKeeps(s, c);
    SoundAfter(s1, between);
    PhoneKept(s1, between, u);
    Outcomes.VerifyIff(s', v);
    assert Outcomes.Holds(s'.db.users, v.phone, u);
    Outcomes.LoginEnters(s', v);
    assert s'.db.users[Step(s', v).response.claims.sub].phone == s'.db.users[u].phone;
  }

  lemma {:induction false} SoundAfter(s: Store, run: seq<Command>)
    requires Sessions.Sound(s) && ValidRun(s, run)
    ensures Sessions.Sound(Exec(s, run))
  {
    if run != [] {
      SoundAfter(s, run[..|run| - 1]);
      Sessions.StepKeeps(Exec(s, run[..|run| - 1]), run[|run| - 1]);
    }
  }

  lemma {:induction false} PhoneKept(s: Store, run: seq<Command>, u: UserId)
    requires ValidRun(s, run) && u in s.db.users
    ensures u in Exec(s, run).db.users && Exec(s, run).db.users[u].phone == s.db.users[u].phone
  {
    if run != [] {
      PhoneKept(s, run[..|run| - 1], u);
      StepWithin(Exec(s, run[..|run| - 1]), run[|run| - 1]);
    }
  }

  // ---------------------------------------------------------------------
  // A session goes on

  /** Token `t` of account `u` is live, and the account may use it. */
  ghost predicate Holding(s: Store, t: TokenId, u: UserId, raw: string, until: Time) {
    && t in s.db.tokens && s.db.tokens[t].owner == u && s.db.tokens[t].hash == Digest(raw)
    && s.db.tokens[t].revokedAt == None && s.db.tokens[t].expiresAt == until && Outcomes.Usable(s.db.users, u)
  }

  /** The command suspends the account, or presents one of its tokens. */
  ghost predicate Ends(s: Store, d: Command, u: UserId) {
    || (d.ChangeStatus? && d.user == u && d.status == Suspended)
    || ((d.RefreshAccessToken? || d.Logout?) &&
        exists t :: Outcomes.Presented(s.db.tokens, d.presented, t) && s.db.tokens[t].owner == u)
  }

  lemma VerifyHolds(s: Store, d: Command, t: TokenId, u: UserId, raw: string, until: Time)
    requires d.VerifyOtp? && d.newToken !in s.db.tokens && Holding(s, t, u, raw, until) && d.now == s.clock
    ensures Holding(DoVerifyOtp(s, d).store, t, u, raw, until)
  {
    VerifyCases(s, d);
    VerifyWithin(s, d);
    var r := DoVerifyOtp(s, d).response;
    if r.LoggedIn? {
      Sessions.AdmittedTokens(s, d, r.claims.sub);
      assert s.(clock := d.now) == s;
      Outcomes.LoginEnters(s, d);
    }
  }

  lemma RefreshHolds(s: Store, d: Command, t: TokenId, u: UserId, raw: string, until: Time)
    requires d.RefreshAccessToken? && d.newToken !in s.db.tokens && Holding(s, t, u, raw, until) && !Ends(s, d, u)
    ensures Holding(DoRefresh(s, d).store, t, u, raw, until)
  {
    var found := FindByHash(s.db.tokens, Digest(d.presented));
    if found.Some? { assert Outcomes.Presented(s.db.tokens, d.presented, found.value); }
    Sessions.RefreshCases(s, d);
  }

  lemma LogoutHolds(s: Store, d: Command, t: TokenId, u: UserId, raw: string, until: Time)
    requires d.Logout? && Holding(s, t, u, raw, until) && !Ends(s, d, u)
    ensures Holding(DoLogout(s, d).store, t, u, raw, until)
  {
    var found := FindByHash(s.db.tokens, Digest(d.presented));
    if found.Some? { assert Outcomes.Presented(s.db.tokens, d.presented, found.value); }
  }

  lemma StatusHolds(s: Store, d: Command, t: TokenId, u: UserId, raw: string, until: Time)
    requires d.ChangeStatus? && Holding(s, t, u, raw, until) && !Ends(s, d, u)
    ensures Holding(Step(s, d).store, t, u, raw, until)
  {
    StepWithin(s, d);
    Outcomes.ChangeStatusIff(s, d);
    if Step(s, d).response.Answer? { Outcomes.StatusMoves(s, d); }
  }

  lemma DecisionHolds(s: Store, d: Command, t: TokenId, u: UserId, raw: string, until: Time)
    requires d.DecideKyc? && Holding(s, t, u, raw, until)
    ensures Holding(Step(s, d).store, t, u, raw, until)
  {
    StepWithin(s, d);
    Outcomes.DecideKycIff(s, d);
  }

  lemma StepHolds(s: Store, d: Command, t: TokenId, u: UserId, raw: string, until: Time)
    requires Admissible(s, d) && Holding(s, t, u, raw, until) && !Ends(s, d, u)
    ensures Holding(Step(s, d).store, t, u, raw, until)
  {
    var now := s.(clock := d.now);
    if d.VerifyOtp? { VerifyHolds(now, d, t, u, raw, until); }
    else if d.RefreshAccessToken? { RefreshHolds(now, d, t, u, raw, until); }
    else if d.Logout? { LogoutHolds(now, d, t, u, raw, until); }
    else if d.ChangeStatus? { StatusHolds(s, d, t, u, raw, until); }
    else if d.DecideKyc? { DecisionHolds(s, d, t, u, raw, until); }
    else { StepWithin(s, d); OthersHold(now, Step(s, d).store, d, t, u, raw, until); }
  }

  lemma OthersHold(s: Store, s': Store, d: Command, t: TokenId, u: UserId, raw: string, until: Time)
    requires Within(s, s', d) && !WritesTokens(d) && !WritesStatuses(d) && Holding(s, t, u, raw, until)
    ensures Holding(s', t, u, raw, until)
  {
    assert u in s'.db.users;
  }

  ghost predicate Undisturbed(s: Store, run: seq<Command>, u: UserId) {
    run == [] || (Undisturbed(s, run[..|run| - 1], u) && !Ends(Exec(s, run[..|run| - 1]), run[|run| - 1], u))
  }

  lemma {:induction false} RunHolds(s: Store, run: seq<Command>, t: TokenId, u: UserId, raw: string, until: Time)
    requires ValidRun(s, run) && Undisturbed(s, run, u) && Holding(s, t, u, raw, until)
    ensures Holding(Exec(s, run), t, u, raw, until)
  {
    if run != [] {
      RunHolds(s, run[..|run| - 1], t, u, raw, until);
      StepHolds(Exec(s, run[..|run| - 1]), run[|run| - 1], t, u, raw, until);
    }
  }

  /** The refresh token of a login works to the end of its lifetime unless the
      account is suspended or one of its tokens presented first; an account in
      `pending_kyc` is no exception. */
  lemma SessionGoesOn(s0: Store, run: seq<Command>, c: Command, between: seq<Command>, f: Command)
    requires Genesis(s0) && ValidRun(s0, run)
    requires var s := Exec(s0, run);
             && Admissible(s, c) && c.VerifyOtp? && Step(s, c).response.LoggedIn?
             && ValidRun(Step(s, c).store, between)
             && Undisturbed(Step(s, c).store, between, Step(s, c).response.claims.sub)
             && Admissible(Exec(Step(s, c).store, between), f)
    requires f.RefreshAccessToken? && f.presented == c.raw && f.now < c.now + s0.cfg.refreshLifetime
    ensures var s, s' := Exec(s0, run), Exec(Step(Exec(s0, run), c).store, between);
            var u := Step(s, c).response.claims.sub;
            && Step(s', f).response.Refreshed? && u in s'.db.users
            && Step(s', f).response.claims == Claims(u, s'.db.users[u].role, s'.db.users[u].status)
  {
    var s, s1 := Exec(s0, run), Step(Exec(s0, run), c).store;
    var s', u := Exec(s1, between), Step(s, c).response.claims.sub;
    Sessions.AlwaysSound(s0, run);
    Sessions.StepKeeps(s, c);
    SoundAfter(s1, between);
    SameSettings(s0, run);
    LoginHolds(s, c);
    RunHolds(s1, between, c.newToken, u, c.raw, c.now + s0.cfg.refreshLifetime);
    assert Outcomes.Presented(s'.db.tokens, f.presented, c.newToken);
    Outcomes.RefreshIff(s', f);
    Sessions.RotationSpends(s', f);
    assert s'.db.tokens[FindByHash(s'.db.tokens, Digest(f.presented)).value].hash == s'.db.tokens[c.newToken].hash;
  }

  lemma LoginHolds(s: Store, c: Command)
    requires Admissible(s, c) && c.VerifyOtp? && Step(s, c).response.LoggedIn?
    ensures Holding(Step(s, c).store, c.newToken, Step(s, c).response.claims.sub, c.raw, c.now + s.cfg.refreshLifetime)
  {
    var t := s.(clock := c.now);
    VerifyCases(t, c);
    Outcomes.LoginEnters(s, c);
    AdmittedHolds(t, c, Step(s, c).response.claims.sub);
  }

  lemma AdmittedHolds(s: Store, c: Command, u: UserId)
    requires c.VerifyOtp? && c.pick in s.db.otps && u in s.db.users && s.db.users[u].status != Suspended
    ensures Holding(Admitted(s, c, u), c.newToken, u, c.raw, c.now + s.cfg.refreshLifetime)
  {
  }

  // ---------------------------------------------------------------------
  // From a role request to the decision

  ghost predicate Asks(s: Store, u: UserId, held: Role, asked: Role) {
    u in s.db.users && s.db.users[u].role == held && s.db.users[u].requested == Some(asked)
  }

  lemma {:induction false} StillAsks(s: Store, run: seq<Command>, u: UserId, held: Role, asked: Role)
    requires ValidRun(s, run) && Asks(s, u, held, asked)
    requires forall k :: 0 <= k < |run| ==> !((run[k].ChangeRole? || run[k].DecideKyc?) && run[k].user == u)
    ensures Asks(Exec(s, run), u, held, asked)
  {
    if run != [] {
      var past := run[..|run| - 1];
      StillAsks(s, past, u, held, asked);
      StepWithin(Exec(s, past), run[|run| - 1]);
      KeptAsking(Exec(s, past).(clock := run[|run| - 1].now), Exec(s, run), run[|run| - 1], u, held, asked);
    }
  }

  lemma KeptAsking(s: Store, s': Store, d: Command, u: UserId, held: Role, asked: Role)
    requires Within(s, s', d) && Asks(s, u, held, asked) && !((d.ChangeRole? || d.DecideKyc?) && d.user == u)
    ensures Asks(s', u, held, asked)
  {
    assert u in s'.db.users;
  }

  /** Whoever asks for Driver or Merchant keeps the old role until the next
      decision; an approval then gives exactly the role asked for, a refusal
      leaves the old one, and a parked account is released either way. */
  lemma RequestEndsAsDecided(s: Store, c: Command, between: seq<Command>, d: Command)
    requires Admissible(s, c) && c.ChangeRole? && (c.role == Driver || c.role == Merchant)
    requires c.user in s.db.users && s.db.users[c.user].role != c.role
    requires ValidRun(Step(s, c).store, between) && Admissible(Exec(Step(s, c).store, between), d)
    requires forall k :: 0 <= k < |between| ==>
             !((between[k].ChangeRole? || between[k].DecideKyc?) && between[k].user == c.user)
    requires d.DecideKyc? && d.user == c.user
    ensures var s' := Exec(Step(s, c).store, between); var after := Step(s', d).store;
            && c.user in s'.db.users && s'.db.users[c.user].role == s.db.users[c.user].role
            && c.user in after.db.users && after.db.users[c.user].requested == None
            && after.db.users[c.user].role == (if d.approved then c.role else s.db.users[c.user].role)
            && after.db.users[c.user].status ==
                (if s'.db.users[c.user].status == PendingKyc then Active else s'.db.users[c.user].status)
  {
    Outcomes.KycRoleAsked(s, c);
    StillAsks(Step(s, c).store, between, c.user, s.db.users[c.user].role, c.role);
    Outcomes.DecideKycIff(Exec(Step(s, c).store, between), d);
  }
}

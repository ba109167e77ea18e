/** Refresh tokens: who may hold one, one live token per login, and revocation
    that is never undone. */
module Sessions {
  import opened Domain
  import opened IdentityStore
  import opened Footprint

  type Tokens = map<TokenId, RefreshToken>
  type Users = map<UserId, Account>
  type Family = map<TokenId, nat>

  /** The statuses with which a session may be held. */
  predicate Usable(status: Status) {
    status == Active || status == PendingKyc
  }

  ghost predicate Live(tokens: Tokens, t: TokenId) {
    t in tokens && tokens[t].revokedAt.None?
  }

  ghost predicate Linked(users: Users, tokens: Tokens, family: Family, logins: nat) {
    && UniqueHashes(tokens)
    && family.Keys == tokens.Keys
    && (forall t {:trigger tokens[t].owner} :: t in tokens ==> tokens[t].owner in users)
    && (forall t :: t in family ==> family[t] < logins)
  }

  /** Live tokens belong to usable accounts; unverified accounts have none. */
  ghost predicate OwnersUsable(users: Users, tokens: Tokens) {
    && (forall t :: Live(tokens, t) && tokens[t].owner in users ==> Usable(users[tokens[t].owner].status))
    && (forall t {:trigger tokens[t].owner} :: t in tokens && tokens[t].owner in users ==>
        !users[tokens[t].owner].status.PendingVerification?)
  }

  /** A login has at most one live token at a time. */
  ghost predicate OneLivePerLogin(tokens: Tokens, family: Family) {
    forall t, r {:trigger family[t], family[r]} ::
      t in family && r in family && Live(tokens, t) && Live(tokens, r) && family[t] == family[r] ==> (t == r)
  }

  ghost predicate Sound(s: Store) {
    && UniquePhones(s.db.users)
    && Linked(s.db.users, s.db.tokens, s.family, |s.ledger|)
    && OwnersUsable(s.db.users, s.db.tokens)
    && OneLivePerLogin(s.db.tokens, s.family)
  }

  // ---------------------------------------------------------------------
  // Three ways the tables move

  /** Tokens only lose life. */
  ghost predicate Fade(tokens: Tokens, tokens': Tokens) {
    && tokens'.Keys == tokens.Keys
    && forall t :: t in tokens ==>
         tokens'[t] == tokens[t].(revokedAt := tokens'[t].revokedAt)
         && (tokens'[t].revokedAt == tokens[t].revokedAt || (tokens[t].revokedAt.None? && tokens'[t].revokedAt.Some?))
  }

  /** A status is kept, or moves to a usable one, or every token is dead. */
  ghost predicate Shift(users: Users, users': Users, tokens': Tokens) {
    && UniquePhones(users')
    && (forall u :: u in users ==> u in users')
    && (forall u :: u in users && users'[u].status != users[u].status ==>
          && !users'[u].status.PendingVerification?
          && (Usable(users'[u].status) || forall t :: t in tokens' && tokens'[t].owner == u ==>
              tokens'[t].revokedAt.Some?))
  }

  lemma FadeKeeps(users: Users, users': Users, tokens: Tokens, tokens': Tokens, family: Family, logins: nat,
                  logins': nat)
    requires logins <= logins' && Linked(users, tokens, family, logins) && OwnersUsable(users, tokens)
             && OneLivePerLogin(tokens, family)
    requires Fade(tokens, tokens') && Shift(users, users', tokens')
    ensures Linked(users', tokens', family, logins') && OwnersUsable(users', tokens')
            && OneLivePerLogin(tokens', family)
  {
    forall t, r | t in tokens' && r in tokens' && tokens'[t].hash == tokens'[r].hash
      ensures t == r
    {
      assert tokens[t].hash == tokens[r].hash;
    }
    assert forall t :: Live(tokens', t) ==> Live(tokens, t);
    forall t | t in tokens'
      ensures !users'[tokens'[t].owner].status.PendingVerification?
      ensures Live(tokens', t) ==> Usable(users'[tokens'[t].owner].status)
    {
      var u := tokens[t].owner;
      assert u in users;
      if users'[u].status == users[u].status { }
    }
  }

  /** A login adds one token that starts its own family. */
  lemma LoginKeeps(users: Users, tokens: Tokens, family: Family, logins: nat, id: TokenId, row: RefreshToken)
    requires Linked(users, tokens, family, logins) && OwnersUsable(users, tokens) && OneLivePerLogin(tokens, family)
    requires id !in tokens && forall t :: t in tokens ==> tokens[t].hash != row.hash
    requires row.owner in users && Usable(users[row.owner].status)
    ensures Linked(users, tokens[id := row], family[id := logins], logins + 1)
    ensures OwnersUsable(users, tokens[id := row])
    ensures OneLivePerLogin(tokens[id := row], family[id := logins])
  {
    var after := tokens[id := row];
    assert forall t :: Live(after, t) ==> t == id || Live(tokens, t);
  }

  /** A rotation kills the presented token and puts one in its family. */
  lemma RotationKeeps(users: Users, tokens: Tokens, family: Family, logins: nat, spent: TokenId, id: TokenId,
                      row: RefreshToken, now: Time)
    requires Linked(users, tokens, family, logins) && OwnersUsable(users, tokens) && OneLivePerLogin(tokens, family)
    requires Live(tokens, spent) && row.owner == tokens[spent].owner
    requires id !in tokens && forall t :: t in tokens ==> tokens[t].hash != row.hash
    ensures var after := Revoked(tokens, spent, now)[id := row];
            && Linked(users, after, family[id := family[spent]], logins)
            && OwnersUsable(users, after)
            && OneLivePerLogin(after, family[id := family[spent]])
  {
    var after := Revoked(tokens, spent, now)[id := row];
    assert forall t :: Live(after, t) ==> t == id || (Live(tokens, t) && t != spent);
    assert forall t :: t in tokens ==> after[t].hash == tokens[t].hash && after[t].owner == tokens[t].owner;
  }

  // ---------------------------------------------------------------------
  // Each command

  lemma FadeAll(tokens: Tokens, user: UserId, now: Time)
    ensures Fade(tokens, RevokedAll(tokens, user, now))
    ensures forall t :: t in tokens && tokens[t].owner == user ==> RevokedAll(tokens, user, now)[t].revokedAt.Some?
  {
  }

  lemma LogoutFrame(s: Store, c: Command)
    requires UniquePhones(s.db.users) && c.Logout?
    ensures var s' := DoLogout(s, c).store;
            Fade(s.db.tokens, s'.db.tokens) && s'.db.users == s.db.users && s'.family == s.family
                && |s.ledger| <= |s'.ledger|
  {
  }

  lemma RegisterFrame(s: Store, c: Command)
    requires UniquePhones(s.db.users) && c.RegisterUser? && c.newUser !in s.db.users
    ensures var s' := DoRegister(s, c).store;
            s'.db.tokens == s.db.tokens && Shift(s.db.users, s'.db.users, s'.db.tokens) && s'.family == s.family
                && |s.ledger| <= |s'.ledger|
  {
  }

  lemma SavedShift(users: Users, id: UserId, a: Account, now: Time, tokens: Tokens)
    requires UniquePhones(users) && id in users
    requires
      || a.status == users[id].status
      || Usable(a.status)
      || (a.status.Suspended? && forall t :: t in tokens && tokens[t].owner == id ==> tokens[t].revokedAt.Some?)
    ensures Shift(users, Saved(users, id, a, now), tokens)
  {
  }

  lemma DecideFrame(s: Store, c: Command)
    requires UniquePhones(s.db.users) && c.DecideKyc?
    ensures var s' := DoDecideKyc(s, c).store;
            s'.db.tokens == s.db.tokens && Shift(s.db.users, s'.db.users, s'.db.tokens) && s'.family == s.family
                && |s.ledger| <= |s'.ledger|
  {
    var s' := DoDecideKyc(s, c).store;
    if s' != s {
      var now := Decided(s.db.users[c.user], c.approved);
      assert s'.db.users == Saved(s.db.users, c.user, now, c.now);
      SavedShift(s.db.users, c.user, now, c.now, s.db.tokens);
    }
  }

  lemma StatusFrame(s: Store, c: Command)
    requires UniquePhones(s.db.users) && c.ChangeStatus?
    ensures var s' := DoChangeStatus(s, c).store;
            && Fade(s.db.tokens, s'.db.tokens) && s'.family == s.family && |s.ledger| <= |s'.ledger|
            && Shift(s.db.users, s'.db.users, s'.db.tokens)
  {
    FadeAll(s.db.tokens, c.user, c.now);
    var s' := DoChangeStatus(s, c).store;
    if s' != s {
      var now := s.db.users[c.user].(status := c.status);
      assert s'.db.users == Saved(s.db.users, c.user, now, c.now);
      SavedShift(s.db.users, c.user, now, c.now, s'.db.tokens);
    }
  }

  lemma FrameKeeps(s: Store, s': Store)
    requires Sound(s) && Fade(s.db.tokens, s'.db.tokens) && s'.family == s.family && |s.ledger| <= |s'.ledger|
    requires Shift(s.db.users, s'.db.users, s'.db.tokens)
    ensures Sound(s')
  {
    FadeKeeps(s.db.users, s'.db.users, s.db.tokens, s'.db.tokens, s.family, |s.ledger|, |s'.ledger|);
  }

  lemma AdmittedTokens(s: Store, c: Command, u: UserId)
    requires c.VerifyOtp? && c.pick in s.db.otps && u in s.db.users
    ensures var s' := Admitted(s, c, u);
            && s'.family == s.family[c.newToken := |s.ledger|] && |s'.ledger| == |s.ledger| + 1
            && c.newToken in s'.db.tokens
            && s'.db.tokens == s.db.tokens[c.newToken := s'.db.tokens[c.newToken]]
            && s'.db.tokens[c.newToken].owner == u && s'.db.tokens[c.newToken].hash == Digest(c.raw)
  {
  }

  lemma AdmittedUsers(s: Store, c: Command, u: UserId)
    requires c.VerifyOtp? && c.pick in s.db.otps && u in s.db.users && !s.db.users[u].status.Suspended?
    requires UniquePhones(s.db.users)
    ensures var s' := Admitted(s, c, u);
            Shift(s.db.users, s'.db.users, s.db.tokens) && u in s'.db.users && Usable(s'.db.users[u].status)
  {
    SavedShift(s.db.users, u, Verified(s.db.users[u]), c.now, s.db.tokens);
  }

  lemma VerifyKeeps(s: Store, c: Command)
    requires Sound(s) && c.VerifyOtp? && FreshToken(s, c.newToken, c.raw)
    ensures Sound(DoVerifyOtp(s, c).store)
  {
    VerifyCases(s, c);
    var s' := DoVerifyOtp(s, c).store;
    if DoVerifyOtp(s, c).response.LoggedIn? {
      var u := DoVerifyOtp(s, c).response.claims.sub;
      AdmittedTokens(s, c, u);
      AdmittedUsers(s, c, u);
      FadeKeeps(s.db.users, s'.db.users, s.db.tokens, s.db.tokens, s.family, |s.ledger|, |s.ledger|);
      LoginKeeps(s'.db.users, s.db.tokens, s.family, |s.ledger|, c.newToken, s'.db.tokens[c.newToken]);
    } else {
      VerifyWithin(s, c);
    }
  }

  lemma KeptShift(c: Command, users: Users, users': Users, dropped: seq<UserId>, tokens: Tokens)
    requires UniquePhones(users) && RowsKept(c, users, users', dropped) && !c.RegisterUser? && !WritesStatuses(c)
    ensures Shift(users, users', tokens)
  {
  }

  lemma RotatedKeeps(s: Store, c: Command, spent: TokenId)
    requires Sound(s) && c.RefreshAccessToken? && FreshToken(s, c.newToken, c.raw) && Live(s.db.tokens, spent)
    ensures Sound(Rotated(s, spent, c.device, c.newToken, c.raw, c.now))
  {
    var s' := Rotated(s, spent, c.device, c.newToken, c.raw, c.now);
    RotationKeeps(s.db.users, s.db.tokens, s.family, |s.ledger|, spent, c.newToken, s'.db.tokens[c.newToken], c.now);
  }

  /** A refresh rotates a live token, or only kills. */
  lemma RefreshCases(s: Store, c: Command)
    requires c.RefreshAccessToken?
    ensures var s', found := DoRefresh(s, c).store, FindByHash(s.db.tokens, Digest(c.presented));
            if DoRefresh(s, c).response.Refreshed? then
              && found.Some? && Live(s.db.tokens, found.value)
              && s' == Rotated(s, found.value, c.device, c.newToken, c.raw, c.now)
            else
              || s' == s
              || (found.Some?
                  && s' == s.(db := s.db.(tokens := RevokedAll(s.db.tokens, s.db.tokens[found.value].owner, c.now))))
  {
  }

  lemma RefreshKeeps(s: Store, c: Command)
    requires Sound(s) && c.RefreshAccessToken? && FreshToken(s, c.newToken, c.raw)
    ensures Sound(DoRefresh(s, c).store)
  {
    RefreshCases(s, c);
    var found := FindByHash(s.db.tokens, Digest(c.presented));
    if DoRefresh(s, c).response.Refreshed? {
      RotatedKeeps(s, c, found.value);
    } else if found.Some? {
      var faded := s.(db := s.db.(tokens := RevokedAll(s.db.tokens, s.db.tokens[found.value].owner, c.now)));
      FadeAll(s.db.tokens, s.db.tokens[found.value].owner, c.now);
      SameShift(s.db.users, faded.db.tokens);
      FrameKeeps(s, faded);
    }
  }

  lemma SameShift(users: Users, tokens: Tokens)
    requires UniquePhones(users)
    ensures Shift(users, users, tokens)
  {
  }

  lemma StepKeeps(s: Store, c: Command)
    requires Sound(s) && Admissible(s, c)
    ensures Sound(Step(s, c).store)
  {
    var t := s.(clock := c.now);
    if c.VerifyOtp? {
      VerifyKeeps(t, c);
    } else if c.RefreshAccessToken? {
      RefreshKeeps(t, c);
    } else {
      if c.RegisterUser? {
        RegisterFrame(t, c);
      } else if c.ChangeStatus? {
        StatusFrame(t, c);
      } else if c.Logout? {
        LogoutFrame(t, c);
      } else if c.DecideKyc? {
        DecideFrame(t, c);
      } else {
        StepWithin(s, c);
        KeptShift(c, s.db.users, Step(s, c).store.db.users, Step(s, c).store.drops[|s.drops|..], s.db.tokens);
      }
      FrameKeeps(t, Do(t, c).store);
    }
  }

  // ---------------------------------------------------------------------
  // Whole runs

  /** In every reachable state, a live token belongs to an account that may
      hold a session, and each login has at most one live token. */
  lemma {:induction false} AlwaysSound(s0: Store, run: seq<Command>)
    requires Genesis(s0) && ValidRun(s0, run)
    ensures Sound(Exec(s0, run))
  {
    if run != [] {
      AlwaysSound(s0, run[..|run| - 1]);
      StepKeeps(Exec(s0, run[..|run| - 1]), run[|run| - 1]);
    }
  }

  /** A suspended account has no live token, an unverified one no token at all. */
  lemma NoSession(s0: Store, run: seq<Command>, t: TokenId)
    requires Genesis(s0) && ValidRun(s0, run) && t in Exec(s0, run).db.tokens
    ensures var db := Exec(s0, run).db;
            && db.tokens[t].owner in db.users
            && !db.users[db.tokens[t].owner].status.PendingVerification?
            && (db.users[db.tokens[t].owner].status.Suspended? ==> db.tokens[t].revokedAt.Some?)
  {
    AlwaysSound(s0, run);
  }

  /** Rows are never removed, never change hands, never come back to life. */
  ghost predicate Kept(tokens: Tokens, tokens': Tokens) {
    forall t {:trigger tokens'[t]} {:trigger tokens[t]} :: t in tokens ==>
      && t in tokens'
      && tokens'[t].owner == tokens[t].owner && tokens'[t].hash == tokens[t].hash
      && (tokens[t].revokedAt.Some? ==> tokens'[t].revokedAt == tokens[t].revokedAt)
  }

  lemma RotatedRows(tokens: Tokens, spent: TokenId, id: TokenId, row: RefreshToken, now: Time)
    requires id !in tokens
    ensures Kept(tokens, Revoked(tokens, spent, now)[id := row])
  {
  }

  lemma RefreshKeepsRows(s: Store, c: Command)
    requires c.RefreshAccessToken? && c.newToken !in s.db.tokens
    ensures Kept(s.db.tokens, DoRefresh(s, c).store.db.tokens)
  {
    var found := FindByHash(s.db.tokens, Digest(c.presented));
    var tokens' := DoRefresh(s, c).store.db.tokens;
    if DoRefresh(s, c).response.Refreshed? {
      RotatedRows(s.db.tokens, found.value, c.newToken, tokens'[c.newToken], c.now);
      assert tokens' == Revoked(s.db.tokens, found.value, c.now)[c.newToken := tokens'[c.newToken]];
    } else if tokens' != s.db.tokens {
      FadeAll(s.db.tokens, s.db.tokens[found.value].owner, c.now);
    }
  }

  lemma StepKeepsRows(s: Store, c: Command)
    requires Sound(s) && Admissible(s, c)
    ensures Kept(s.db.tokens, Step(s, c).store.db.tokens)
  {
    var t := s.(clock := c.now);
    if c.VerifyOtp? {
      VerifyCases(t, c);
      if DoVerifyOtp(t, c).response.LoggedIn? {
        AdmittedTokens(t, c, DoVerifyOtp(t, c).response.claims.sub);
      }
    } else if c.RefreshAccessToken? {
      RefreshKeepsRows(t, c);
    } else if c.ChangeStatus? {
      StatusFrame(t, c);
    } else if c.Logout? {
      LogoutFrame(t, c);
    } else {
      StepWithin(s, c);
      assert Do(t, c).store.db.tokens == s.db.tokens;
    }
  }

  lemma {:induction false} RevokedForever(s: Store, run: seq<Command>, t: TokenId)
    requires Sound(s) && ValidRun(s, run) && t in s.db.tokens && s.db.tokens[t].revokedAt.Some?
    ensures Sound(Exec(s, run)) && t in Exec(s, run).db.tokens
    ensures Exec(s, run).db.tokens[t].hash == s.db.tokens[t].hash
    ensures Exec(s, run).db.tokens[t].owner == s.db.tokens[t].owner
    ensures Exec(s, run).db.tokens[t].revokedAt == s.db.tokens[t].revokedAt
  {
    if run != [] {
      var before := Exec(s, run[..|run| - 1]);
      RevokedForever(s, run[..|run| - 1], t);
      StepKeeps(before, run[|run| - 1]);
      StepKeepsRows(before, run[|run| - 1]);
    }
  }

  /** Presenting a dead token is refused and kills every session of its owner. */
  lemma DeadTokenRefused(s: Store, c: Command, t: TokenId)
    requires Sound(s) && c.RefreshAccessToken?
    requires t in s.db.tokens && s.db.tokens[t].hash == Digest(c.presented) && s.db.tokens[t].revokedAt.Some?
    ensures Step(s, c).response == Failed(RefreshTokenRevoked)
    ensures forall r :: r in s.db.tokens && s.db.tokens[r].owner == s.db.tokens[t].owner ==>
              r in Step(s, c).store.db.tokens && Step(s, c).store.db.tokens[r].revokedAt.Some?
  {
    assert FindByHash(s.db.tokens, Digest(c.presented)) == Some(t);
    FadeAll(s.db.tokens, s.db.tokens[t].owner, c.now);
  }

  lemma NeverAcceptedAgain(s: Store, run: seq<Command>, t: TokenId, later: Command)
    requires Sound(s) && ValidRun(s, run) && t in s.db.tokens && s.db.tokens[t].revokedAt.Some?
    requires later.RefreshAccessToken? && Digest(later.presented) == s.db.tokens[t].hash
    ensures Step(Exec(s, run), later).response == Failed(RefreshTokenRevoked)
  {
    RevokedForever(s, run, t);
    DeadTokenRefused(Exec(s, run), later, t);
  }

  /** Command `c` presents a dead token, and `later` one that its owner had at
      that moment. */
  ghost predicate Reused(s: Store, c: Command, dead: TokenId, t: TokenId, later: Command) {
    && c.RefreshAccessToken? && dead in s.db.tokens && s.db.tokens[dead].revokedAt.Some?
    && s.db.tokens[dead].hash == Digest(c.presented)
    && t in s.db.tokens && s.db.tokens[t].owner == s.db.tokens[dead].owner
    && later.RefreshAccessToken? && Digest(later.presented) == s.db.tokens[t].hash
  }

  /** After a dead token is presented, no token its owner had at that moment is
      ever accepted again, whatever happens next. */
  lemma ReuseClosesEverySession(s0: Store, run: seq<Command>, c: Command, dead: TokenId, run': seq<Command>,
                                t: TokenId, later: Command)
    requires Genesis(s0) && ValidRun(s0, run) && Admissible(Exec(s0, run), c)
    requires ValidRun(Step(Exec(s0, run), c).store, run')
    ensures Reused(Exec(s0, run), c, dead, t, later) ==>
              Step(Exec(Step(Exec(s0, run), c).store, run'), later).response == Failed(RefreshTokenRevoked)
  {
    var s := Exec(s0, run);
    AlwaysSound(s0, run);
    if Reused(s, c, dead, t, later) {
      DeadTokenRefused(s, c, dead);
      StepKeeps(s, c);
      StepKeepsRows(s, c);
      NeverAcceptedAgain(Step(s, c).store, run', t, later);
    }
  }

  lemma SuspensionRevokes(s: Store, c: Command, t: TokenId)
    requires Sound(s) && Admissible(s, c) && c.ChangeStatus? && c.status.Suspended? && Step(s, c).response.Answer?
    requires t in s.db.tokens && s.db.tokens[t].owner == c.user
    ensures t in Step(s, c).store.db.tokens && Step(s, c).store.db.tokens[t].revokedAt.Some?
    ensures Step(s, c).store.db.tokens[t].hash == s.db.tokens[t].hash
  {
    FadeAll(s.db.tokens, c.user, c.now);
    StepKeepsRows(s, c);
  }

  /** A suspension ends every session for good: not even a reinstated account
      can use a token it held before. */
  lemma SuspensionIsFinal(s0: Store, run: seq<Command>, c: Command, run': seq<Command>, t: TokenId, later: Command)
    requires Genesis(s0) && ValidRun(s0, run)
    requires var s := Exec(s0, run);
             && Admissible(s, c) && c.ChangeStatus? && c.status.Suspended? && Step(s, c).response.Answer?
             && t in s.db.tokens && s.db.tokens[t].owner == c.user
             && later.RefreshAccessToken? && Digest(later.presented) == s.db.tokens[t].hash
             && ValidRun(Step(s, c).store, run')
    ensures Step(Exec(Step(Exec(s0, run), c).store, run'), later).response == Failed(RefreshTokenRevoked)
  {
    var s := Exec(s0, run);
    AlwaysSound(s0, run);
    SuspensionRevokes(s, c, t);
    StepKeeps(s, c);
    NeverAcceptedAgain(Step(s, c).store, run', t, later);
  }

  lemma RotationSpends(s: Store, c: Command)
    requires Sound(s) && Admissible(s, c) && c.RefreshAccessToken? && Step(s, c).response.Refreshed?
    ensures var t := FindByHash(s.db.tokens, Digest(c.presented)).value;
            && t in Step(s, c).store.db.tokens && Step(s, c).store.db.tokens[t].revokedAt.Some?
            && Step(s, c).store.db.tokens[t].hash == Digest(c.presented)
            && s.db.tokens[t].revokedAt.None? && c.now < s.db.tokens[t].expiresAt
            && s.db.tokens[t].owner in s.db.users
            && Step(s, c).response.claims == ClaimsOf(s.db.tokens[t].owner, s.db.users[s.db.tokens[t].owner])
  {
  }

  /** A refresh token is accepted at most once. */
  lemma AcceptedOnce(s0: Store, run: seq<Command>, c: Command, run': seq<Command>, later: Command)
    requires Genesis(s0) && ValidRun(s0, run)
    requires var s := Exec(s0, run);
             && Admissible(s, c) && c.RefreshAccessToken? && Step(s, c).response.Refreshed?
             && later.RefreshAccessToken? && later.presented == c.presented
             && ValidRun(Step(s, c).store, run')
    ensures Step(Exec(Step(Exec(s0, run), c).store, run'), later).response == Failed(RefreshTokenRevoked)
  {
    var s := Exec(s0, run);
    AlwaysSound(s0, run);
    RotationSpends(s, c);
    StepKeeps(s, c);
    NeverAcceptedAgain(Step(s, c).store, run', FindByHash(s.db.tokens, Digest(c.presented)).value, later);
  }

  /** Logging out kills the presented token, or every token of its owner, and
      touches nobody else; an unknown token gets the same answer and ends
      nothing. */
  lemma LogoutRevokes(s: Store, c: Command, r: TokenId)
    requires Sound(s) && c.Logout? && r in s.db.tokens
    ensures Step(s, c).response == LoggedOut && r in Step(s, c).store.db.tokens
    ensures var ended := exists t :: t in s.db.tokens && s.db.tokens[t].hash == Digest(c.presented) &&
                           if c.allDevices then s.db.tokens[r].owner == s.db.tokens[t].owner else r == t;
            Step(s, c).store.db.tokens[r] ==
            if ended && s.db.tokens[r].revokedAt == None then s.db.tokens[r].(revokedAt := Some(c.now))
                else s.db.tokens[r]
  {
    var found := FindByHash(s.db.tokens, Digest(c.presented));
    if found.Some? {
      forall t | t in s.db.tokens && s.db.tokens[t].hash == Digest(c.presented) ensures t == found.value {
        assert s.db.tokens[t].hash == s.db.tokens[found.value].hash;
      }
    }
  }
}

/** Where sessions come from: each descends from one correct code, sent to the
    phone of the account that holds it. */
module Provenance {
  import opened Domain
  import opened IdentityStore
  import opened Footprint
  import Accounts
  import OtpLedger
  import Sessions

  /** The verdict at which the login of token `t` was won. */
  ghost predicate Earned(s: Store, t: TokenId)
    requires t in s.db.tokens
  {
    && t in s.family && s.family[t] < |s.ledger| && s.ledger[s.family[t]].right
    && s.db.tokens[t].owner in s.db.users
    && s.ledger[s.family[t]].phone == s.db.users[s.db.tokens[t].owner].phone
  }

  ghost predicate Traced(s: Store) {
    forall t {:trigger Earned(s, t)} :: t in s.db.tokens ==> Earned(s, t)
  }

  ghost predicate FamilyKept(family: map<TokenId, nat>, family': map<TokenId, nat>) {
    forall t :: t in family ==> t in family' && family'[t] == family[t]
  }

  /** Tables move so that what was earned stays earned. */
  ghost predicate Extends(s: Store, s': Store) {
    && Accounts.Grows(s.db.users, s'.db.users)
    && s.ledger <= s'.ledger
    && FamilyKept(s.family, s'.family)
  }

  lemma StaysEarned(s: Store, s': Store, t: TokenId)
    requires Extends(s, s') && t in s.db.tokens && Earned(s, t)
    requires t in s'.db.tokens && s'.db.tokens[t].owner == s.db.tokens[t].owner
    ensures Earned(s', t)
  {
    assert t in s'.family && s'.family[t] == s.family[t];
    assert s.ledger[s.family[t]] == s'.ledger[s.family[t]];
    assert s.db.tokens[t].owner in s'.db.users;
  }

  /** A token that was not there is either a login's, earned by the verdict this
      very command adds, or a successor of the presented one. */
  ghost predicate Issues(s: Store, s': Store, t: TokenId) {
    && t in s'.db.tokens && t in s'.family
    && (|| (s'.family[t] == |s.ledger| < |s'.ledger| && s'.ledger[|s.ledger|].right
            && s'.db.tokens[t].owner in s'.db.users
            && s'.ledger[|s.ledger|].phone == s'.db.users[s'.db.tokens[t].owner].phone)
        || (exists r :: && r in s.db.tokens && r in s.family && s'.family[t] == s.family[r]
                        && s'.db.tokens[t].owner == s.db.tokens[r].owner))
  }

  lemma LoginIssues(s: Store, c: Command)
    requires Sessions.Sound(s) && c.VerifyOtp? && c.newToken !in s.db.tokens
    ensures var s' := DoVerifyOtp(s, c).store;
            && FamilyKept(s.family, s'.family)
            && forall t {:trigger t in s'.db.tokens} :: t in s'.db.tokens && t !in s.db.tokens ==> Issues(s, s', t)
  {
    VerifyCases(s, c);
    var s' := DoVerifyOtp(s, c).store;
    if DoVerifyOtp(s, c).response.LoggedIn? {
      var u := DoVerifyOtp(s, c).response.claims.sub;
      Sessions.AdmittedTokens(s, c, u);
      VerifyWithin(s, c);
      assert u in s'.db.users && s'.db.users[u].phone == c.phone;
      AdmittedVerdict(s, c, u);
      assert Issues(s, s', c.newToken);
    }
  }

  lemma AdmittedVerdict(s: Store, c: Command, u: UserId)
    requires c.VerifyOtp? && c.pick in s.db.otps && u in s.db.users
    ensures Admitted(s, c, u).ledger == s.ledger + [Verdict(c.phone, c.pick, c.now, true)]
  {
  }

  lemma RotationIssues(s: Store, c: Command)
    requires Sessions.Sound(s) && c.RefreshAccessToken? && c.newToken !in s.db.tokens
    ensures var s' := DoRefresh(s, c).store;
            && FamilyKept(s.family, s'.family)
            && forall t {:trigger t in s'.db.tokens} :: t in s'.db.tokens && t !in s.db.tokens ==> Issues(s, s', t)
  {
    var s' := DoRefresh(s, c).store;
    var found := FindByHash(s.db.tokens, Digest(c.presented));
    if DoRefresh(s, c).response.Refreshed? {
      assert found.value in s.family;
      assert s'.family == s.family[c.newToken := s.family[found.value]];
      assert Issues(s, s', c.newToken);
    } else if s' != s {
      assert s'.db.tokens.Keys == s.db.tokens.Keys;
    }
  }

  lemma SameTokenIds(s: Store, c: Command)
    requires c.Logout? || c.ChangeStatus?
    ensures Do(s, c).store.db.tokens.Keys == s.db.tokens.Keys
  {
  }

  lemma KeptExtends(s: Store, s': Store, c: Command)
    requires Within(s, s', c)
    requires FamilyKept(s.family, s'.family)
    ensures Extends(s, s')
  {
    Accounts.KeptGrows(c, s.db.users, s'.db.users, s'.drops[|s.drops|..]);
  }

  lemma StepIssues(s: Store, c: Command)
    requires Sessions.Sound(s) && Admissible(s, c)
    ensures var s' := Step(s, c).store;
            && Extends(s, s')
            && forall t {:trigger t in s'.db.tokens} :: t in s'.db.tokens && t !in s.db.tokens ==> Issues(s, s', t)
  {
    var now := s.(clock := c.now);
    StepWithin(s, c);
    if c.VerifyOtp? { LoginIssues(now, c); }
    else if c.RefreshAccessToken? { RotationIssues(now, c); }
    else if WritesTokens(c) { SameTokenIds(now, c); }
    KeptExtends(now, Do(now, c).store, c);
  }

  lemma StepKeeps(s: Store, c: Command)
    requires Sessions.Sound(s) && Traced(s) && Admissible(s, c)
    ensures Traced(Step(s, c).store)
  {
    var s' := Step(s, c).store;
    StepIssues(s, c);
    Sessions.StepKeepsRows(s, c);
    forall t {:trigger Earned(s', t)} | t in s'.db.tokens ensures Earned(s', t) {
      if t in s.db.tokens {
        assert Earned(s, t);
        StaysEarned(s, s', t);
      } else {
        assert Issues(s, s', t);
        Inherits(s, s', t);
      }
    }
  }

  lemma Inherits(s: Store, s': Store, t: TokenId)
    requires Traced(s) && Extends(s, s') && t in s'.db.tokens && Issues(s, s', t)
    ensures Earned(s', t)
  {
    if !(s'.family[t] == |s.ledger| < |s'.ledger| && s'.ledger[|s.ledger|].right
         && s'.db.tokens[t].owner in s'.db.users
             && s'.ledger[|s.ledger|].phone == s'.db.users[s'.db.tokens[t].owner].phone) {
      var r :| r in s.db.tokens && r in s.family && s'.family[t] == s.family[r]
          && s'.db.tokens[t].owner == s.db.tokens[r].owner;
      assert Earned(s, r);
      assert s.ledger[s.family[r]] == s'.ledger[s.family[r]];
      assert s.db.tokens[r].owner in s'.db.users;
    }
  }

  lemma {:induction false} AlwaysTraced(s0: Store, run: seq<Command>)
    requires Genesis(s0) && ValidRun(s0, run)
    ensures Sessions.Sound(Exec(s0, run)) && Traced(Exec(s0, run))
  {
    Sessions.AlwaysSound(s0, run);
    if run != [] {
      AlwaysTraced(s0, run[..|run| - 1]);
      StepKeeps(Exec(s0, run[..|run| - 1]), run[|run| - 1]);
    }
  }

  /** Every refresh token ever issued goes back to a correct code that was sent
      to its owner's phone and still alive when it was entered. */
  lemma EarnedByACode(s0: Store, run: seq<Command>, t: TokenId)
    requires Genesis(s0) && ValidRun(s0, run) && s0.cfg.otpMaxAttempts >= 1
    requires t in Exec(s0, run).db.tokens
    ensures var s := Exec(s0, run);
            && t in s.family && s.family[t] < |s.ledger|
            && var v := s.ledger[s.family[t]];
               && v.right && v.otp in s.db.otps
               && s.db.tokens[t].owner in s.db.users
               && v.phone == s.db.otps[v.otp].phone == s.db.users[s.db.tokens[t].owner].phone
               && s.db.otps[v.otp].createdAt <= v.at < s.db.otps[v.otp].expiresAt
  {
    AlwaysTraced(s0, run);
    OtpLedger.AlwaysSound(s0, run);
    var s := Exec(s0, run);
    assert Earned(s, t);
    assert OtpLedger.VerdictPlaced(s.db.otps, s.ledger[s.family[t]]);
  }

  /** The code that a token's login used. */
  ghost function CodeOf(s: Store, t: TokenId): Option<OtpId> {
    if t in s.family && s.family[t] < |s.ledger| then Some(s.ledger[s.family[t]].otp) else None
  }

  /** One code, one session: two live tokens that go back to the same code are
      the same token. */
  lemma OneSessionPerCode(s0: Store, run: seq<Command>, t: TokenId, r: TokenId)
    requires Genesis(s0) && ValidRun(s0, run) && s0.cfg.otpMaxAttempts >= 1
    ensures var s := Exec(s0, run);
            Sessions.Live(s.db.tokens, t) && Sessions.Live(s.db.tokens, r) && CodeOf(s, t) == CodeOf(s, r) ==> t == r
  {
    AlwaysTraced(s0, run);
    OtpLedger.AlwaysSound(s0, run);
    var s := Exec(s0, run);
    if Sessions.Live(s.db.tokens, t) && Sessions.Live(s.db.tokens, r) && CodeOf(s, t) == CodeOf(s, r) {
      assert Earned(s, t) && Earned(s, r);
      OtpLedger.RightAtMostOnce(s.cfg, s.db.otps, s.ledger);
      assert s.family[t] == s.family[r];
    }
  }
}

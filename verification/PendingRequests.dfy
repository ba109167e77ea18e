/** A request for a KYC role takes nothing away: on an account that has been
    verified, it is invisible until it is decided. */
module PendingRequests {
  import opened Domain
  import opened IdentityStore
  import Sessions

  /** The two accounts differ at most by what is pending (and by the date of
      the last write), and not even by that before verification. */
  ghost predicate SameButPending(a: Account, b: Account) {
    && b == a.(requested := b.requested, updatedAt := b.updatedAt)
    && (a.status.PendingVerification? ==> a.requested == b.requested)
  }

  ghost predicate UsersAlike(users: map<UserId, Account>, users': map<UserId, Account>) {
    && users.Keys == users'.Keys
    && forall u :: u in users ==> SameButPending(users[u], users'[u])
  }

  /** Same roles, statuses, codes, sessions, status audit and limits. */
  ghost predicate Alike(s: Store, t: Store) {
    && s.cfg == t.cfg && t.clock <= s.clock
    && UsersAlike(s.db.users, t.db.users)
    && s.db.otps == t.db.otps && s.db.tokens == t.db.tokens && s.db.statusLog == t.db.statusLog
    && s.limits == t.limits && s.ledger == t.ledger && s.family == t.family
  }

  /** What a caller sees apart from the pending request itself. */
  function Masked(r: Response): Response {
    match r
    case LoggedIn(claims, token, profile) => LoggedIn(claims, token, profile.(requested := None))
    case Answer(profile) => Answer(profile.(requested := None))
    case _ => r
  }

  lemma SamePhone(users: map<UserId, Account>, users': map<UserId, Account>, phone: Phone)
    requires UniquePhones(users) && UsersAlike(users, users')
    ensures FindByPhone(users, phone) == FindByPhone(users', phone)
  {
    var found, found' := FindByPhone(users, phone), FindByPhone(users', phone);
    if found.Some? {
      assert SameButPending(users[found.value], users'[found.value]);
    }
    if found'.Some? {
      assert SameButPending(users[found'.value], users'[found'.value]);
    }
  }

  lemma SavedAlike(users: map<UserId, Account>, users': map<UserId, Account>, id: UserId, a: Account, b: Account,
                   now: Time)
    requires UsersAlike(users, users') && id in users && SameButPending(a, b)
    ensures UsersAlike(Saved(users, id, a, now), Saved(users', id, b, now))
  {
    assert SameButPending(users[id], users'[id]);
  }

  lemma InsertedAlike(users: map<UserId, Account>, users': map<UserId, Account>, id: UserId, a: Account, now: Time)
    requires UsersAlike(users, users') && id !in users
    ensures UsersAlike(Saved(users, id, a, now), Saved(users', id, a, now))
  {
  }

  ghost predicate Agree(o: Outcome, o': Outcome) {
    Alike(o.store, o'.store) && Masked(o.response) == Masked(o'.response)
  }

  lemma RegisterAgrees(s: Store, t: Store, c: Command)
    requires Alike(s, t) && UniquePhones(s.db.users) && c.RegisterUser? && c.newUser !in s.db.users
    ensures Agree(DoRegister(s, c), DoRegister(t, c))
  {
    SamePhone(s.db.users, t.db.users, c.phone);
    var name := if c.name == Some("") then None else c.name;
    InsertedAlike(s.db.users, t.db.users, c.newUser,
        Account(c.phone, name, User, PendingVerification, None, c.now, c.now), c.now);
  }

  lemma RequestShape(s: Store, c: Command)
    requires c.RequestOtp?
    ensures var s' := DoRequestOtp(s, c).store;
            s' == s.(db := s.db.(otps := s'.db.otps), limits := s'.limits)
  {
  }

  lemma RequestSame(s: Store, t: Store, c: Command)
    requires c.RequestOtp? && s.cfg == t.cfg && s.limits == t.limits && s.db.otps == t.db.otps
    requires FindByPhone(s.db.users, c.phone) == FindByPhone(t.db.users, c.phone)
    ensures DoRequestOtp(s, c).response == DoRequestOtp(t, c).response
    ensures DoRequestOtp(s, c).store.db.otps == DoRequestOtp(t, c).store.db.otps
    ensures DoRequestOtp(s, c).store.limits == DoRequestOtp(t, c).store.limits
  {
  }

  lemma RequestAgrees(s: Store, t: Store, c: Command)
    requires Alike(s, t) && UniquePhones(s.db.users) && c.RequestOtp?
    ensures Agree(DoRequestOtp(s, c), DoRequestOtp(t, c))
  {
    SamePhone(s.db.users, t.db.users, c.phone);
    RequestShape(s, c);
    RequestShape(t, c);
    RequestSame(s, t, c);
  }

  lemma AdmittedUsersAlike(s: Store, t: Store, c: Command, id: UserId)
    requires UsersAlike(s.db.users, t.db.users) && c.VerifyOtp? && c.pick in s.db.otps && c.pick in t.db.otps
             && id in s.db.users
    ensures UsersAlike(Admitted(s, c, id).db.users, Admitted(t, c, id).db.users)
  {
    assert SameButPending(s.db.users[id], t.db.users[id]);
    SavedAlike(s.db.users, t.db.users, id, Verified(s.db.users[id]), Verified(t.db.users[id]), c.now);
  }

  ghost predicate AdmittedShape(s: Store, s': Store, c: Command, id: UserId)
    requires c.VerifyOtp? && c.pick in s.db.otps && id in s.db.users
  {
    var token := RefreshToken(id, Digest(c.raw), c.device, c.now + s.cfg.refreshLifetime, c.now, None);
    var row := StatusChange(id, PendingVerification, Verified(s.db.users[id]).status, OTP_REASON, None, c.now);
    && s'.cfg == s.cfg && s'.clock == s.clock && s'.limits == s.limits
    && s'.ledger == s.ledger + [Verdict(c.phone, c.pick, c.now, true)]
        && s'.family == s.family[c.newToken := |s.ledger|]
    && s'.db.otps == Consumed(s.db.otps, c.pick, c.now) && s'.db.tokens == s.db.tokens[c.newToken := token]
    && s'.db.statusLog == if s.db.users[id].status.PendingVerification? then s.db.statusLog + [row] else s.db.statusLog
  }

  lemma AdmittedHasShape(s: Store, c: Command, id: UserId)
    requires c.VerifyOtp? && c.pick in s.db.otps && id in s.db.users
    ensures AdmittedShape(s, Admitted(s, c, id), c, id)
  {
  }

  lemma ShapesAlike(s: Store, t: Store, s': Store, t': Store, c: Command, id: UserId)
    requires Alike(s, t) && c.VerifyOtp? && c.pick in s.db.otps && id in s.db.users
    requires AdmittedShape(s, s', c, id) && AdmittedShape(t, t', c, id) && UsersAlike(s'.db.users, t'.db.users)
    ensures Alike(s', t')
  {
    assert SameButPending(s.db.users[id], t.db.users[id]);
  }

  lemma AdmittedAgrees(s: Store, t: Store, c: Command, id: UserId)
    requires Alike(s, t) && c.VerifyOtp? && c.pick in s.db.otps && id in s.db.users
    ensures Alike(Admitted(s, c, id), Admitted(t, c, id))
    ensures ClaimsOf(id, Verified(s.db.users[id])) == ClaimsOf(id, Verified(t.db.users[id]))
    ensures ProfileOf(id, Verified(s.db.users[id])).(requested := None)
         == ProfileOf(id, Verified(t.db.users[id])).(requested := None)
  {
    assert SameButPending(s.db.users[id], t.db.users[id]);
    AdmittedUsersAlike(s, t, c, id);
    AdmittedHasShape(s, c, id);
    AdmittedHasShape(t, c, id);
    ShapesAlike(s, t, Admitted(s, c, id), Admitted(t, c, id), c, id);
  }

  ghost predicate SameVerdict(o: Outcome, o': Outcome) {
    && (o.response.LoggedIn? <==> o'.response.LoggedIn?)
    && (!o.response.LoggedIn? ==>
          && o.response == o'.response && o.response.Failed?
          && o.store.db.otps == o'.store.db.otps && o.store.ledger == o'.store.ledger)
  }

  lemma WrongSame(s: Store, t: Store, c: Command)
    requires c.VerifyOtp? && s.cfg == t.cfg && s.db.otps == t.db.otps && s.ledger == t.ledger
    requires IsLatestActive(s.db.otps, c.phone, c.pick)
    ensures SameVerdict(WrongCode(s, c), WrongCode(t, c))
  {
  }

  lemma RightSame(s: Store, t: Store, c: Command)
    requires c.VerifyOtp? && s.db.otps == t.db.otps && s.ledger == t.ledger
    requires IsLatestActive(s.db.otps, c.phone, c.pick)
    requires var found := FindByPhone(s.db.users, c.phone);
             && found == FindByPhone(t.db.users, c.phone)
             && (found.Some? ==> s.db.users[found.value].status == t.db.users[found.value].status)
    ensures SameVerdict(RightCode(s, c), RightCode(t, c))
  {
  }

  /** Whether and how a code is accepted does not depend on what is pending. */
  lemma VerifySame(s: Store, t: Store, c: Command)
    requires c.VerifyOtp? && s.cfg == t.cfg && s.db.otps == t.db.otps && s.ledger == t.ledger
    requires var found := FindByPhone(s.db.users, c.phone);
             && found == FindByPhone(t.db.users, c.phone)
             && (found.Some? ==> s.db.users[found.value].status == t.db.users[found.value].status)
    ensures SameVerdict(DoVerifyOtp(s, c), DoVerifyOtp(t, c))
  {
    if IsLatestActive(s.db.otps, c.phone, c.pick) {
      WrongSame(s, t, c);
      RightSame(s, t, c);
    }
  }

  lemma VerifyAgrees(s: Store, t: Store, c: Command)
    requires Alike(s, t) && UniquePhones(s.db.users) && c.VerifyOtp?
    ensures Agree(DoVerifyOtp(s, c), DoVerifyOtp(t, c))
  {
    SamePhone(s.db.users, t.db.users, c.phone);
    var found := FindByPhone(s.db.users, c.phone);
    if found.Some? {
      assert SameButPending(s.db.users[found.value], t.db.users[found.value]);
    }
    VerifySame(s, t, c);
    VerifyCases(s, c);
    VerifyCases(t, c);
    if DoVerifyOtp(s, c).response.LoggedIn? {
      AdmittedAgrees(s, t, c, found.value);
      LoggedInAnswer(s, c);
      LoggedInAnswer(t, c);
    }
  }

  lemma LoggedInAnswer(s: Store, c: Command)
    requires c.VerifyOtp? && DoVerifyOtp(s, c).response.LoggedIn?
    ensures var found := FindByPhone(s.db.users, c.phone);
            && found.Some?
            && var now := Verified(s.db.users[found.value]);
               DoVerifyOtp(s, c).response == LoggedIn(ClaimsOf(found.value, now), c.raw, ProfileOf(found.value, now))
  {
  }

  lemma RefreshShape(s: Store, c: Command)
    requires c.RefreshAccessToken?
    ensures var s' := DoRefresh(s, c).store;
            s' == s.(db := s.db.(tokens := s'.db.tokens), family := s'.family)
  {
  }

  lemma RefreshSame(s: Store, t: Store, c: Command)
    requires c.RefreshAccessToken? && s.cfg == t.cfg && s.db.tokens == t.db.tokens && s.family == t.family
             && s.ledger == t.ledger
    requires var found := FindByHash(s.db.tokens, Digest(c.presented));
             found.Some? ==>
               var u := s.db.tokens[found.value].owner;
               && (u in s.db.users <==> u in t.db.users)
               && (u in s.db.users ==> ClaimsOf(u, s.db.users[u]) == ClaimsOf(u, t.db.users[u]))
    ensures DoRefresh(s, c).response == DoRefresh(t, c).response
    ensures !DoRefresh(s, c).response.LoggedIn? && !DoRefresh(s, c).response.Answer?
    ensures DoRefresh(s, c).store.db.tokens == DoRefresh(t, c).store.db.tokens
    ensures DoRefresh(s, c).store.family == DoRefresh(t, c).store.family
  {
  }

  lemma RefreshAgrees(s: Store, t: Store, c: Command)
    requires Alike(s, t) && c.RefreshAccessToken?
    ensures Agree(DoRefresh(s, c), DoRefresh(t, c))
  {
    var found := FindByHash(s.db.tokens, Digest(c.presented));
    if found.Some? && s.db.tokens[found.value].owner in s.db.users {
      var u := s.db.tokens[found.value].owner;
      assert SameButPending(s.db.users[u], t.db.users[u]);
    }
    RefreshShape(s, c);
    RefreshShape(t, c);
    RefreshSame(s, t, c);
  }

  lemma LogoutAgrees(s: Store, t: Store, c: Command)
    requires Alike(s, t) && c.Logout?
    ensures Agree(DoLogout(s, c), DoLogout(t, c))
  {
  }

  /** A request writes nothing but what is pending. */
  lemma RequestWrites(s: Store, c: Command)
    requires c.ChangeRole? && KycRequired(c.role) && c.user in s.db.users
    ensures var s' := DoChangeRole(s, c).store; var a := s.db.users[c.user];
            || s' == s
            || (s' == s.(db := s'.db, events := s'.events, drops := s'.drops, lossless := s'.lossless)
                && s'.db == s.db.(users := Saved(s.db.users, c.user, a.(requested := Some(c.role)), c.now),
                    roleLog := s'.db.roleLog))
    ensures DoChangeRole(s, c).store == s <==>
            s.db.users[c.user].role == c.role || s.db.users[c.user].requested == Some(c.role)
    ensures DoChangeRole(s, c).response.Answer?
         && DoChangeRole(s, c).response.profile.(requested := None) ==
             ProfileOf(c.user, s.db.users[c.user]).(requested := None)
  {
    var s' := DoChangeRole(s, c).store;
    if s.db.users[c.user].role != c.role && s.db.users[c.user].requested != Some(c.role) {
      assert |s'.db.roleLog| == |s.db.roleLog| + 1;
      assert s'.db.statusLog == s.db.statusLog;
    }
  }

  lemma ChangeRoleAgrees(s: Store, t: Store, c: Command)
    requires Alike(s, t) && c.ChangeRole?
    ensures Agree(DoChangeRole(s, c), DoChangeRole(t, c))
  {
    if c.user in s.db.users {
      var a, b := s.db.users[c.user], t.db.users[c.user];
      assert SameButPending(a, b);
      if KycRequired(c.role) {
        KycRequestAgrees(s, t, c);
      } else {
        SavedAlike(s.db.users, t.db.users, c.user, a.(role := c.role, requested := None),
            b.(role := c.role, requested := None), c.now);
        GrantWrites(s, c);
        GrantWrites(t, c);
      }
    }
  }

  /** A direct grant sets the role and settles whatever was pending. */
  lemma GrantWrites(s: Store, c: Command)
    requires c.ChangeRole? && !KycRequired(c.role) && c.user in s.db.users
    ensures var s' := DoChangeRole(s, c).store; var a := s.db.users[c.user];
            if a.role == c.role then s' == s && DoChangeRole(s, c).response == Answer(ProfileOf(c.user, a))
            else
              && s' == s.(db := s'.db, events := s'.events, drops := s'.drops, lossless := s'.lossless)
              && s'.db == s.db.(users := Saved(s.db.users, c.user, a.(role := c.role, requested := None), c.now),
                  roleLog := s'.db.roleLog)
              && DoChangeRole(s, c).response == Answer(ProfileOf(c.user, a.(role := c.role, requested := None)))
  {
    assert s.db.users[c.user].role != c.role ==> DoChangeRole(s, c).store.db.statusLog == s.db.statusLog;
  }

  /** One store may already hold the request the other one writes. */
  lemma KycRequestAgrees(s: Store, t: Store, c: Command)
    requires Alike(s, t) && c.ChangeRole? && KycRequired(c.role) && c.user in s.db.users
    ensures Agree(DoChangeRole(s, c), DoChangeRole(t, c))
  {
    var a, b := s.db.users[c.user], t.db.users[c.user];
    assert SameButPending(a, b);
    RequestWrites(s, c);
    RequestWrites(t, c);
    assert SameButPending(if a.role == c.role then a else a.(requested := Some(c.role)),
                          if a.role == c.role then b else b.(requested := Some(c.role)));
    PendingAlike(s.db.users, t.db.users, c.user, Some(c.role), c.now);
  }

  lemma PendingAlike(users: map<UserId, Account>, users': map<UserId, Account>, id: UserId, requested: Option<Role>,
                     now: Time)
    requires UsersAlike(users, users') && id in users
    ensures var a, b := users[id].(requested := requested), users'[id].(requested := requested);
            && UsersAlike(Saved(users, id, a, now), Saved(users', id, b, now))
            && (users[id].requested == requested ==> UsersAlike(users, Saved(users', id, b, now)))
            && (users'[id].requested == requested ==> UsersAlike(Saved(users, id, a, now), users'))
  {
    assert SameButPending(users[id], users'[id]);
  }

  lemma ChangeStatusAgrees(s: Store, t: Store, c: Command)
    requires Alike(s, t) && c.ChangeStatus?
    ensures Agree(DoChangeStatus(s, c), DoChangeStatus(t, c))
  {
    if c.user in s.db.users {
      var a, b := s.db.users[c.user], t.db.users[c.user];
      assert SameButPending(a, b);
      if CanTransition(a.status, c.status) && AdminSettable(c.status) {
        SavedAlike(s.db.users, t.db.users, c.user, a.(status := c.status), b.(status := c.status), c.now);
      }
    }
  }

  lemma UpdateProfileAgrees(s: Store, t: Store, c: Command)
    requires Alike(s, t) && c.UpdateProfile?
    ensures Agree(DoUpdateProfile(s, c), DoUpdateProfile(t, c))
  {
    if c.user in s.db.users {
      var a, b := s.db.users[c.user], t.db.users[c.user];
      assert SameButPending(a, b);
      SavedAlike(s.db.users, t.db.users, c.user, a.(fullName := c.name), b.(fullName := c.name), c.now);
    }
  }

  lemma StepAgrees(s: Store, t: Store, c: Command)
    requires Alike(s, t) && UniquePhones(s.db.users) && Admissible(s, c) && !c.DecideKyc?
    ensures Agree(Step(s, c), Step(t, c)) && Admissible(t, c)
  {
    var s1, t1 := s.(clock := c.now), t.(clock := c.now);
    match c
    case RegisterUser(_, _, _, _) => RegisterAgrees(s1, t1, c);
    case RequestOtp(_, _, _, _, _) => RequestAgrees(s1, t1, c);
    case VerifyOtp(_, _, _, _, _, _, _, _) => VerifyAgrees(s1, t1, c);
    case RefreshAccessToken(_, _, _, _, _) => RefreshAgrees(s1, t1, c);
    case Logout(_, _, _) => LogoutAgrees(s1, t1, c);
    case ChangeRole(_, _, _, _, _, _) => ChangeRoleAgrees(s1, t1, c);
    case ChangeStatus(_, _, _, _, _, _) => ChangeStatusAgrees(s1, t1, c);
    case UpdateProfile(_, _, _, _) => UpdateProfileAgrees(s1, t1, c);
  }

  /** An extra request: for a KYC role, on an account that is not (or no longer)
      waiting for its first verification. */
  ghost predicate IsExtra(s: Store, c: Command) {
    && c.ChangeRole? && (c.role == Driver || c.role == Merchant)
    && (c.user in s.db.users ==> !s.db.users[c.user].status.PendingVerification?)
  }

  lemma ExtraUnseen(s: Store, t: Store, c: Command)
    requires Alike(s, t) && Admissible(s, c) && IsExtra(s, c)
    ensures Alike(Step(s, c).store, t)
  {
    if c.user in s.db.users {
      var s1 := s.(clock := c.now);
      RequestWrites(s1, c);
      assert SameButPending(s.db.users[c.user], t.db.users[c.user]);
    }
  }

  // ---------------------------------------------------------------------
  // Whole runs

  datatype Marked = Marked(c: Command, extra: bool)

  function Full(run: seq<Marked>): seq<Command> {
    if run == [] then [] else Full(run[..|run| - 1]) + [run[|run| - 1].c]
  }

  function Lean(run: seq<Marked>): seq<Command> {
    if run == [] then []
    else Lean(run[..|run| - 1]) + if run[|run| - 1].extra then [] else [run[|run| - 1].c]
  }

  /** The marked commands are extra requests where they run, and nothing is
      decided. */
  ghost predicate WellMarked(s0: Store, run: seq<Marked>) {
    run == [] ||
    var before, last := run[..|run| - 1], run[|run| - 1];
    && WellMarked(s0, before)
    && Admissible(Exec(s0, Full(before)), last.c)
    && !last.c.DecideKyc?
    && (last.extra ==> IsExtra(Exec(s0, Full(before)), last.c))
  }

  lemma ExecOneMore(s0: Store, run: seq<Command>, c: Command)
    requires ValidRun(s0, run)
    ensures Exec(s0, run + [c]) == Step(Exec(s0, run), c).store
    ensures ValidRun(s0, run + [c]) <==> Admissible(Exec(s0, run), c)
  {
    assert (run + [c])[..|run|] == run;
  }

  /** Two runs that differ only by extra requests keep the same roles, statuses,
      codes and sessions, and give the same answer to every later command. */
  lemma {:induction false} ExtraRequestsInvisible(s0: Store, run: seq<Marked>)
    requires Genesis(s0) && WellMarked(s0, run)
    ensures ValidRun(s0, Full(run)) && ValidRun(s0, Lean(run))
    ensures Alike(Exec(s0, Full(run)), Exec(s0, Lean(run)))
  {
    if run != [] {
      var before, last := run[..|run| - 1], run[|run| - 1];
      ExtraRequestsInvisible(s0, before);
      var s, t := Exec(s0, Full(before)), Exec(s0, Lean(before));
      ExecOneMore(s0, Full(before), last.c);
      if last.extra {
        ExtraUnseen(s, t, last.c);
        assert Lean(run) == Lean(before);
      } else {
        Sessions.AlwaysSound(s0, Full(before));
        StepAgrees(s, t, last.c);
        ExecOneMore(s0, Lean(before), last.c);
      }
    }
  }

  lemma SameAnswers(s0: Store, run: seq<Marked>, c: Command)
    requires Genesis(s0) && WellMarked(s0, run) && Admissible(Exec(s0, Full(run)), c) && !c.DecideKyc?
    ensures Admissible(Exec(s0, Lean(run)), c)
    ensures Masked(Step(Exec(s0, Full(run)), c).response) == Masked(Step(Exec(s0, Lean(run)), c).response)
  {
    ExtraRequestsInvisible(s0, run);
    Sessions.AlwaysSound(s0, Full(run));
    StepAgrees(Exec(s0, Full(run)), Exec(s0, Lean(run)), c);
  }
}

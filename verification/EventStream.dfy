/** The event stream against the store: what a subscriber that folds the events
    knows about each account. */
module EventStream {
  import opened Domain
  import opened IdentityStore
  import opened Footprint
  import RoleAudit
  import StatusAudit

  /** The role a subscriber holds for `u`; None once an announced change does
      not start from the role it knew, or changes nothing. */
  function KnownRole(base: map<UserId, Account>, events: seq<Event>, u: UserId): Option<Role> {
    if events == [] then Some(RoleAudit.OriginRole(base, u))
    else
      var known := KnownRole(base, events[..|events| - 1], u);
      var e := events[|events| - 1];
      if !e.UserRoleChanged? || e.user != u then known
      else if known == Some(e.oldRole) && e.oldRole != e.newRole then Some(e.newRole)
      else None
  }

  /** The suspended bit, driven by the wire name of status events. */
  function KnownSuspended(base: map<UserId, Account>, events: seq<Event>, u: UserId): bool {
    if events == [] then StatusAudit.OriginStatus(base, u).Suspended?
    else
      var e := events[|events| - 1];
      if e.UserStatusChanged? && e.user == u then e.Name() == "user.suspended"
      else KnownSuspended(base, events[..|events| - 1], u)
  }

  function Announced(events: seq<Event>, u: UserId): nat {
    if events == [] then 0
    else
      var e := events[|events| - 1];
      Announced(events[..|events| - 1], u) + if e.Name() == "user.registered" && e.user == u then 1 else 0
  }

  /** Exits from `pending_verification` that no admin made. */
  function SystemExits(log: seq<StatusChange>, u: UserId): nat {
    if log == [] then 0
    else
      var row := log[|log| - 1];
      SystemExits(log[..|log| - 1], u) +
      if row.user == u && row.before.PendingVerification? && row.actor.None? then 1 else 0
  }

  ghost predicate Knows(base: map<UserId, Account>, s: Store, u: UserId) {
    && u in s.db.users
    && Announced(s.events, u) <= SystemExits(s.db.statusLog, u)
    && (s.lossless ==>
          && KnownRole(base, s.events, u) == Some(s.db.users[u].role)
          && KnownSuspended(base, s.events, u) == s.db.users[u].status.Suspended?
          && Announced(s.events, u) == SystemExits(s.db.statusLog, u))
  }

  ghost predicate Refines(base: map<UserId, Account>, s: Store) {
    && (forall u :: u in base ==> u in s.db.users)
    && (forall i :: 0 <= i < |s.events| ==> s.events[i].user in s.db.users)
    && (forall i :: 0 <= i < |s.db.statusLog| ==> s.db.statusLog[i].user in s.db.users)
    && (forall u :: u in s.db.users ==> Knows(base, s, u))
  }

  // ---------------------------------------------------------------------
  // What a step says

  /** The event tells exactly what happened to the account it names. */
  ghost predicate Truthful(e: Event, a: Account, a': Account, exits: int) {
    && (if e.UserRoleChanged? then e.oldRole == a.role && e.newRole == a'.role && a.role != a'.role
        else a'.role == a.role)
    && (if e.UserStatusChanged? then e.newStatus == a'.status else a.status.Suspended? == a'.status.Suspended?)
    && exits == (if e.UserRegistered? then 1 else 0)
    && e.role == a'.role && e.phone == a'.phone
  }

  /** One account changed and one event about it was published, or lost. */
  ghost predicate Says(s: Store, s': Store, e: Event) {
    && e.user in s.db.users && s'.db.users.Keys == s.db.users.Keys
    && (forall u :: u in s.db.users && u != e.user ==> s'.db.users[u] == s.db.users[u])
    && (if s'.events == s.events then !s'.lossless
        else s'.events == s.events + [e] && s'.lossless == s.lossless)
    && |s'.db.statusLog| >= |s.db.statusLog|
    && s'.db.statusLog[..|s.db.statusLog|] == s.db.statusLog
    && (forall i :: |s.db.statusLog| <= i < |s'.db.statusLog| ==> s'.db.statusLog[i].user == e.user)
    && Truthful(e, s.db.users[e.user], s'.db.users[e.user],
                SystemExits(s'.db.statusLog, e.user) - SystemExits(s.db.statusLog, e.user))
  }

  /** Nothing to tell: no event, no role, no suspension, no exit. */
  ghost predicate Silent(s: Store, s': Store) {
    && s'.events == s.events && s'.lossless == s.lossless && s'.db.statusLog == s.db.statusLog
    && (forall u :: u in s.db.users ==>
          && u in s'.db.users && s'.db.users[u].role == s.db.users[u].role
          && s'.db.users[u].status.Suspended? == s.db.users[u].status.Suspended?)
    && (forall u :: u in s'.db.users && u !in s.db.users ==>
        s'.db.users[u].role == User && !s'.db.users[u].status.Suspended?)
  }

  lemma {:induction false} Unheard(base: map<UserId, Account>, events: seq<Event>, log: seq<StatusChange>, u: UserId)
    requires u !in base
    requires forall i :: 0 <= i < |events| ==> events[i].user != u
    requires forall i :: 0 <= i < |log| ==> log[i].user != u
    ensures KnownRole(base, events, u) == Some(User) && !KnownSuspended(base, events, u) && Announced(events, u) == 0
    ensures SystemExits(log, u) == 0
    decreases |events| + |log|
  {
    if events != [] {
      Unheard(base, events[..|events| - 1], log, u);
    } else if log != [] {
      Unheard(base, events, log[..|log| - 1], u);
    }
  }

  lemma SilentKeeps(base: map<UserId, Account>, s: Store, s': Store)
    requires Refines(base, s) && Silent(s, s')
    ensures Refines(base, s')
  {
    forall u | u in s'.db.users
      ensures Knows(base, s', u)
    {
      if u in s.db.users {
        assert Knows(base, s, u);
      } else {
        Unheard(base, s.events, s.db.statusLog, u);
      }
    }
  }

  lemma {:induction false} ExitsOfOthers(log: seq<StatusChange>, n: nat, u: UserId)
    requires n <= |log| && forall i :: n <= i < |log| ==> log[i].user != u
    ensures SystemExits(log, u) == SystemExits(log[..n], u)
  {
    if n < |log| {
      ExitsOfOthers(log[..|log| - 1], n, u);
      assert log[..|log| - 1][..n] == log[..n];
    } else {
      assert log[..n] == log;
    }
  }

  lemma SaysAbout(base: map<UserId, Account>, s: Store, s': Store, e: Event, u: UserId)
    requires Says(s, s', e) && u in s.db.users && Knows(base, s, u)
    ensures Knows(base, s', u)
  {
    if s'.events != s.events {
      assert s'.events[..|s'.events| - 1] == s.events;
    }
    if u != e.user {
      ExitsOfOthers(s'.db.statusLog, |s.db.statusLog|, u);
    }
  }

  lemma SaysKeeps(base: map<UserId, Account>, s: Store, s': Store, e: Event)
    requires Refines(base, s) && Says(s, s', e)
    ensures Refines(base, s')
  {
    forall u | u in s'.db.users
      ensures Knows(base, s', u)
    {
      SaysAbout(base, s, s', e, u);
    }
    forall i | 0 <= i < |s'.db.statusLog|
      ensures s'.db.statusLog[i].user in s'.db.users
    {
      if i < |s.db.statusLog| {
        assert s'.db.statusLog[i] == s.db.statusLog[i];
      }
    }
  }

  lemma ExitRow(log: seq<StatusChange>, row: StatusChange, u: UserId)
    ensures SystemExits(log + [row], u) == SystemExits(log, u) +
              if row.user == u && row.before.PendingVerification? && row.actor.None? then 1 else 0
  {
    assert (log + [row])[..|log|] == log;
  }

  /** An update with at most one status row speaks through its event. */
  lemma UpdatedSays(s: Store, id: UserId, a: Account, at: Time, statusRows: seq<StatusChange>,
                    roleRows: seq<RoleChange>, event: Event, up: bool)
    requires id in s.db.users && event.user == id && |statusRows| <= 1
    requires forall row :: row in statusRows ==> row.user == id
    requires a.phone == s.db.users[id].phone
    requires Truthful(event, s.db.users[id], a,
               if statusRows != [] && statusRows[0].before.PendingVerification? && statusRows[0].actor.None? then 1
                   else 0)
    ensures Says(s, Updated(s, id, a, at, statusRows, roleRows, event, up), event)
  {
    var s' := Updated(s, id, a, at, statusRows, roleRows, event, up);
    if statusRows != [] {
      assert statusRows == [statusRows[0]];
      assert statusRows[0] in statusRows;
      ExitRow(s.db.statusLog, statusRows[0], id);
    } else {
      assert s'.db.statusLog == s.db.statusLog;
    }
  }

  // ---------------------------------------------------------------------
  // Each command

  lemma VerifySays(s: Store, c: Command) returns (e: Event)
    requires c.VerifyOtp?
    ensures Silent(s, DoVerifyOtp(s, c).store) || Says(s, DoVerifyOtp(s, c).store, e)
  {
    VerifyCases(s, c);
    e := UserUpdated(0, "", User, []);
    if DoVerifyOtp(s, c).response.LoggedIn? {
      e := AdmittedSays(s, c, DoVerifyOtp(s, c).response.claims.sub);
    }
  }

  lemma AdmittedSays(s: Store, c: Command, id: UserId) returns (e: Event)
    requires c.VerifyOtp? && c.pick in s.db.otps && id in s.db.users && !s.db.users[id].status.Suspended?
    ensures Silent(s, Admitted(s, c, id)) || Says(s, Admitted(s, c, id), e)
  {
    var user := s.db.users[id];
    e := UserRegistered(id, user.phone, user.role);
    if user.status.PendingVerification? {
      var spent := s.(db := s.db.(otps := Admitted(s, c, id).db.otps, tokens := Admitted(s, c, id).db.tokens),
                      family := Admitted(s, c, id).family, ledger := Admitted(s, c, id).ledger);
      var row := StatusChange(id, PendingVerification, Verified(user).status, OTP_REASON, None, c.now);
      UpdatedSays(spent, id, Verified(user), c.now, [row], [], e, c.busUp);
    }
  }

  lemma ChangeRoleSays(s: Store, c: Command) returns (e: Event)
    requires c.ChangeRole?
    ensures Silent(s, DoChangeRole(s, c).store) || Says(s, DoChangeRole(s, c).store, e)
  {
    e := UserUpdated(c.user, "", User, []);
    if DoChangeRole(s, c).store != s {
      var user := s.db.users[c.user];
      if user.NeedsKycFor(c.role) {
        e := UserUpdated(c.user, user.phone, user.role, ["requested_role"]);
        UpdatedSays(s, c.user, user.(requested := Some(c.role)), c.now, [],
                    [RoleChange(c.user, user.role, None, Some(c.role), c.reason, c.actor, c.now)], e, c.busUp);
      } else {
        e := UserRoleChanged(c.user, user.phone, c.role, user.role, c.role);
        UpdatedSays(s, c.user, user.(role := c.role, requested := None), c.now, [],
                    [RoleChange(c.user, user.role, Some(c.role), None, c.reason, c.actor, c.now)], e, c.busUp);
      }
    }
  }

  lemma DecideKycSays(base: map<UserId, Account>, s: Store, c: Command) returns (e: Event)
    requires c.DecideKyc? && RoleAudit.Audited(base, s.db)
    ensures Silent(s, DoDecideKyc(s, c).store) || Says(s, DoDecideKyc(s, c).store, e)
  {
    e := UserUpdated(c.user, "", User, []);
    if DoDecideKyc(s, c).store != s {
      var user := s.db.users[c.user];
      assert RoleAudit.AccountAudited(base, s.db.roleLog, c.user, user);
      var now := Decided(user, c.approved);
      var statusRows := DecisionStatusRows(c.user, user, c.approved, c.reason, c.actor, c.now);
      var row := DecisionRow(c.user, user, c.approved, c.reason, c.actor, c.now);
      e := if c.approved then UserRoleChanged(c.user, user.phone, now.role, user.role, now.role)
           else UserUpdated(c.user, user.phone, now.role, ["requested_role"]);
      UpdatedSays(s, c.user, now, c.now, statusRows, [row], e, c.busUp);
    }
  }

  lemma ChangeStatusSays(s: Store, c: Command) returns (e: Event)
    requires c.ChangeStatus? && c.admin.Some?
    ensures Silent(s, DoChangeStatus(s, c).store) || Says(s, DoChangeStatus(s, c).store, e)
  {
    e := UserUpdated(c.user, "", User, []);
    if DoChangeStatus(s, c).store != s {
      var user := s.db.users[c.user];
      e := UserStatusChanged(c.user, user.phone, user.role, user.status, c.status, c.reason);
      var row := StatusChange(c.user, user.status, c.status, c.reason, c.admin, c.now);
      var cleared := s.(db := s.db.(tokens := DoChangeStatus(s, c).store.db.tokens));
      UpdatedSays(cleared, c.user, user.(status := c.status), c.now, [row], [], e, c.busUp);
    }
  }

  lemma UpdateProfileSays(s: Store, c: Command) returns (e: Event)
    requires c.UpdateProfile?
    ensures Silent(s, DoUpdateProfile(s, c).store) || Says(s, DoUpdateProfile(s, c).store, e)
  {
    e := UserUpdated(c.user, "", User, []);
    if DoUpdateProfile(s, c).store != s {
      var user := s.db.users[c.user];
      e := UserUpdated(c.user, user.phone, user.role, ["full_name"]);
      UpdatedSays(s, c.user, user.(fullName := c.name), c.now, [], [], e, c.busUp);
    }
  }

  lemma QuietSilent(s: Store, s': Store, c: Command)
    requires Within(s, s', c) && !Announces(c)
    ensures Silent(s, s')
  {
  }

  lemma OthersSilent(s: Store, c: Command)
    requires (c.RegisterUser? ==> c.newUser !in s.db.users) && !Announces(c) && s.clock == c.now
    ensures Silent(s, Do(s, c).store)
  {
    StepWithin(s, c);
    assert s.(clock := c.now) == s;
    QuietSilent(s, Do(s, c).store, c);
  }

  /** Every command says nothing, or says exactly what it did. */
  lemma CommandSays(base: map<UserId, Account>, s: Store, c: Command) returns (e: Event)
    requires RoleAudit.Audited(base, s.db) && (c.RegisterUser? ==> c.newUser !in s.db.users)
    requires (c.ChangeStatus? ==> c.admin.Some?) && s.clock == c.now
    ensures Silent(s, Do(s, c).store) || Says(s, Do(s, c).store, e)
  {
    match c
    case VerifyOtp(_, _, _, _, _, _, _, _) => e := VerifySays(s, c);
    case ChangeRole(_, _, _, _, _, _) => e := ChangeRoleSays(s, c);
    case DecideKyc(_, _, _, _, _, _) => e := DecideKycSays(base, s, c);
    case ChangeStatus(_, _, _, _, _, _) => e := ChangeStatusSays(s, c);
    case UpdateProfile(_, _, _, _) => e := UpdateProfileSays(s, c);
    case _ => e := UserUpdated(0, "", User, []); OthersSilent(s, c);
  }

  lemma CommandKeeps(base: map<UserId, Account>, s: Store, c: Command)
    requires RoleAudit.Audited(base, s.db) && (c.RegisterUser? ==> c.newUser !in s.db.users)
    requires (c.ChangeStatus? ==> c.admin.Some?) && s.clock == c.now && Refines(base, s)
    ensures Refines(base, Do(s, c).store)
  {
    var e := CommandSays(base, s, c);
    if Silent(s, Do(s, c).store) {
      SilentKeeps(base, s, Do(s, c).store);
    } else {
      SaysKeeps(base, s, Do(s, c).store, e);
    }
  }

  lemma ClockAside(base: map<UserId, Account>, s: Store, now: Time)
    requires Refines(base, s)
    ensures Refines(base, s.(clock := now))
  {
    forall u | u in s.db.users
      ensures Knows(base, s.(clock := now), u)
    {
      assert Knows(base, s, u);
    }
  }

  /** In every run: while no publish failed, folding the stream gives the role
      and the suspended bit of every account and one registration per exit the
      system made; and with losses, still never more registrations than exits. */
  lemma {:induction false} StreamRefinesStore(s0: Store, run: seq<Command>)
    requires Genesis(s0) && ValidRun(s0, run)
    ensures Refines(s0.db.users, Exec(s0, run))
  {
    if run != [] {
      var before, c := Exec(s0, run[..|run| - 1]), run[|run| - 1];
      StreamRefinesStore(s0, run[..|run| - 1]);
      RoleAudit.AuditDeterminesAccounts(s0, run[..|run| - 1]);
      ClockAside(s0.db.users, before, c.now);
      CommandKeeps(s0.db.users, before.(clock := c.now), c);
    }
  }

  lemma {:induction false} OneExit(base: map<UserId, Account>, log: seq<StatusChange>, u: UserId)
    requires StatusAudit.IsPath(base, log)
    ensures SystemExits(log, u) <= 1
    ensures StatusAudit.Walk(base, log, u).PendingVerification? ==> SystemExits(log, u) == 0
  {
    if log != [] {
      OneExit(base, log[..|log| - 1], u);
    }
  }

  /** `user.registered` is never announced twice, whatever publishes were lost. */
  lemma RegisteredOnce(s0: Store, run: seq<Command>, u: UserId)
    requires Genesis(s0) && ValidRun(s0, run) && u in Exec(s0, run).db.users
    ensures Announced(Exec(s0, run).events, u) <= 1
  {
    StreamRefinesStore(s0, run);
    assert Knows(s0.db.users, Exec(s0, run), u);
    StatusAudit.AlwaysAudited(s0, run);
    OneExit(s0.db.users, Exec(s0, run).db.statusLog, u);
  }
}

/** What each command may write. One lemma here looks inside the commands; the
    invariants elsewhere only need its result. */
module Footprint {
  import opened Domain
  import opened IdentityStore

  predicate WritesUsers(c: Command) {
    !c.RequestOtp? && !c.RefreshAccessToken? && !c.Logout?
  }

  predicate WritesRoles(c: Command) {
    c.ChangeRole? || c.DecideKyc?
  }

  predicate WritesStatuses(c: Command) {
    c.VerifyOtp? || c.DecideKyc? || c.ChangeStatus?
  }

  predicate WritesTokens(c: Command) {
    c.VerifyOtp? || c.RefreshAccessToken? || c.Logout? || c.ChangeStatus?
  }

  predicate WritesCodes(c: Command) {
    c.RequestOtp? || c.VerifyOtp?
  }

  /** Commands that drop a cache key and publish. */
  predicate Announces(c: Command) {
    WritesUsers(c) && !c.RegisterUser?
  }

  /** The account a registration inserts. */
  function NewAccount(c: Command): Account
    requires c.RegisterUser?
  {
    Account(c.phone, if c.name == Some("") then None else c.name, User, PendingVerification, None, c.now, c.now)
  }

  /** A row keeps its phone and creation date, and every column that is not
      the business of this command; a row that changes is dated. */
  predicate RowKept(c: Command, a: Account, a': Account) {
    && a'.phone == a.phone && a'.createdAt == a.createdAt
    && (c.UpdateProfile? || a'.fullName == a.fullName)
    && (WritesRoles(c) || (a'.role == a.role && a'.requested == a.requested))
    && (WritesStatuses(c) || a'.status == a.status)
    && (a' == a || a'.updatedAt == c.now)
  }

  /** The account a command is about. */
  predicate Targets(c: Command, u: UserId, a: Account) {
    if c.VerifyOtp? then a.phone == c.phone
    else if c.ChangeRole? || c.DecideKyc? || c.ChangeStatus? || c.UpdateProfile? then u == c.user
    else false
  }

  /** No row disappears, a row that changes is the one the command is about and
      has its cache key dropped, and only a registration adds one. */
  ghost predicate RowsKept(c: Command, users: map<UserId, Account>, users': map<UserId, Account>,
                           dropped: seq<UserId>) {
    && (forall u :: u in users ==>
          && u in users' && RowKept(c, users[u], users'[u])
          && (users'[u] == users[u] || (u in dropped && Targets(c, u, users[u]))))
    && (forall u {:trigger u in users'} :: u in users' && u !in users ==>
          c.RegisterUser? && u == c.newUser && users'[u] == NewAccount(c))
  }

  ghost predicate FieldsKept(s: Store, s': Store, c: Command) {
    && s'.cfg == s.cfg && s'.clock == s.clock && s.ledger <= s'.ledger && s.drops <= s'.drops
    && (WritesUsers(c) || s'.db.users == s.db.users)
    && (WritesCodes(c) || s'.db.otps == s.db.otps)
    && (WritesTokens(c) || s'.db.tokens == s.db.tokens)
    && (WritesStatuses(c) || s'.db.statusLog == s.db.statusLog)
    && (WritesRoles(c) || s'.db.roleLog == s.db.roleLog)
    && (c.RequestOtp? || s'.limits == s.limits)
    && (c.VerifyOtp? || s'.ledger == s.ledger)
    && (c.VerifyOtp? || c.RefreshAccessToken? || s'.family == s.family)
    && (Announces(c) || (s'.events == s.events && s'.drops == s.drops && s'.lossless == s.lossless))
  }

  ghost predicate Within(s: Store, s': Store, c: Command) {
    FieldsKept(s, s', c) && RowsKept(c, s.db.users, s'.db.users, s'.drops[|s.drops|..])
  }

  // ---------------------------------------------------------------------
  // Each command

  lemma SavedRow(c: Command, users: map<UserId, Account>, id: UserId, a: Account, dropped: seq<UserId>)
    requires id in users && id in dropped && Targets(c, id, users[id])
             && RowKept(c, users[id],
                 a.(phone := users[id].phone, createdAt := users[id].createdAt, updatedAt := c.now))
    ensures RowsKept(c, users, Saved(users, id, a, c.now), dropped)
  {
  }

  lemma RegisterWithin(s: Store, c: Command)
    requires c.RegisterUser?
    ensures FieldsKept(s, DoRegister(s, c).store, c)
    ensures c.newUser !in s.db.users ==> Within(s, DoRegister(s, c).store, c)
  {
  }

  lemma RequestWithin(s: Store, c: Command)
    requires c.RequestOtp?
    ensures Within(s, DoRequestOtp(s, c).store, c)
  {
  }

  lemma VerifyWithin(s: Store, c: Command)
    requires c.VerifyOtp?
    ensures Within(s, DoVerifyOtp(s, c).store, c)
  {
    VerifyCases(s, c);
    var r, s' := DoVerifyOtp(s, c).response, DoVerifyOtp(s, c).store;
    if r.LoggedIn? {
      AdmittedWithin(s, c, r.claims.sub);
    } else {
      JudgedLedger(s, c);
    }
  }

  lemma JudgedLedger(s: Store, c: Command)
    requires c.VerifyOtp?
    ensures s.ledger <= DoVerifyOtp(s, c).store.ledger
  {
  }

  lemma AdmittedWithin(s: Store, c: Command, id: UserId)
    requires c.VerifyOtp? && c.pick in s.db.otps && id in s.db.users && s.db.users[id].phone == c.phone
    ensures Within(s, Admitted(s, c, id), c)
  {
    var s' := Admitted(s, c, id);
    assert s'.drops[|s.drops|..] == [id];
    if s.db.users[id].status.PendingVerification? {
      SavedRow(c, s.db.users, id, Verified(s.db.users[id]), [id]);
    }
  }

  lemma RefreshWithin(s: Store, c: Command)
    requires c.RefreshAccessToken?
    ensures Within(s, DoRefresh(s, c).store, c)
  {
  }

  lemma LogoutWithin(s: Store, c: Command)
    requires c.Logout?
    ensures Within(s, DoLogout(s, c).store, c)
  {
  }

  lemma UpdatedWithin(s: Store, c: Command, id: UserId, a: Account, statusRows: seq<StatusChange>,
                      roleRows: seq<RoleChange>, event: Event, up: bool)
    requires id in s.db.users && RowKept(c, s.db.users[id], a.(updatedAt := c.now))
    requires Announces(c) && Targets(c, id, s.db.users[id])
    requires statusRows == [] || WritesStatuses(c)
    requires roleRows == [] || WritesRoles(c)
    ensures Within(s, Updated(s, id, a, c.now, statusRows, roleRows, event, up), c)
  {
    var s' := Updated(s, id, a, c.now, statusRows, roleRows, event, up);
    assert s'.drops[|s.drops|..] == [id];
    SavedRow(c, s.db.users, id, a, [id]);
    if statusRows == [] { assert s'.db.statusLog == s.db.statusLog; }
    if roleRows == [] { assert s'.db.roleLog == s.db.roleLog; }
  }

  lemma RequestRoleWithin(s: Store, c: Command)
    requires c.ChangeRole? && c.user in s.db.users && s.db.users[c.user].NeedsKycFor(c.role)
    ensures Within(s, DoChangeRole(s, c).store, c)
  {
    var user := s.db.users[c.user];
    UpdatedWithin(s, c, c.user, user.(requested := Some(c.role)), [],
                  [RoleChange(c.user, user.role, None, Some(c.role), c.reason, c.actor, c.now)],
                  UserUpdated(c.user, user.phone, user.role, ["requested_role"]), c.busUp);
  }

  lemma GrantRoleWithin(s: Store, c: Command)
    requires c.ChangeRole? && c.user in s.db.users && !s.db.users[c.user].NeedsKycFor(c.role)
    ensures Within(s, DoChangeRole(s, c).store, c)
  {
    var user := s.db.users[c.user];
    UpdatedWithin(s, c, c.user, user.(role := c.role, requested := None), [],
                  [RoleChange(c.user, user.role, Some(c.role), None, c.reason, c.actor, c.now)],
                  UserRoleChanged(c.user, user.phone, c.role, user.role, c.role), c.busUp);
  }

  lemma ChangeRoleWithin(s: Store, c: Command)
    requires c.ChangeRole?
    ensures Within(s, DoChangeRole(s, c).store, c)
  {
    if c.user in s.db.users {
      if s.db.users[c.user].NeedsKycFor(c.role) { RequestRoleWithin(s, c); } else { GrantRoleWithin(s, c); }
    }
  }

  lemma DecideKycWithin(s: Store, c: Command)
    requires c.DecideKyc?
    ensures Within(s, DoDecideKyc(s, c).store, c)
  {
    if c.user in s.db.users && s.db.users[c.user].requested.Some? {
      var user := s.db.users[c.user];
      var now := Decided(user, c.approved);
      UpdatedWithin(s, c, c.user, now, DecisionStatusRows(c.user, user, c.approved, c.reason, c.actor, c.now),
                    [DecisionRow(c.user, user, c.approved, c.reason, c.actor, c.now)],
                    if c.approved then UserRoleChanged(c.user, user.phone, now.role, user.role, now.role)
                    else UserUpdated(c.user, user.phone, now.role, ["requested_role"]), c.busUp);
    }
  }

  lemma ChangeStatusWithin(s: Store, c: Command)
    requires c.ChangeStatus?
    ensures Within(s, DoChangeStatus(s, c).store, c)
  {
    if c.user in s.db.users {
      var user := s.db.users[c.user];
      var cleared := s.(db := s.db.(tokens := DoChangeStatus(s, c).store.db.tokens));
      UpdatedWithin(cleared, c, c.user, user.(status := c.status),
                    [StatusChange(c.user, user.status, c.status, c.reason, c.admin, c.now)], [],
                    UserStatusChanged(c.user, user.phone, user.role, user.status, c.status, c.reason), c.busUp);
    }
  }

  lemma UpdateProfileWithin(s: Store, c: Command)
    requires c.UpdateProfile?
    ensures Within(s, DoUpdateProfile(s, c).store, c)
  {
    if c.user in s.db.users {
      var user := s.db.users[c.user];
      UpdatedWithin(s, c, c.user, user.(fullName := c.name), [], [],
                    UserUpdated(c.user, user.phone, user.role, ["full_name"]), c.busUp);
    }
  }

  /** No command writes outside its footprint. */
  lemma StepWithin(s: Store, c: Command)
    ensures FieldsKept(s.(clock := c.now), Step(s, c).store, c)
    ensures (c.RegisterUser? ==> c.newUser !in s.db.users) ==> Within(s.(clock := c.now), Step(s, c).store, c)
  {
    var t := s.(clock := c.now);
    match c
    case RegisterUser(_, _, _, _) => RegisterWithin(t, c);
    case RequestOtp(_, _, _, _, _) => RequestWithin(t, c);
    case VerifyOtp(_, _, _, _, _, _, _, _) => VerifyWithin(t, c);
    case ChangeRole(_, _, _, _, _, _) => ChangeRoleWithin(t, c);
    case DecideKyc(_, _, _, _, _, _) => DecideKycWithin(t, c);
    case ChangeStatus(_, _, _, _, _, _) => ChangeStatusWithin(t, c);
    case UpdateProfile(_, _, _, _) => UpdateProfileWithin(t, c);
    case RefreshAccessToken(_, _, _, _, _) => RefreshWithin(t, c);
    case Logout(_, _, _) => LogoutWithin(t, c);
  }
}

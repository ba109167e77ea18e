/** What the role audit table alone tells: who holds which role, what is
    pending, and that a KYC role was never handed out without a decision. */
module RoleAudit {
  import opened Domain
  import opened IdentityStore
  import opened Footprint

  datatype Standing = Standing(role: Role, pending: Option<Role>)

  /** The four things a row can record. A request and a refusal have the same
      columns; only the standing at that point tells them apart. */
  datatype Kind = Request | Refusal | Approval | Direct | Blank

  /** The roles that only a decision can give. */
  predicate Gated(role: Role) {
    role == Driver || role == Merchant
  }

  /** Registered accounts start as plain users, migrated ones as they came. */
  function OriginRole(base: map<UserId, Account>, u: UserId): Role {
    if u in base then base[u].role else User
  }

  function KindOf(st: Standing, row: RoleChange): Kind {
    match row.granted
    case Some(role) => if row.requested == Some(role) then Approval else Direct
    case None =>
      if row.requested.None? then Blank
      else if st.pending == row.requested then Refusal
      else Request
  }

  function Settled(st: Standing, row: RoleChange): Standing {
    match KindOf(st, row)
    case Request => Standing(st.role, row.requested)
    case Refusal => Standing(st.role, None)
    case Approval => Standing(row.granted.value, None)
    case Direct => Standing(row.granted.value, None)
    case Blank => st
  }

  /** Replays the rows of `u` over its original role. */
  function Replay(base: map<UserId, Account>, log: seq<RoleChange>, u: UserId): Standing {
    if log == [] then Standing(OriginRole(base, u), None)
    else
      var st := Replay(base, log[..|log| - 1], u);
      if log[|log| - 1].user == u then Settled(st, log[|log| - 1]) else st
  }

  /** Index of the last row of `u`, or -1. */
  function LastOf(log: seq<RoleChange>, u: UserId): (j: int)
    ensures -1 <= j < |log|
    ensures j >= 0 ==> log[j].user == u
    ensures forall i :: j < i < |log| ==> log[i].user != u
  {
    if log == [] then -1
    else if log[|log| - 1].user == u then |log| - 1
    else LastOf(log[..|log| - 1], u)
  }

  /** The latest row of `u` is the request row for `role`. */
  ghost predicate Opened(base: map<UserId, Account>, log: seq<RoleChange>, u: UserId, role: Role) {
    var j := LastOf(log, u);
    && j >= 0
    && log[j].requested == Some(role)
    && KindOf(Replay(base, log[..j], u), log[j]).Request?
  }

  /** What a row must look like after the rows of `before`. */
  ghost predicate RowFits(base: map<UserId, Account>, before: seq<RoleChange>, row: RoleChange) {
    var st := Replay(base, before, row.user);
    && row.before == st.role
    && match KindOf(st, row)
       case Request => Gated(row.requested.value) && row.requested.value != st.role
       case Refusal => Opened(base, before, row.user, row.requested.value)
       case Approval => st.pending == row.requested && Opened(base, before, row.user, row.requested.value)
       case Direct => row.requested.None? && row.granted.value != st.role && !Gated(row.granted.value)
       case Blank => false
  }

  ghost predicate Faithful(base: map<UserId, Account>, log: seq<RoleChange>) {
    log == [] ||
    (Faithful(base, log[..|log| - 1]) && RowFits(base, log[..|log| - 1], log[|log| - 1]))
  }

  ghost predicate AccountAudited(base: map<UserId, Account>, log: seq<RoleChange>, u: UserId, a: Account) {
    && Replay(base, log, u) == Standing(a.role, a.requested)
    && (a.requested.Some? ==>
          Gated(a.requested.value) && a.requested.value != a.role && Opened(base, log, u, a.requested.value))
  }

  ghost predicate Audited(base: map<UserId, Account>, db: Tables) {
    && (forall u :: u in base ==> u in db.users)
    && (forall i :: 0 <= i < |db.roleLog| ==> db.roleLog[i].user in db.users)
    && Faithful(base, db.roleLog)
    && (forall u :: u in db.users ==> AccountAudited(base, db.roleLog, u, db.users[u]))
  }

  lemma {:induction false} Silent(base: map<UserId, Account>, log: seq<RoleChange>, u: UserId)
    requires forall i :: 0 <= i < |log| ==> log[i].user != u
    ensures Replay(base, log, u) == Standing(OriginRole(base, u), None)
  {
    if log != [] {
      Silent(base, log[..|log| - 1], u);
    }
  }

  /** A row of someone else changes nothing for `u`. */
  lemma OtherRow(base: map<UserId, Account>, log: seq<RoleChange>, row: RoleChange, u: UserId, a: Account)
    requires row.user != u && AccountAudited(base, log, u, a)
    ensures AccountAudited(base, log + [row], u, a)
  {
    var more := log + [row];
    assert more[..|more| - 1] == log;
    var j := LastOf(log, u);
    assert LastOf(more, u) == j;
    if j >= 0 {
      assert more[..j] == log[..j];
    }
  }

  lemma OwnRow(base: map<UserId, Account>, log: seq<RoleChange>, row: RoleChange, a: Account)
    requires Faithful(base, log) && RowFits(base, log, row)
    requires Settled(Replay(base, log, row.user), row) == Standing(a.role, a.requested)
    ensures Faithful(base, log + [row]) && AccountAudited(base, log + [row], row.user, a)
  {
    var more := log + [row];
    assert more[..|more| - 1] == log;
    assert LastOf(more, row.user) == |log| && more[..|log|] == log;
  }

  /** Appending a fitting row and updating its account keeps the audit exact. */
  lemma Append(base: map<UserId, Account>, db: Tables, db': Tables, row: RoleChange)
    requires Audited(base, db) && row.user in db.users
    requires db'.roleLog == db.roleLog + [row]
    requires db'.users.Keys == db.users.Keys
    requires forall u :: u in db.users && u != row.user ==> db'.users[u] == db.users[u]
    requires RowFits(base, db.roleLog, row)
    requires Settled(Replay(base, db.roleLog, row.user), row)
          == Standing(db'.users[row.user].role, db'.users[row.user].requested)
    ensures Audited(base, db')
  {
    OwnRow(base, db.roleLog, row, db'.users[row.user]);
    forall u | u in db'.users
      ensures AccountAudited(base, db'.roleLog, u, db'.users[u])
    {
      if u != row.user {
        OtherRow(base, db.roleLog, row, u, db.users[u]);
      }
    }
  }

  /** Steps that write no row leave roles and requests alone. */
  ghost predicate SameRoles(db: Tables, db': Tables) {
    && db'.roleLog == db.roleLog
    && (forall u :: u in db.users ==>
          u in db'.users && db'.users[u].role == db.users[u].role && db'.users[u].requested == db.users[u].requested)
    && (forall u :: u in db'.users && u !in db.users ==> db'.users[u].role == User && db'.users[u].requested.None?)
  }

  lemma Untouched(base: map<UserId, Account>, db: Tables, db': Tables)
    requires Audited(base, db) && SameRoles(db, db')
    ensures Audited(base, db')
  {
    forall u | u in db'.users
      ensures AccountAudited(base, db'.roleLog, u, db'.users[u])
    {
      if u !in db.users {
        Silent(base, db.roleLog, u);
      } else {
        assert AccountAudited(base, db.roleLog, u, db.users[u]);
      }
    }
  }

  lemma ChangeRoleKeeps(base: map<UserId, Account>, s: Store, c: Command)
    requires Audited(base, s.db) && c.ChangeRole?
    ensures Audited(base, DoChangeRole(s, c).store.db)
  {
    var s' := DoChangeRole(s, c).store;
    if s'.db != s.db {
      var user := s.db.users[c.user];
      assert AccountAudited(base, s.db.roleLog, c.user, user);
      var row := if user.NeedsKycFor(c.role)
        then RoleChange(c.user, user.role, None, Some(c.role), c.reason, c.actor, c.now)
        else RoleChange(c.user, user.role, Some(c.role), None, c.reason, c.actor, c.now);
      Append(base, s.db, s'.db, row);
    }
  }

  lemma DecideKycKeeps(base: map<UserId, Account>, s: Store, c: Command)
    requires Audited(base, s.db) && c.DecideKyc?
    ensures Audited(base, DoDecideKyc(s, c).store.db)
  {
    var s' := DoDecideKyc(s, c).store;
    if s'.db != s.db {
      var user := s.db.users[c.user];
      assert AccountAudited(base, s.db.roleLog, c.user, user);
      Append(base, s.db, s'.db, DecisionRow(c.user, user, c.approved, c.reason, c.actor, c.now));
    }
  }

  lemma KeptRoles(s: Store, s': Store, c: Command)
    requires Within(s, s', c) && !WritesRoles(c)
    ensures SameRoles(s.db, s'.db)
  {
  }

  lemma StepKeeps(base: map<UserId, Account>, s: Store, c: Command)
    requires Audited(base, s.db) && Admissible(s, c)
    ensures Audited(base, Step(s, c).store.db)
  {
    var t := s.(clock := c.now);
    if c.ChangeRole? {
      ChangeRoleKeeps(base, t, c);
    } else if c.DecideKyc? {
      DecideKycKeeps(base, t, c);
    } else {
      StepWithin(s, c);
      KeptRoles(t, Do(t, c).store, c);
      Untouched(base, s.db, Do(t, c).store.db);
    }
  }

  /** In every run the audit table determines every account exactly. */
  lemma {:induction false} AuditDeterminesAccounts(s0: Store, run: seq<Command>)
    requires Genesis(s0) && ValidRun(s0, run)
    ensures Audited(s0.db.users, Exec(s0, run).db)
  {
    if run != [] {
      AuditDeterminesAccounts(s0, run[..|run| - 1]);
      StepKeeps(s0.db.users, Exec(s0, run[..|run| - 1]), run[|run| - 1]);
    }
  }

  lemma {:induction false} FitsAt(base: map<UserId, Account>, log: seq<RoleChange>, i: nat)
    requires Faithful(base, log) && i < |log|
    ensures RowFits(base, log[..i], log[i])
  {
    if i < |log| - 1 {
      FitsAt(base, log[..|log| - 1], i);
      assert log[..|log| - 1][..i] == log[..i];
    }
  }

  /** Row by row: `before` is the role held at that point, and every approval
      or refusal directly follows, among the user's rows, the request for that
      very role. */
  lemma EveryRowFits(s0: Store, run: seq<Command>, i: nat)
    requires Genesis(s0) && ValidRun(s0, run) && i < |Exec(s0, run).db.roleLog|
    ensures var base, log := s0.db.users, Exec(s0, run).db.roleLog;
            var st := Replay(base, log[..i], log[i].user);
            && log[i].before == st.role
            && (KindOf(st, log[i]) in {Approval, Refusal} ==>
                  var j := LastOf(log[..i], log[i].user);
                  && 0 <= j < i && log[j].user == log[i].user
                  && log[j].requested == log[i].requested
                  && KindOf(Replay(base, log[..j], log[j].user), log[j]) == Request)
            && (KindOf(st, log[i]) == Request ==>
                  && (log[i].requested == Some(Driver) || log[i].requested == Some(Merchant))
                  && log[i].requested != Some(st.role))
            && (KindOf(st, log[i]) == Direct ==> log[i].granted == Some(User) || log[i].granted == Some(Admin))
  {
    AuditDeterminesAccounts(s0, run);
    var base, log := s0.db.users, Exec(s0, run).db.roleLog;
    FitsAt(base, log, i);
    var j := LastOf(log[..i], log[i].user);
    if j >= 0 {
      assert log[..i][..j] == log[..j];
    }
  }

  ghost predicate ApprovedAt(base: map<UserId, Account>, log: seq<RoleChange>, u: UserId, role: Role, i: nat) {
    && i < |log| && log[i].user == u && log[i].granted == Some(role)
    && KindOf(Replay(base, log[..i], u), log[i]) == Approval
    && forall k :: i < k < |log| && log[k].user == u ==> log[k].granted.None?
  }

  lemma {:induction false} ApprovalFound(base: map<UserId, Account>, log: seq<RoleChange>, u: UserId) returns (i: nat)
    requires Faithful(base, log) && !Gated(OriginRole(base, u)) && Gated(Replay(base, log, u).role)
    ensures ApprovedAt(base, log, u, Replay(base, log, u).role, i)
  {
    var before, row := log[..|log| - 1], log[|log| - 1];
    if row.user == u && row.granted.Some? {
      i := |log| - 1;
    } else {
      i := ApprovalFound(base, before, u);
      assert before[..i] == log[..i];
    }
  }

  /** Nobody who did not arrive with it drives or sells without an approval row
      that is also the last row that granted that account anything. */
  lemma KycGate(s0: Store, run: seq<Command>, u: UserId)
    requires Genesis(s0) && ValidRun(s0, run) && u in Exec(s0, run).db.users
    requires OriginRole(s0.db.users, u) != Driver && OriginRole(s0.db.users, u) != Merchant
    requires Exec(s0, run).db.users[u].role == Driver || Exec(s0, run).db.users[u].role == Merchant
    ensures exists i: nat :: ApprovedAt(s0.db.users, Exec(s0, run).db.roleLog, u, Exec(s0, run).db.users[u].role, i)
  {
    AuditDeterminesAccounts(s0, run);
    assert AccountAudited(s0.db.users, Exec(s0, run).db.roleLog, u, Exec(s0, run).db.users[u]);
    var i := ApprovalFound(s0.db.users, Exec(s0, run).db.roleLog, u);
  }
}

/** The status audit: every account's rows form a path of allowed transitions
    that ends at its current status. */
module StatusAudit {
  import opened Domain
  import opened IdentityStore
  import opened Footprint

  function OriginStatus(base: map<UserId, Account>, u: UserId): Status {
    if u in base then base[u].status else PendingVerification
  }

  /** Where the rows of `u` lead. */
  function Walk(base: map<UserId, Account>, log: seq<StatusChange>, u: UserId): Status {
    if log == [] then OriginStatus(base, u)
    else if log[|log| - 1].user == u then log[|log| - 1].after
    else Walk(base, log[..|log| - 1], u)
  }

  /** The transition graph: nothing leads back to `pending_verification`, and
      `pending_kyc` is reached from nowhere else. */
  predicate Edge(before: Status, after: Status) {
    && before != after && after != PendingVerification
    && (after == PendingKyc ==> before == PendingVerification)
  }

  lemma EdgeIff(before: Status, after: Status)
    ensures CanTransition(before, after) <==> Edge(before, after)
  {
  }

  /** Every row starts where the previous one of that user ended and follows
      the transition table. */
  ghost predicate IsPath(base: map<UserId, Account>, log: seq<StatusChange>) {
    log == [] ||
    var before, row := log[..|log| - 1], log[|log| - 1];
    && IsPath(base, before)
    && row.before == Walk(base, before, row.user)
    && Edge(row.before, row.after)
  }

  function Entries(log: seq<StatusChange>, u: UserId, status: Status): nat {
    if log == [] then 0
    else
      var row := log[|log| - 1];
      Entries(log[..|log| - 1], u, status) + if row.user == u && row.after == status then 1 else 0
  }

  ghost predicate Audited(base: map<UserId, Account>, db: Tables) {
    && (forall u :: u in base ==> u in db.users)
    && (forall i :: 0 <= i < |db.statusLog| ==> db.statusLog[i].user in db.users)
    && IsPath(base, db.statusLog)
    && (forall u :: u in db.users ==> Walk(base, db.statusLog, u) == db.users[u].status)
  }

  lemma {:induction false} Silent(base: map<UserId, Account>, log: seq<StatusChange>, u: UserId)
    requires forall i :: 0 <= i < |log| ==> log[i].user != u
    ensures Walk(base, log, u) == OriginStatus(base, u)
  {
    if log != [] {
      Silent(base, log[..|log| - 1], u);
    }
  }

  ghost predicate SameStatuses(db: Tables, db': Tables) {
    && db'.statusLog == db.statusLog
    && (forall u :: u in db.users ==> u in db'.users && db'.users[u].status == db.users[u].status)
    && (forall u :: u in db'.users && u !in db.users ==> db'.users[u].status == PendingVerification)
  }

  /** Exactly one account moves, and the last row says how. */
  ghost predicate OneMoves(db: Tables, db': Tables) {
    && db'.statusLog != []
    && var row := db'.statusLog[|db'.statusLog| - 1];
    && db'.statusLog == db.statusLog + [row]
    && row.user in db.users && db'.users.Keys == db.users.Keys
    && row.before == db.users[row.user].status && row.after == db'.users[row.user].status
    && Edge(row.before, row.after)
    && (forall u :: u in db.users && u != row.user ==> db'.users[u].status == db.users[u].status)
  }

  lemma Untouched(base: map<UserId, Account>, db: Tables, db': Tables)
    requires Audited(base, db) && SameStatuses(db, db')
    ensures Audited(base, db')
  {
    forall u | u in db'.users
      ensures Walk(base, db'.statusLog, u) == db'.users[u].status
    {
      if u !in db.users {
        Silent(base, db.statusLog, u);
      }
    }
  }

  lemma Append(base: map<UserId, Account>, db: Tables, db': Tables)
    requires Audited(base, db) && OneMoves(db, db')
    ensures Audited(base, db')
  {
    assert db'.statusLog[..|db'.statusLog| - 1] == db.statusLog;
  }

  lemma Entered(db: Tables, db': Tables, u: UserId, a: Account, now: Time, row: StatusChange)
    requires u in db.users && row.user == u && db'.users == Saved(db.users, u, a, now)
             && db'.statusLog == db.statusLog + [row]
    requires row.before == db.users[u].status && row.after == a.status && Edge(row.before, row.after)
    ensures OneMoves(db, db')
  {
  }

  lemma VerifyFrame(s: Store, c: Command)
    requires c.VerifyOtp?
    ensures SameStatuses(s.db, DoVerifyOtp(s, c).store.db) || OneMoves(s.db, DoVerifyOtp(s, c).store.db)
  {
    VerifyCases(s, c);
    var r := DoVerifyOtp(s, c).response;
    if r.LoggedIn? && s.db.users[r.claims.sub].status.PendingVerification? {
      var u, a := r.claims.sub, Verified(s.db.users[r.claims.sub]);
      Entered(s.db, Admitted(s, c, u).db, u, a, c.now,
          StatusChange(u, PendingVerification, a.status, OTP_REASON, None, c.now));
    }
  }

  lemma ChangeStatusFrame(s: Store, c: Command)
    requires c.ChangeStatus?
    ensures SameStatuses(s.db, DoChangeStatus(s, c).store.db) || OneMoves(s.db, DoChangeStatus(s, c).store.db)
  {
    var s' := DoChangeStatus(s, c).store;
    if s' != s {
      var user := s.db.users[c.user];
      Entered(s.db, s'.db, c.user, user.(status := c.status), c.now,
              StatusChange(c.user, user.status, c.status, c.reason, c.admin, c.now));
    }
  }

  lemma DecideKycFrame(s: Store, c: Command)
    requires c.DecideKyc?
    ensures SameStatuses(s.db, DoDecideKyc(s, c).store.db) || OneMoves(s.db, DoDecideKyc(s, c).store.db)
  {
    var s' := DoDecideKyc(s, c).store;
    if s' != s {
      var user := s.db.users[c.user];
      assert s'.db.users == Saved(s.db.users, c.user, Decided(user, c.approved), c.now);
      if user.status.PendingKyc? {
        Entered(s.db, s'.db, c.user, Decided(user, c.approved), c.now,
                StatusChange(c.user, PendingKyc, Active, KycReason(c.reason, c.approved), c.actor, c.now));
      } else {
        assert s'.db.statusLog == s.db.statusLog;
      }
    }
  }

  lemma KeptStatuses(s: Store, s': Store, c: Command)
    requires Within(s, s', c) && !WritesStatuses(c)
    ensures SameStatuses(s.db, s'.db)
  {
  }

  lemma StepFrame(s: Store, c: Command)
    requires Admissible(s, c)
    ensures SameStatuses(s.db, Step(s, c).store.db) || OneMoves(s.db, Step(s, c).store.db)
  {
    var t := s.(clock := c.now);
    if c.VerifyOtp? {
      VerifyFrame(t, c);
    } else if c.ChangeStatus? {
      ChangeStatusFrame(t, c);
    } else if c.DecideKyc? {
      DecideKycFrame(t, c);
    } else {
      StepWithin(s, c);
      KeptStatuses(t, Do(t, c).store, c);
    }
  }

  lemma StepKeeps(base: map<UserId, Account>, s: Store, c: Command)
    requires Audited(base, s.db) && Admissible(s, c)
    ensures Audited(base, Step(s, c).store.db)
  {
    StepFrame(s, c);
    if SameStatuses(s.db, Step(s, c).store.db) {
      Untouched(base, s.db, Step(s, c).store.db);
    } else {
      Append(base, s.db, Step(s, c).store.db);
    }
  }

  lemma {:induction false} AlwaysAudited(s0: Store, run: seq<Command>)
    requires Genesis(s0) && ValidRun(s0, run)
    ensures Audited(s0.db.users, Exec(s0, run).db)
  {
    if run != [] {
      AlwaysAudited(s0, run[..|run| - 1]);
      StepKeeps(s0.db.users, Exec(s0, run[..|run| - 1]), run[|run| - 1]);
    }
  }

  /** In every run, the rows of each account are a complete path from its
      origin to its current status in the transition graph. */
  lemma AuditIsAPath(s0: Store, run: seq<Command>, i: nat, u: UserId)
    requires Genesis(s0) && ValidRun(s0, run)
    ensures var base, log := s0.db.users, Exec(s0, run).db.statusLog;
            && (i < |log| ==>
                log[i].before == Walk(base, log[..i], log[i].user) && Edge(log[i].before, log[i].after))
            && (u in Exec(s0, run).db.users ==> Walk(base, log, u) == Exec(s0, run).db.users[u].status)
  {
    AlwaysAudited(s0, run);
    if i < |Exec(s0, run).db.statusLog| { PathAt(s0.db.users, Exec(s0, run).db.statusLog, i); }
  }

  lemma {:induction false} PathAt(base: map<UserId, Account>, log: seq<StatusChange>, i: nat)
    requires IsPath(base, log) && i < |log|
    ensures log[i].before == Walk(base, log[..i], log[i].user) && Edge(log[i].before, log[i].after)
  {
    if i < |log| - 1 {
      PathAt(base, log[..|log| - 1], i);
      assert log[..|log| - 1][..i] == log[..i];
    }
  }

  lemma {:induction false} PathFacts(base: map<UserId, Account>, log: seq<StatusChange>, u: UserId)
    requires IsPath(base, log)
    ensures Entries(log, u, PendingVerification) == 0
    ensures Entries(log, u, PendingKyc) <= 1
    ensures Walk(base, log, u) == PendingVerification ==> Entries(log, u, PendingKyc) == 0
  {
    if log != [] {
      PathFacts(base, log[..|log| - 1], u);
    }
  }

  /** `pending_verification` is never entered again and `pending_kyc` is
      entered at most once, over any run. */
  lemma EnteredOnce(s0: Store, run: seq<Command>, u: UserId)
    requires Genesis(s0) && ValidRun(s0, run)
    ensures Entries(Exec(s0, run).db.statusLog, u, PendingVerification) == 0
    ensures Entries(Exec(s0, run).db.statusLog, u, PendingKyc) <= 1
  {
    AlwaysAudited(s0, run);
    PathFacts(s0.db.users, Exec(s0, run).db.statusLog, u);
  }

  lemma StaysVerified(db: Tables, db': Tables, u: UserId)
    requires SameStatuses(db, db') || OneMoves(db, db')
    requires u in db.users && !db.users[u].status.PendingVerification?
    ensures u in db'.users && !db'.users[u].status.PendingVerification?
  {
  }

  /** Once verified, an account stays verified in every continuation. */
  lemma {:induction false} VerifiedForever(s: Store, run: seq<Command>, u: UserId)
    requires ValidRun(s, run) && u in s.db.users && !s.db.users[u].status.PendingVerification?
    ensures u in Exec(s, run).db.users && !Exec(s, run).db.users[u].status.PendingVerification?
  {
    if run != [] {
      var before, c := Exec(s, run[..|run| - 1]), run[|run| - 1];
      VerifiedForever(s, run[..|run| - 1], u);
      StepFrame(before, c);
      StaysVerified(before.db, Step(before, c).store.db, u);
    }
  }
}

/** The one-shot migration of the older user table: one pass over the source
    rows, checking each against the target as it then stands. */
module Migration {
  import opened Domain
  import opened IdentityStore

  type Users = map<UserId, Account>

  datatype SourceRow = SourceRow(
    id: UserId, phone: Phone, fullName: Option<string>, role: string, status: string, createdAt: Time, updatedAt: Time)

  datatype Clash = Clash(row: SourceRow, holder: UserId)

  datatype Report = Report(
    migrated: nat, existing: seq<SourceRow>, phoneTaken: seq<Clash>, unknownRole: seq<SourceRow>,
        unknownStatus: seq<SourceRow>)
  {
    predicate HasBlockingIssues() {
      unknownRole != [] || unknownStatus != [] || phoneTaken != []
    }
  }

  function MapRole(role: string): Option<Role> {
    if role == "passenger" then Some(User)
    else if role == "driver" then Some(Driver)
    else if role == "admin" then Some(Admin)
    else None
  }

  function MapStatus(status: string): Option<Status> {
    if status == "active" then Some(Active)
    else if status == "suspended" then Some(Suspended)
    else if status == "pending_verification" then Some(PendingVerification)
    else None
  }

  predicate Mappable(row: SourceRow) {
    MapRole(row.role).Some? && MapStatus(row.status).Some?
  }

  function Translated(row: SourceRow): Account
    requires Mappable(row)
  {
    Account(row.phone, row.fullName, MapRole(row.role).value, MapStatus(row.status).value, None, row.createdAt,
        row.updatedAt)
  }

  // ---------------------------------------------------------------------
  // What becomes of a row

  datatype Fate = RoleUnknown | StatusUnknown | AlreadyThere | PhoneTaken(holder: UserId) | Migrates

  ghost function Judged(users: Users, row: SourceRow): Fate {
    if MapRole(row.role).None? then RoleUnknown
    else if MapStatus(row.status).None? then StatusUnknown
    else if row.id in users then AlreadyThere
    else
      var holder := FindByPhone(users, row.phone);
      if holder.Some? then PhoneTaken(holder.value) else Migrates
  }

  ghost function Placed(users: Users, row: SourceRow): Users {
    if Judged(users, row).Migrates? then users[row.id := Translated(row)] else users
  }

  /** The target after a real run over these rows. */
  ghost function After(users: Users, rows: seq<SourceRow>): Users {
    if rows == [] then users else Placed(After(users, rows[..|rows| - 1]), rows[|rows| - 1])
  }

  function Filed(r: Report, row: SourceRow, fate: Fate): Report {
    match fate
    case RoleUnknown => r.(unknownRole := r.unknownRole + [row])
    case StatusUnknown => r.(unknownStatus := r.unknownStatus + [row])
    case AlreadyThere => r.(existing := r.existing + [row])
    case PhoneTaken(holder) => r.(phoneTaken := r.phoneTaken + [Clash(row, holder)])
    case Migrates => r.(migrated := r.migrated + 1)
  }

  /** A dry run inserts nothing, so it judges every row against the same target. */
  ghost function Reported(users: Users, rows: seq<SourceRow>, dryRun: bool): Report {
    if rows == [] then Report(0, [], [], [], [])
    else
      var init, row := rows[..|rows| - 1], rows[|rows| - 1];
      Filed(Reported(users, init, dryRun), row, Judged(if dryRun then users else After(users, init), row))
  }

  lemma PlacedUnique(users: Users, row: SourceRow)
    requires UniquePhones(users)
    ensures UniquePhones(Placed(users, row))
  {
  }

  lemma OneRowMore(users: Users, rows: seq<SourceRow>, i: nat, dryRun: bool)
    requires i < |rows|
    ensures After(users, rows[..i + 1]) == Placed(After(users, rows[..i]), rows[i])
    ensures Reported(users, rows[..i + 1], dryRun) ==
            Filed(Reported(users, rows[..i], dryRun), rows[i],
                Judged(if dryRun then users else After(users, rows[..i]), rows[i]))
  {
    assert rows[..i + 1][..i] == rows[..i];
  }

  class Target {
    /** What is committed, and what the open transaction sees. */
    var db: Users
    var tx: Users

    constructor (users: Users)
      ensures db == users && tx == users
    {
      db, tx := users, users;
    }

    method SelectByPhone(phone: Phone) returns (r: Option<UserId>)
      requires UniquePhones(tx)
      ensures r == FindByPhone(tx, phone)
    {
      if u :| u in tx && tx[u].phone == phone {
        return Some(u);
      }
      return None;
    }

    method Migrate(rows: seq<SourceRow>, dryRun: bool) returns (report: Report)
      requires tx == db && UniquePhones(db)
      modifies this
      ensures report == Reported(old(db), rows, dryRun)
      ensures db == if dryRun then old(db) else After(old(db), rows)
      ensures tx == db && UniquePhones(db)
    {
      report := Report(0, [], [], [], []);
      var i := 0;
      while i < |rows|
        invariant 0 <= i <= |rows|
        invariant db == old(db) && UniquePhones(tx)
        invariant tx == if dryRun then old(db) else After(old(db), rows[..i])
        invariant report == Reported(old(db), rows[..i], dryRun)
      {
        var row := rows[i];
        OneRowMore(old(db), rows, i, dryRun);
        PlacedUnique(tx, row);
        i := i + 1;
        var role := MapRole(row.role);
        if role.None? {
          report := report.(unknownRole := report.unknownRole + [row]);
          continue;
        }
        var status := MapStatus(row.status);
        if status.None? {
          report := report.(unknownStatus := report.unknownStatus + [row]);
          continue;
        }
        if row.id in tx {
          report := report.(existing := report.existing + [row]);
          continue;
        }
        var holder := SelectByPhone(row.phone);
        if holder.Some? {
          report := report.(phoneTaken := report.phoneTaken + [Clash(row, holder.value)]);
          continue;
        }
        if !dryRun {
          tx := tx[row.id :=
              Account(row.phone, row.fullName, role.value, status.value, None, row.createdAt, row.updatedAt)];
        }
        report := report.(migrated := report.migrated + 1);
      }
      assert rows[..|rows|] == rows;
      if dryRun { tx := db; } else { db := tx; }
    }
  }

  // ---------------------------------------------------------------------
  // What a run does to the target

  lemma {:induction false} TargetKept(users: Users, rows: seq<SourceRow>)
    requires UniquePhones(users)
    ensures var after := After(users, rows);
            users.Keys <= after.Keys && (forall u :: u in users ==> after[u] == users[u]) && UniquePhones(after)
  {
    if rows != [] {
      TargetKept(users, rows[..|rows| - 1]);
      PlacedUnique(After(users, rows[..|rows| - 1]), rows[|rows| - 1]);
    }
  }

  ghost predicate CameFrom(rows: seq<SourceRow>, u: UserId, a: Account) {
    exists i :: 0 <= i < |rows| && rows[i].id == u && Mappable(rows[i]) && a == Translated(rows[i])
  }

  lemma {:induction false} NewcomersTranslated(users: Users, rows: seq<SourceRow>)
    ensures var after := After(users, rows);
            forall u :: u in after && u !in users ==> CameFrom(rows, u, after[u])
  {
    if rows != [] {
      var init, row := rows[..|rows| - 1], rows[|rows| - 1];
      NewcomersTranslated(users, init);
      var before, after := After(users, init), After(users, rows);
      forall u | u in after && u !in users ensures CameFrom(rows, u, after[u]) {
        if u in before {
          var i :| 0 <= i < |init| && init[i].id == u && Mappable(init[i]) && before[u] == Translated(init[i]);
          assert rows[i] == init[i];
        } else {
          assert rows[|rows| - 1].id == u;
        }
      }
    }
  }

  /** An account that came in is its source row, column by column: a passenger
      becomes a plain user, every other name keeps its meaning, and nothing is
      pending. */
  lemma NewcomersMean(users: Users, rows: seq<SourceRow>, u: UserId)
    requires u in After(users, rows) && u !in users
    ensures exists i :: 0 <= i < |rows| && rows[i].id == u && SameAccount(rows[i], After(users, rows)[u])
  {
    NewcomersTranslated(users, rows);
    var i :| 0 <= i < |rows| && rows[i].id == u && Mappable(rows[i]) && After(users, rows)[u] == Translated(rows[i]);
    assert SameAccount(rows[i], After(users, rows)[u]);
  }

  predicate SameAccount(row: SourceRow, a: Account) {
    && a.phone == row.phone && a.fullName == row.fullName && a.requested == None
    && a.createdAt == row.createdAt && a.updatedAt == row.updatedAt
    && (|| (row.role == "passenger" && a.role == User) || (row.role == "driver" && a.role == Driver)
        || (row.role == "admin" && a.role == Admin))
    && (|| (row.status == "active" && a.status == Active) || (row.status == "suspended" && a.status == Suspended)
        || (row.status == "pending_verification" && a.status == PendingVerification))
  }

  lemma {:induction false} NewcomersCounted(users: Users, rows: seq<SourceRow>)
    ensures |After(users, rows)| == |users| + Reported(users, rows, false).migrated
  {
    if rows != [] { NewcomersCounted(users, rows[..|rows| - 1]); }
  }

  /** Nothing that was there changes; what is new is a source row under its own
      id, translated; there are as many as reported; no phone is shared. */
  lemma TargetOnlyGrows(users: Users, rows: seq<SourceRow>)
    requires UniquePhones(users)
    ensures var after := After(users, rows);
            && users.Keys <= after.Keys && (forall u :: u in users ==> after[u] == users[u])
            && (forall u :: u in after && u !in users ==> CameFrom(rows, u, after[u]))
            && |after| == |users| + Reported(users, rows, false).migrated
            && UniquePhones(after)
  {
    TargetKept(users, rows);
    NewcomersTranslated(users, rows);
    NewcomersCounted(users, rows);
  }

  // ---------------------------------------------------------------------
  // What the report accounts for

  function Rows(clashes: seq<Clash>): seq<SourceRow> {
    if clashes == [] then [] else Rows(clashes[..|clashes| - 1]) + [clashes[|clashes| - 1].row]
  }

  function Listed(r: Report): multiset<SourceRow> {
    multiset(r.existing) + multiset(Rows(r.phoneTaken)) + multiset(r.unknownRole) + multiset(r.unknownStatus)
  }

  lemma FiledOnce(r: Report, row: SourceRow, fate: Fate)
    ensures Listed(Filed(r, row, fate)) == Listed(r) + if fate.Migrates? then multiset{} else multiset{row}
  {
    if fate.PhoneTaken? {
      var longer := r.phoneTaken + [Clash(row, fate.holder)];
      assert longer[..|longer| - 1] == r.phoneTaken;
      assert Rows(longer) == Rows(r.phoneTaken) + [row];
    }
  }

  /** The rows a run counts as migrated. */
  ghost function Moved(users: Users, rows: seq<SourceRow>, dryRun: bool): seq<SourceRow> {
    if rows == [] then []
    else
      var init, row := rows[..|rows| - 1], rows[|rows| - 1];
      Moved(users, init, dryRun) + if Judged(if dryRun then users else After(users, init), row).Migrates? then [row]
          else []
  }

  lemma Snoc(rows: seq<SourceRow>, row: SourceRow)
    ensures multiset(rows + [row]) == multiset(rows) + multiset{row}
  {
  }

  lemma Balanced(all: multiset<SourceRow>, moved: multiset<SourceRow>, listed: multiset<SourceRow>,
                 row: multiset<SourceRow>)
    requires all == moved + listed
    ensures all + row == (moved + row) + (listed + multiset{}) && all + row == moved + (listed + row)
  {
  }

  ghost predicate Partitioned(rows: seq<SourceRow>, moved: seq<SourceRow>, report: Report) {
    multiset(rows) == multiset(moved) + Listed(report) && |moved| == report.migrated
  }

  lemma PartitionGrows(rows: seq<SourceRow>, moved: seq<SourceRow>, report: Report, row: SourceRow, fate: Fate)
    requires Partitioned(rows, moved, report)
    ensures Partitioned(rows + [row], if fate.Migrates? then moved + [row] else moved, Filed(report, row, fate))
  {
    Snoc(rows, row);
    Snoc(moved, row);
    FiledOnce(report, row, fate);
    Balanced(multiset(rows), multiset(moved), Listed(report), multiset{row});
  }

  /** Every source row lands in exactly one bucket. */
  lemma {:induction false} OneBucketEach(users: Users, rows: seq<SourceRow>, dryRun: bool)
    ensures Partitioned(rows, Moved(users, rows, dryRun), Reported(users, rows, dryRun))
  {
    if rows != [] {
      var init, row := rows[..|rows| - 1], rows[|rows| - 1];
      OneBucketEach(users, init, dryRun);
      assert rows == init + [row];
      var fate := Judged(if dryRun then users else After(users, init), row);
      PartitionGrows(init, Moved(users, init, dryRun), Reported(users, init, dryRun), row, fate);
    }
  }

  predicate KnownRole(role: string) {
    role == "passenger" || role == "driver" || role == "admin"
  }

  predicate KnownStatus(status: string) {
    status == "active" || status == "suspended" || status == "pending_verification"
  }

  /** What it means to be listed: exactly the untranslatable rows under each
      heading, and otherwise an id or a phone that the target does hold. */
  ghost predicate Meant(users: Users, rows: seq<SourceRow>, r: Report) {
    && (forall row :: row in r.unknownRole <==> row in rows && !KnownRole(row.role))
    && (forall row :: row in r.unknownStatus <==> row in rows && KnownRole(row.role) && !KnownStatus(row.status))
    && (forall row :: row in r.existing ==> Mappable(row) && row.id in users)
    && (forall c :: c in r.phoneTaken ==> Mappable(c.row) && c.holder in users && users[c.holder].phone == c.row.phone)
  }

  lemma FiledMeant(users: Users, rows: seq<SourceRow>, r: Report, users': Users, row: SourceRow)
    requires Meant(users, rows, r)
    requires users.Keys <= users'.Keys && forall u :: u in users ==> users'[u] == users[u]
    ensures Meant(users', rows + [row], Filed(r, row, Judged(users, row)))
  {
    assert forall other :: other in rows + [row] <==> other in rows || other == row;
  }

  lemma {:induction false} ReportIsTruthful(users: Users, rows: seq<SourceRow>, dryRun: bool)
    ensures Meant(if dryRun then users else After(users, rows), rows, Reported(users, rows, dryRun))
  {
    if rows != [] {
      var init, row := rows[..|rows| - 1], rows[|rows| - 1];
      ReportIsTruthful(users, init, dryRun);
      assert rows == init + [row];
      var before := if dryRun then users else After(users, init);
      FiledMeant(before, init, Reported(users, init, dryRun), if dryRun then users else Placed(before, row), row);
    }
  }

  // ---------------------------------------------------------------------
  // Running it again

  lemma SamePhoneHolder(users: Users, users': Users, phone: Phone)
    requires UniquePhones(users') && users.Keys <= users'.Keys && (forall u :: u in users ==> users'[u] == users[u])
    requires FindByPhone(users, phone).Some?
    ensures FindByPhone(users', phone) == FindByPhone(users, phone)
  {
    var u := FindByPhone(users, phone).value;
    assert users'[u].phone == phone;
    var v := FindByPhone(users', phone);
    if v.Some? { assert users'[v.value].phone == users'[u].phone; }
  }

  /** A row that was looked at once never migrates from then on. */
  lemma {:induction false} NoneLeft(users: Users, rows: seq<SourceRow>, i: nat)
    requires UniquePhones(users) && i < |rows|
    ensures !Judged(After(users, rows), rows[i]).Migrates?
  {
    var init := rows[..|rows| - 1];
    TargetKept(users, init);
    PlacedUnique(After(users, init), rows[|rows| - 1]);
    if i < |init| {
      NoneLeft(users, init, i);
      StillRefused(After(users, init), After(users, rows), rows[i]);
    } else {
      var before := After(users, init);
      if Judged(before, rows[i]).PhoneTaken? { StillRefused(before, After(users, rows), rows[i]); }
    }
  }

  lemma StillRefused(users: Users, users': Users, row: SourceRow)
    requires UniquePhones(users') && users.Keys <= users'.Keys && (forall u :: u in users ==> users'[u] == users[u])
    requires !Judged(users, row).Migrates?
    ensures !Judged(users', row).Migrates?
    ensures row.id !in users' ==> Judged(users', row) == Judged(users, row)
  {
    if FindByPhone(users, row.phone).Some? { SamePhoneHolder(users, users', row.phone); }
  }

  lemma {:induction false} NothingToMove(users: Users, rows: seq<SourceRow>, dryRun: bool)
    requires forall i :: 0 <= i < |rows| ==> !Judged(users, rows[i]).Migrates?
    ensures After(users, rows) == users && Reported(users, rows, dryRun).migrated == 0
  {
    if rows != [] {
      assert forall i :: 0 <= i < |rows| - 1 ==> rows[..|rows| - 1][i] == rows[i];
      NothingToMove(users, rows[..|rows| - 1], dryRun);
    }
  }

  /** A second run over the same source migrates nothing and changes nothing. */
  lemma SecondRunIsIdle(users: Users, rows: seq<SourceRow>, dryRun: bool)
    requires UniquePhones(users)
    ensures var after := After(users, rows);
            After(after, rows) == after && Reported(after, rows, dryRun).migrated == 0
  {
    forall i | 0 <= i < |rows| ensures !Judged(After(users, rows), rows[i]).Migrates? {
      NoneLeft(users, rows, i);
    }
    NothingToMove(After(users, rows), rows, dryRun);
  }

  // ---------------------------------------------------------------------
  // What a dry run foretells

  /** A row that would migrate if it were the only one. */
  ghost predicate WouldMigrate(users: Users, row: SourceRow) {
    Judged(users, row).Migrates?
  }

  predicate Fresh(users: Users, row: SourceRow) {
    Mappable(row) && row.id !in users
  }

  predicate Collide(a: SourceRow, b: SourceRow) {
    a.id == b.id || a.phone == b.phone
  }

  /** No mappable row new to the target repeats the id or the phone of an
      earlier row that is free to migrate. */
  ghost predicate NoCollision(users: Users, rows: seq<SourceRow>) {
    forall i, j :: 0 <= i < j < |rows| && WouldMigrate(users, rows[i]) && Fresh(users, rows[j]) ==>
        !Collide(rows[i], rows[j])
  }

  ghost predicate SameFates(users: Users, rows: seq<SourceRow>) {
    rows == [] ||
    (SameFates(users, rows[..|rows| - 1])
        && Judged(users, rows[|rows| - 1]) == Judged(After(users, rows[..|rows| - 1]), rows[|rows| - 1]))
  }

  lemma {:induction false} SameFatesSameReport(users: Users, rows: seq<SourceRow>)
    requires SameFates(users, rows)
    ensures Reported(users, rows, true) == Reported(users, rows, false)
  {
    if rows != [] { SameFatesSameReport(users, rows[..|rows| - 1]); }
  }

  /** How a row's real fate can differ from the one foretold. */
  lemma Worse(users: Users, rows: seq<SourceRow>, row: SourceRow)
    requires UniquePhones(users)
    ensures var dry, actual := Judged(users, row), Judged(After(users, rows), row);
            dry == actual || (dry.Migrates? && !actual.Migrates?) || (dry.PhoneTaken? && actual.AlreadyThere?)
  {
    TargetKept(users, rows);
    if FindByPhone(users, row.phone).Some? { SamePhoneHolder(users, After(users, rows), row.phone); }
  }

  /** A fate that differs leaves a count behind for good. */
  lemma {:induction false} RealLagsBehind(users: Users, rows: seq<SourceRow>)
    requires UniquePhones(users)
    ensures var dry, actual := Reported(users, rows, true), Reported(users, rows, false);
            && actual.migrated <= dry.migrated
            && (actual.migrated == dry.migrated ==> |actual.phoneTaken| <= |dry.phoneTaken|)
            && (actual.migrated == dry.migrated && |actual.phoneTaken| == |dry.phoneTaken| ==> SameFates(users, rows))
  {
    if rows != [] {
      RealLagsBehind(users, rows[..|rows| - 1]);
      Worse(users, rows[..|rows| - 1], rows[|rows| - 1]);
    }
  }

  lemma {:induction false} MovedIn(users: Users, rows: seq<SourceRow>, i: nat)
    requires UniquePhones(users) && SameFates(users, rows) && i < |rows| && WouldMigrate(users, rows[i])
    ensures rows[i].id in After(users, rows) && After(users, rows)[rows[i].id] == Translated(rows[i])
  {
    var init := rows[..|rows| - 1];
    if i < |init| { MovedIn(users, init, i); }
  }

  lemma {:induction false} MovedFrom(users: Users, rows: seq<SourceRow>, u: UserId) returns (i: nat)
    requires SameFates(users, rows) && u in After(users, rows) && u !in users
    ensures i < |rows| && WouldMigrate(users, rows[i]) && rows[i].id == u
            && After(users, rows)[u] == Translated(rows[i])
  {
    var init := rows[..|rows| - 1];
    if u in After(users, init) {
      i := MovedFrom(users, init, u);
    } else {
      i := |init|;
    }
  }

  lemma CollisionShows(users: Users, init: seq<SourceRow>, row: SourceRow, i: nat)
    requires UniquePhones(users) && SameFates(users, init) && i < |init|
    requires WouldMigrate(users, init[i]) && Fresh(users, row) && Collide(init[i], row)
    ensures Judged(users, row) != Judged(After(users, init), row)
  {
    MovedIn(users, init, i);
    assert After(users, init)[init[i].id].phone == init[i].phone;
  }

  lemma DifferenceIsCollision(users: Users, init: seq<SourceRow>, row: SourceRow) returns (i: nat)
    requires UniquePhones(users) && SameFates(users, init)
    requires Judged(users, row) != Judged(After(users, init), row)
    ensures i < |init| && WouldMigrate(users, init[i]) && Fresh(users, row) && Collide(init[i], row)
  {
    TargetKept(users, init);
    var after := After(users, init);
    if row.id in after {
      i := MovedFrom(users, init, row.id);
    } else {
      if FindByPhone(users, row.phone).Some? { SamePhoneHolder(users, after, row.phone); }
      i := MovedFrom(users, init, FindByPhone(after, row.phone).value);
    }
  }

  lemma {:induction false} SameFatesIff(users: Users, rows: seq<SourceRow>)
    requires UniquePhones(users)
    ensures SameFates(users, rows) <==> NoCollision(users, rows)
  {
    if rows != [] {
      var init, n := rows[..|rows| - 1], |rows| - 1;
      SameFatesIff(users, init);
      assert forall i :: 0 <= i < n ==> init[i] == rows[i];
      if SameFates(users, init) {
        if Judged(users, rows[n]) != Judged(After(users, init), rows[n]) {
          var i := DifferenceIsCollision(users, init, rows[n]);
          assert Collide(rows[i], rows[n]);
        } else {
          forall i | 0 <= i < n && WouldMigrate(users, rows[i]) && Fresh(users, rows[n])
            ensures !Collide(rows[i], rows[n]) {
            if Collide(rows[i], rows[n]) { CollisionShows(users, init, rows[n], i); }
          }
        }
      }
    }
  }

  /** Exactly when the dry run's report is the real run's. */
  lemma DryRunIff(users: Users, rows: seq<SourceRow>)
    requires UniquePhones(users)
    ensures Reported(users, rows, true) == Reported(users, rows, false) <==> NoCollision(users, rows)
  {
    SameFatesIff(users, rows);
    RealLagsBehind(users, rows);
    if SameFates(users, rows) { SameFatesSameReport(users, rows); }
  }

  lemma DistinctRowsForetold(users: Users, rows: seq<SourceRow>)
    requires UniquePhones(users)
    requires forall i, j :: 0 <= i < j < |rows| ==> !Collide(rows[i], rows[j])
    ensures Reported(users, rows, true) == Reported(users, rows, false)
  {
    DryRunIff(users, rows);
  }

  // ---------------------------------------------------------------------
  // After the migration

  lemma LandsIff(users: Users, row: SourceRow)
    ensures var fate := Judged(users, row);
            fate.AlreadyThere? || fate.Migrates? <==>
            KnownRole(row.role) && KnownStatus(row.status) && row.id in Placed(users, row)
  {
  }

  ghost predicate AllLanded(rows: seq<SourceRow>, after: Users) {
    forall i :: 0 <= i < |rows| ==> KnownRole(rows[i].role) && KnownStatus(rows[i].status) && rows[i].id in after
  }

  lemma OneMoreLanded(users: Users, init: seq<SourceRow>, row: SourceRow)
    requires forall i :: 0 <= i < |init| ==> init[i].id != row.id
    ensures AllLanded(init + [row], Placed(users, row)) <==>
            AllLanded(init, users) && KnownRole(row.role) && KnownStatus(row.status) && row.id in Placed(users, row)
  {
    var rows, after := init + [row], Placed(users, row);
    if AllLanded(rows, after) {
      forall i | 0 <= i < |init| ensures KnownRole(init[i].role) && KnownStatus(init[i].status) && init[i].id in users {
        assert rows[i] == init[i];
      }
      assert rows[|init|] == row;
    }
  }

  /** The command exits cleanly exactly when every source account has a known
      role and status and is in the target under its own id. */
  lemma {:induction false} NoIssuesIff(users: Users, rows: seq<SourceRow>)
    requires forall a, b :: 0 <= a < b < |rows| ==> rows[a].id != rows[b].id
    ensures !Reported(users, rows, false).HasBlockingIssues() <==> AllLanded(rows, After(users, rows))
  {
    if rows != [] {
      var init, row := rows[..|rows| - 1], rows[|rows| - 1];
      NoIssuesIff(users, init);
      LandsIff(After(users, init), row);
      OneMoreLanded(After(users, init), init, row);
      assert init + [row] == rows;
    }
  }

  /** Migrated accounts are a state the identity service can start from. */
  lemma MigratedIsGenesis(users: Users, rows: seq<SourceRow>, s: Store)
    requires Genesis(s) && s.db.users == users
    ensures Genesis(s.(db := s.db.(users := After(users, rows))))
  {
    TargetOnlyGrows(users, rows);
    var after := After(users, rows);
    forall u | u in after ensures after[u].requested.None? && !after[u].status.PendingKyc? {
      if u !in users { assert CameFrom(rows, u, after[u]); }
    }
  }
}

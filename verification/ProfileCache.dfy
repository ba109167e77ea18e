/** The read-through profile cache: what a hit can still be worth, with readers,
    writers and cache failures interleaved. */
module ProfileCache {
  import opened Domain
  import opened IdentityStore
  import opened Footprint

  const PROFILE_TTL_SECONDS: nat := 300

  /** What an entry holds: every published field but the pending request. */
  datatype Stored = Stored(
    phone: Phone, fullName: Option<string>, role: Role, status: Status, createdAt: Time, updatedAt: Time)

  function StoredOf(a: Account): Stored {
    Stored(a.phone, a.fullName, a.role, a.status, a.createdAt, a.updatedAt)
  }

  function Loaded(s: Stored): Account {
    Account(s.phone, s.fullName, s.role, s.status, None, s.createdAt, s.updatedAt)
  }

  /** A profile served from the cache is the row's profile exactly when nothing
      is pending: the entry does not carry the request. */
  lemma CachedProfileIff(id: UserId, a: Account)
    ensures ProfileOf(id, Loaded(StoredOf(a))) == ProfileOf(id, a) <==> a.requested.None?
    ensures ClaimsOf(id, Loaded(StoredOf(a))) == ClaimsOf(id, a)
  {
  }

  // ---------------------------------------------------------------------
  // One key, and the three operations on it

  datatype CacheKey = CacheKey(stored: Stored, expiresAt: Time)

  /** None on a miss, on an expired key and while Redis is down. */
  function Got(k: Option<CacheKey>, now: Time, up: bool): Option<Account> {
    if up && k.Some? && now < k.value.expiresAt then Some(Loaded(k.value.stored)) else None
  }

  function Put(k: Option<CacheKey>, user: Account, ttl: nat, now: Time, up: bool): Option<CacheKey> {
    if up then Some(CacheKey(StoredOf(user), now + ttl)) else k
  }

  function Deleted(k: Option<CacheKey>, up: bool): Option<CacheKey> {
    if up then None else k
  }

  // ---------------------------------------------------------------------
  // The cache object and the query that fills it

  class RedisProfileCache {
    var entries: map<UserId, CacheKey>
    const ttl: nat

    function Key(id: UserId): Option<CacheKey>
      reads this
    {
      if id in entries then Some(entries[id]) else None
    }

    /** Every other key is as it was. */
    twostate predicate OnlyKey(id: UserId)
      reads this
    {
      forall other :: other != id ==> Key(other) == old(Key(other))
    }

    constructor (ttl: nat)
      ensures entries == map[] && this.ttl == ttl
    {
      this.ttl := ttl;
      entries := map[];
    }

    method GetUser(id: UserId, now: Time, up: bool) returns (r: Option<Account>)
      ensures r == Got(Key(id), now, up)
    {
      if !up || id !in entries || entries[id].expiresAt <= now {
        return None;
      }
      var data := entries[id].stored;
      return Some(Account(data.phone, data.fullName, data.role, data.status, None, data.createdAt, data.updatedAt));
    }

    method SetUser(id: UserId, user: Account, now: Time, up: bool)
      modifies this`entries
      ensures Key(id) == Put(old(Key(id)), user, ttl, now, up) && OnlyKey(id)
    {
      if up {
        entries := entries[id := CacheKey(StoredOf(user), now + ttl)];
      }
    }

    method InvalidateUser(id: UserId, up: bool)
      modifies this`entries
      ensures Key(id) == Deleted(old(Key(id)), up) && OnlyKey(id)
    {
      if up {
        entries := entries - {id};
      }
    }

    /** A hit answers from the entry; a miss reads the row and fills. */
    method GetUserById(users: map<UserId, Account>, id: UserId, now: Time, getUp: bool, setUp: bool)
      returns (r: Response)
      modifies this`entries
      ensures var hit := Got(old(Key(id)), now, getUp);
              if hit.Some? then entries == old(entries) && r == Answer(ProfileOf(id, hit.value))
              else if id !in users then entries == old(entries) && r == Failed(UserNotFound)
              else
                && r == Answer(ProfileOf(id, users[id]))
                && Key(id) == Put(old(Key(id)), users[id], ttl, now, setUp) && OnlyKey(id)
    {
      var cached := GetUser(id, now, getUp);
      if cached.Some? {
        return Answer(ProfileOf(id, cached.value));
      }
      if id !in users {
        return Failed(UserNotFound);
      }
      SetUser(id, users[id], now, setUp);
      return Answer(ProfileOf(id, users[id]));
    }
  }

  // ---------------------------------------------------------------------
  // Writers drop what they change

  ghost predicate DropsWhatItWrites(s: Store, s': Store) {
    && s.drops <= s'.drops
    && forall u :: u in s.db.users ==>
         u in s'.db.users && (s'.db.users[u] == s.db.users[u] || u in s'.drops[|s.drops|..])
  }

  /** Every write path invalidates the profile it changed. */
  lemma EveryWriteInvalidates(s: Store, c: Command)
    requires Admissible(s, c)
    ensures DropsWhatItWrites(s, Step(s, c).store)
  {
    StepWithin(s, c);
    DroppedRows(s.(clock := c.now), Step(s, c).store, c);
  }

  lemma DroppedRows(s: Store, s': Store, c: Command)
    requires Within(s, s', c)
    ensures DropsWhatItWrites(s, s')
  {
    forall u | u in s.db.users
      ensures u in s'.db.users && (s'.db.users[u] == s.db.users[u] || u in s'.drops[|s.drops|..])
    {
      assert u in s'.db.users && RowKept(c, s.db.users[u], s'.db.users[u]);
    }
  }

  // ---------------------------------------------------------------------
  // The key of account `u` beside a running service

  /** A reader between its read of the row and its write of the entry. */
  datatype Read = Read(row: Account, version: nat, at: Time)

  /** `version` counts the writes to the row, `filledFrom` is the version the
      entry was read from, and `owed` the invalidations a command has to make
      that were not attempted yet. */
  datatype State = State(
    store: Store, version: nat, key: Option<CacheKey>, filledFrom: nat, readers: map<nat, Read>, owed: nat, clock: Time)

  datatype Action =
    | Serve(c: Command)
    | Invalidate(up: bool, now: Time)
    | ReadRow(reader: nat, now: Time)
    | Fill(reader: nat, up: bool, now: Time)

  function TimeOf(a: Action): Time {
    if a.Serve? then a.c.now else a.now
  }

  function Row(s: Store, u: UserId): Option<Account> {
    if u in s.db.users then Some(s.db.users[u]) else None
  }

  ghost predicate Writes(s: Store, c: Command, u: UserId) {
    Row(Step(s, c).store, u) != Row(s, u)
  }

  function Count(drops: seq<UserId>, u: UserId): nat {
    if drops == [] then 0 else Count(drops[..|drops| - 1], u) + if drops[|drops| - 1] == u then 1 else 0
  }

  ghost function Served(u: UserId, st: State, c: Command): State {
    var s' := Step(st.store, c).store;
    var added := if |st.store.drops| <= |s'.drops| then s'.drops[|st.store.drops|..] else [];
    st.(store := s', version := st.version + if Writes(st.store, c, u) then 1 else 0, owed := st.owed + Count(added, u))
  }

  ghost function Apply(u: UserId, st: State, a: Action): State {
    var t := st.(clock := TimeOf(a));
    match a
    case Serve(c) => Served(u, t, c)
    case Invalidate(up, now) => t.(key := Deleted(st.key, up), owed := if st.owed > 0 then st.owed - 1 else 0)
    case ReadRow(reader, now) =>
      if u !in st.store.db.users then t
      else t.(readers := st.readers[reader := Read(st.store.db.users[u], st.version, now)])
    case Fill(reader, up, now) =>
      if reader !in st.readers then t
      else
        var r := st.readers[reader];
        t.(readers := st.readers - {reader}, key := Put(st.key, r.row, PROFILE_TTL_SECONDS, now, up),
           filledFrom := if up then r.version else st.filledFrom)
  }

  /** Time does not go back, commands are admissible, only owed invalidations
      are made, and a reader takes at most `gap` from row to entry. */
  ghost predicate Enabled(st: State, a: Action, gap: nat) {
    && st.clock <= TimeOf(a)
    && (a.Serve? ==> Admissible(st.store, a.c))
    && (a.Invalidate? ==> st.owed > 0)
    && (a.Fill? && a.reader in st.readers ==> a.now <= st.readers[a.reader].at + gap)
  }

  ghost function After(u: UserId, s0: Store, run: seq<Action>): State {
    if run == [] then State(s0, 0, None, 0, map[], 0, s0.clock)
    else Apply(u, After(u, s0, run[..|run| - 1]), run[|run| - 1])
  }

  ghost predicate Reachable(u: UserId, s0: Store, run: seq<Action>, gap: nat) {
    run == [] || (Reachable(u, s0, run[..|run| - 1], gap)
        && Enabled(After(u, s0, run[..|run| - 1]), run[|run| - 1], gap))
  }

  function Commands(run: seq<Action>): seq<Command> {
    if run == [] then []
    else
      var past, a := Commands(run[..|run| - 1]), run[|run| - 1];
      if a.Serve? then past + [a.c] else past
  }

  /** The store beside the cache is the one the commands alone produce. */
  lemma {:induction false} StoreIsServed(u: UserId, s0: Store, run: seq<Action>, gap: nat)
    requires Reachable(u, s0, run, gap)
    ensures ValidRun(s0, Commands(run)) && After(u, s0, run).store == Exec(s0, Commands(run))
  {
    if run != [] {
      var past, a := run[..|run| - 1], run[|run| - 1];
      StoreIsServed(u, s0, past, gap);
      if a.Serve? {
        assert Commands(run)[..|Commands(past)|] == Commands(past);
      }
    }
  }

  // ---------------------------------------------------------------------
  // Where the entry comes from

  /** Position of the read that `reader` still holds, or -1. */
  ghost function ReadAt(u: UserId, s0: Store, run: seq<Action>, reader: nat): (i: int)
    ensures -1 <= i < |run|
  {
    if run == [] then -1
    else
      var past, a := run[..|run| - 1], run[|run| - 1];
      if a.ReadRow? && a.reader == reader && u in After(u, s0, past).store.db.users then |past|
      else if a.Fill? && a.reader == reader then -1
      else ReadAt(u, s0, past, reader)
  }

  /** Position of the fill that wrote the entry there is, or -1. */
  ghost function FilledAt(u: UserId, s0: Store, run: seq<Action>): (i: int)
    ensures -1 <= i < |run| && (i >= 0 ==> run[i].Fill?)
  {
    if run == [] then -1
    else
      var past, a := run[..|run| - 1], run[|run| - 1];
      if a.Fill? && a.up && ReadAt(u, s0, past, a.reader) >= 0 then |past|
      else if a.Invalidate? && a.up then -1
      else FilledAt(u, s0, past)
  }

  /** Position of the read behind that fill, or -1. */
  ghost function SourceAt(u: UserId, s0: Store, run: seq<Action>): (i: int)
    ensures -1 <= i < |run|
  {
    var f := FilledAt(u, s0, run);
    if f < 0 then -1 else ReadAt(u, s0, run[..f], run[f].reader)
  }

  /** What a position of a run says about the read made there. */
  ghost predicate ReadHere(u: UserId, s0: Store, run: seq<Action>, i: int, row: Account, version: nat, at: Time) {
    && 0 <= i < |run| && run[i].ReadRow? && run[i].now == at
    && Row(After(u, s0, run[..i]).store, u) == Some(row) && After(u, s0, run[..i]).version == version
  }

  lemma ReadLater(u: UserId, s0: Store, run: seq<Action>, i: int, row: Account, version: nat, at: Time)
    requires run != [] && ReadHere(u, s0, run[..|run| - 1], i, row, version, at)
    ensures ReadHere(u, s0, run, i, row, version, at)
  {
    assert run[..|run| - 1][..i] == run[..i];
  }

  lemma {:induction false} ReadersTraced(u: UserId, s0: Store, run: seq<Action>, reader: nat)
    ensures var i, readers := ReadAt(u, s0, run, reader), After(u, s0, run).readers;
            && (reader in readers <==> i >= 0)
            && (i >= 0 ==> ReadHere(u, s0, run, i, readers[reader].row, readers[reader].version, readers[reader].at))
  {
    if run != [] {
      var past := run[..|run| - 1];
      ReadersTraced(u, s0, past, reader);
      var i := ReadAt(u, s0, past, reader);
      if i >= 0 {
        var r := After(u, s0, past).readers[reader];
        ReadLater(u, s0, run, i, r.row, r.version, r.at);
      }
      ReaderKept(u, After(u, s0, past), run[|past|], reader);
    }
  }

  lemma ReaderKept(u: UserId, st: State, a: Action, reader: nat)
    ensures var readers := Apply(u, st, a).readers;
            if a.ReadRow? && a.reader == reader && u in st.store.db.users then
              reader in readers && readers[reader] == Read(st.store.db.users[u], st.version, a.now)
            else if a.Fill? && a.reader == reader then reader !in readers
            else
              && (reader in readers <==> reader in st.readers)
              && (reader in readers ==> readers[reader] == st.readers[reader])
  {
  }

  lemma {:induction false} FilledLater(u: UserId, s0: Store, run: seq<Action>)
    requires run != [] && FilledAt(u, s0, run) < |run| - 1
    ensures FilledAt(u, s0, run) >= 0 ==>
              FilledAt(u, s0, run) == FilledAt(u, s0, run[..|run| - 1])
                  && SourceAt(u, s0, run) == SourceAt(u, s0, run[..|run| - 1])
  {
    var f := FilledAt(u, s0, run);
    if f >= 0 { assert run[..|run| - 1][..f] == run[..f]; }
  }

  /** The entry holds the row read at its source, at most `gap` before the fill
      from which its lifetime counts. */
  ghost predicate EntryFrom(u: UserId, s0: Store, run: seq<Action>, st: State, i: int, gap: nat) {
    && st.key.Some? && 0 <= i < |run| && run[i].ReadRow? && run[i].now <= st.clock
    && u in After(u, s0, run[..i]).store.db.users
    && st.filledFrom == After(u, s0, run[..i]).version
    && st.key.value.stored == StoredOf(After(u, s0, run[..i]).store.db.users[u])
    && st.key.value.expiresAt - PROFILE_TTL_SECONDS - gap <= run[i].now
  }

  lemma FreshEntry(u: UserId, s0: Store, run: seq<Action>, gap: nat)
    requires Reachable(u, s0, run, gap) && run != [] && FilledAt(u, s0, run) == |run| - 1
    ensures EntryFrom(u, s0, run, After(u, s0, run), SourceAt(u, s0, run), gap)
  {
    var past, a := run[..|run| - 1], run[|run| - 1];
    ReadersTraced(u, s0, past, a.reader);
    var i := ReadAt(u, s0, past, a.reader);
    assert past[..i] == run[..i];
    ReadBefore(u, s0, past, a.reader, gap);
  }

  lemma {:induction false} ReadBefore(u: UserId, s0: Store, run: seq<Action>, reader: nat, gap: nat)
    requires Reachable(u, s0, run, gap)
    ensures ReadAt(u, s0, run, reader) >= 0 ==> TimeOf(run[ReadAt(u, s0, run, reader)]) <= After(u, s0, run).clock
  {
    if run != [] { ReadBefore(u, s0, run[..|run| - 1], reader, gap); }
  }

  lemma KeptEntry(u: UserId, s0: Store, run: seq<Action>, st: State, st': State, i: int, gap: nat)
    requires run != [] && EntryFrom(u, s0, run[..|run| - 1], st, i, gap)
    requires st'.key == st.key && st'.filledFrom == st.filledFrom && st.clock <= st'.clock
    ensures EntryFrom(u, s0, run, st', i, gap)
  {
    assert run[..|run| - 1][..i] == run[..i];
  }

  lemma {:induction false} EntryTraced(u: UserId, s0: Store, run: seq<Action>, gap: nat)
    requires Reachable(u, s0, run, gap)
    ensures After(u, s0, run).key.Some? <==> FilledAt(u, s0, run) >= 0
    ensures After(u, s0, run).key.Some? ==> EntryFrom(u, s0, run, After(u, s0, run), SourceAt(u, s0, run), gap)
  {
    if run != [] {
      var past, a := run[..|run| - 1], run[|run| - 1];
      EntryTraced(u, s0, past, gap);
      if a.Fill? { ReadersTraced(u, s0, past, a.reader); }
      if FilledAt(u, s0, run) == |past| {
        FreshEntry(u, s0, run, gap);
      } else if FilledAt(u, s0, run) >= 0 {
        FilledLater(u, s0, run);
        KeptEntry(u, s0, run, After(u, s0, past), After(u, s0, run), SourceAt(u, s0, past), gap);
      }
    }
  }

  lemma {:induction false} FilledLifetime(u: UserId, s0: Store, run: seq<Action>)
    ensures var key, f := After(u, s0, run).key, FilledAt(u, s0, run);
            (key.Some? <==> f >= 0) && (key.Some? ==> key.value.expiresAt == TimeOf(run[f]) + 300)
  {
    if run != [] {
      var past, a := run[..|run| - 1], run[|run| - 1];
      FilledLifetime(u, s0, past);
      if a.Fill? { ReadersTraced(u, s0, past, a.reader); }
    }
  }

  /** A read hits exactly during the 300 seconds after a fill that stored an
      entry, unless an invalidation took it out. */
  lemma HitIff(u: UserId, s0: Store, run: seq<Action>, now: Time)
    ensures var f := FilledAt(u, s0, run);
            Got(After(u, s0, run).key, now, true).Some? <==> f >= 0 && now < TimeOf(run[f]) + 300
  {
    FilledLifetime(u, s0, run);
  }

  /** Every hit is the account as it stood at a read made less than one lifetime
      plus one reader gap ago, whatever commands ran and whatever cache
      operations failed or overlapped. */
  lemma BoundedStaleness(u: UserId, s0: Store, run: seq<Action>, gap: nat, now: Time)
    requires Reachable(u, s0, run, gap)
    ensures After(u, s0, run).clock <= now && Got(After(u, s0, run).key, now, true).Some? ==>
            exists i ::
              && 0 <= i < |run| && run[i].ReadRow? && now - 300 - gap < run[i].now <= now
              && ValidRun(s0, Commands(run[..i]))
              && u in Exec(s0, Commands(run[..i])).db.users
              && Got(After(u, s0, run).key, now, true).value ==
                  Loaded(StoredOf(Exec(s0, Commands(run[..i])).db.users[u]))
  {
    if After(u, s0, run).clock <= now && Got(After(u, s0, run).key, now, true).Some? {
      EntryTraced(u, s0, run, gap);
      var i := SourceAt(u, s0, run);
      ReachablePrefix(u, s0, run, gap, i);
      StoreIsServed(u, s0, run[..i], gap);
    }
  }

  lemma {:induction false} ReachablePrefix(u: UserId, s0: Store, run: seq<Action>, gap: nat, i: nat)
    requires Reachable(u, s0, run, gap) && i <= |run|
    ensures Reachable(u, s0, run[..i], gap)
  {
    assert run[..|run|] == run;
    if i < |run| {
      assert run[..|run| - 1][..i] == run[..i];
      ReachablePrefix(u, s0, run[..|run| - 1], gap, i);
    }
  }

  // ---------------------------------------------------------------------
  // When the entry is current

  /** No command after position `lo` writes the row. */
  ghost predicate NoWrite(u: UserId, s0: Store, run: seq<Action>, lo: int) {
    run == [] || |run| <= lo + 1 ||
    var past, a := run[..|run| - 1], run[|run| - 1];
    NoWrite(u, s0, past, lo) && !(a.Serve? && Writes(After(u, s0, past).store, a.c, u))
  }

  lemma ActionVersion(u: UserId, st: State, a: Action)
    ensures var st' := Apply(u, st, a);
            if a.Serve? && Writes(st.store, a.c, u) then st'.version == st.version + 1
            else st'.version == st.version && Row(st'.store, u) == Row(st.store, u)
  {
  }

  /** Versions count writes; the row only changes with its version. */
  lemma {:induction false} VersionsCount(u: UserId, s0: Store, run: seq<Action>, i: nat)
    requires i < |run| && !run[i].Serve?
    ensures After(u, s0, run[..i]).version <= After(u, s0, run).version
    ensures After(u, s0, run).version == After(u, s0, run[..i]).version <==> NoWrite(u, s0, run, i)
    ensures NoWrite(u, s0, run, i) ==> Row(After(u, s0, run).store, u) == Row(After(u, s0, run[..i]).store, u)
  {
    var past := run[..|run| - 1];
    ActionVersion(u, After(u, s0, past), run[|run| - 1]);
    if i < |past| {
      assert past[..i] == run[..i];
      VersionsCount(u, s0, past, i);
    }
  }

  /** In every reachable state the entry is of the current version of the row
      exactly when no command wrote the row after the read of the fill that put
      it there; it then equals the row on every stored field. */
  lemma CurrentIff(u: UserId, s0: Store, run: seq<Action>, gap: nat)
    requires Reachable(u, s0, run, gap) && After(u, s0, run).key.Some?
    ensures var st := After(u, s0, run);
            && (st.filledFrom == st.version <==> NoWrite(u, s0, run, SourceAt(u, s0, run)))
            && (st.filledFrom == st.version ==>
                u in st.store.db.users && st.key.value.stored == StoredOf(st.store.db.users[u]))
  {
    EntryTraced(u, s0, run, gap);
    VersionsCount(u, s0, run, SourceAt(u, s0, run));
  }

  /** Commands write the row at later and later instants. */
  ghost predicate Ticking(u: UserId, s0: Store, run: seq<Action>) {
    run == [] ||
    var past, a := run[..|run| - 1], run[|run| - 1];
    && Ticking(u, s0, past)
    && (a.Serve? && Writes(After(u, s0, past).store, a.c, u) && u in After(u, s0, past).store.db.users ==>
          After(u, s0, past).store.db.users[u].updatedAt < a.c.now)
  }

  lemma WriteDates(s: Store, c: Command, u: UserId)
    requires Admissible(s, c) && u in s.db.users
    ensures var s' := Step(s, c).store;
            u in s'.db.users && (s'.db.users[u] == s.db.users[u] || s'.db.users[u].updatedAt == c.now)
  {
    StepWithin(s, c);
    assert RowKept(c, s.db.users[u], Step(s, c).store.db.users[u]);
  }

  ghost predicate DatedSince(was: Account, now: Account, unwritten: bool) {
    was.updatedAt <= now.updatedAt && (was.updatedAt == now.updatedAt ==> unwritten)
  }

  lemma {:induction false} WritesDate(u: UserId, s0: Store, run: seq<Action>, i: nat, gap: nat)
    requires Reachable(u, s0, run, gap) && Ticking(u, s0, run)
    ensures i < |run| && !run[i].Serve? && u in After(u, s0, run[..i]).store.db.users ==>
              && u in After(u, s0, run).store.db.users
              && DatedSince(After(u, s0, run[..i]).store.db.users[u], After(u, s0, run).store.db.users[u],
                  NoWrite(u, s0, run, i))
  {
    if i < |run| {
      var past, a := run[..|run| - 1], run[|run| - 1];
      ActionVersion(u, After(u, s0, past), a);
      if i < |past| {
        assert past[..i] == run[..i];
        WritesDate(u, s0, past, i, gap);
        if u in After(u, s0, past).store.db.users { ActionDates(u, After(u, s0, past), a); }
      }
    }
  }

  lemma ActionDates(u: UserId, st: State, a: Action)
    requires (a.Serve? ==> Admissible(st.store, a.c)) && u in st.store.db.users
    ensures var users' := Apply(u, st, a).store.db.users;
            && u in users'
            && if a.Serve? && Writes(st.store, a.c, u) then users'[u].updatedAt == a.c.now
               else users'[u] == st.store.db.users[u]
  {
    if a.Serve? { WriteDates(st.store, a.c, u); }
  }

  /** When no two writes of the row share an instant, the stored fields alone
      tell: the entry equals the row exactly when nothing was written since. */
  lemma ShownCurrentIff(u: UserId, s0: Store, run: seq<Action>, gap: nat)
    requires Reachable(u, s0, run, gap) && Ticking(u, s0, run) && After(u, s0, run).key.Some?
    ensures var st := After(u, s0, run);
            && u in st.store.db.users
            && (st.key.value.stored == StoredOf(st.store.db.users[u]) <==> NoWrite(u, s0, run, SourceAt(u, s0, run)))
  {
    EntryTraced(u, s0, run, gap);
    CurrentIff(u, s0, run, gap);
    WritesDate(u, s0, run, SourceAt(u, s0, run), gap);
  }

  ghost predicate AllSucceed(run: seq<Action>) {
    forall k :: 0 <= k < |run| && run[k].Invalidate? ==> run[k].up
  }

  lemma {:induction false} Counted(drops: seq<UserId>, u: UserId)
    requires u in drops
    ensures Count(drops, u) > 0
  {
    if drops[|drops| - 1] != u { Counted(drops[..|drops| - 1], u); }
  }

  lemma WriteIsOwed(u: UserId, st: State, c: Command)
    requires Admissible(st.store, c) && u in st.store.db.users && Writes(st.store, c, u)
    ensures Served(u, st, c).owed > 0
  {
    EveryWriteInvalidates(st.store, c);
    Counted(Step(st.store, c).store.drops[|st.store.drops|..], u);
  }

  lemma {:induction false} AccountStays(u: UserId, s0: Store, run: seq<Action>, gap: nat)
    requires Reachable(u, s0, run, gap) && FilledAt(u, s0, run) >= 0
    ensures u in After(u, s0, run).store.db.users
  {
    var past, a := run[..|run| - 1], run[|run| - 1];
    if FilledAt(u, s0, run) < |past| {
      AccountStays(u, s0, past, gap);
      if a.Serve? { WriteDates(After(u, s0, past).store, a.c, u); }
    } else {
      HolderStays(u, s0, past, a.reader, gap);
    }
  }

  lemma {:induction false} HolderStays(u: UserId, s0: Store, run: seq<Action>, reader: nat, gap: nat)
    requires Reachable(u, s0, run, gap) && ReadAt(u, s0, run, reader) >= 0
    ensures u in After(u, s0, run).store.db.users
  {
    var past, a := run[..|run| - 1], run[|run| - 1];
    if ReadAt(u, s0, run, reader) < |past| {
      HolderStays(u, s0, past, reader, gap);
      if a.Serve? { WriteDates(After(u, s0, past).store, a.c, u); }
    }
  }

  /** A write after the fill leaves an invalidation owed until one clears the
      entry. */
  lemma {:induction false} WriteAfterFill(u: UserId, s0: Store, run: seq<Action>, gap: nat)
    requires Reachable(u, s0, run, gap) && AllSucceed(run)
    ensures FilledAt(u, s0, run) >= 0 && After(u, s0, run).owed == 0 ==> NoWrite(u, s0, run, FilledAt(u, s0, run))
  {
    if 0 <= FilledAt(u, s0, run) < |run| - 1 {
      var past, a := run[..|run| - 1], run[|run| - 1];
      assert forall k :: 0 <= k < |past| ==> past[k] == run[k];
      WriteAfterFill(u, s0, past, gap);
      AccountStays(u, s0, past, gap);
      if a.Serve? && Writes(After(u, s0, past).store, a.c, u) {
        WriteIsOwed(u, After(u, s0, past).(clock := a.c.now), a.c);
      }
    }
  }

  lemma {:induction false} NoWriteSplit(u: UserId, s0: Store, run: seq<Action>, lo: nat, mid: nat)
    requires lo <= mid < |run| && !run[mid].Serve?
    ensures NoWrite(u, s0, run, lo) <==> NoWrite(u, s0, run[..mid], lo) && NoWrite(u, s0, run, mid)
  {
    var past := run[..|run| - 1];
    if mid < |past| {
      assert past[..mid] == run[..mid];
      NoWriteSplit(u, s0, past, lo, mid);
    }
  }

  /** Once every invalidation was made and succeeded, an entry is old exactly
      when a command wrote the row between the read and the write of its fill:
      invalidating on every write path leaves this one way open. */
  lemma SettledIff(u: UserId, s0: Store, run: seq<Action>, gap: nat)
    requires Reachable(u, s0, run, gap) && AllSucceed(run) && After(u, s0, run).owed == 0 && After(u, s0, run).key.Some?
    ensures var st, f := After(u, s0, run), FilledAt(u, s0, run);
            && f >= 0
            && (st.filledFrom == st.version <==> NoWrite(u, s0, run[..f], SourceAt(u, s0, run)))
  {
    EntryTraced(u, s0, run, gap);
    CurrentIff(u, s0, run, gap);
    WriteAfterFill(u, s0, run, gap);
    NoWriteSplit(u, s0, run, SourceAt(u, s0, run), FilledAt(u, s0, run));
  }

  lemma Extend(u: UserId, s0: Store, run: seq<Action>, a: Action, gap: nat)
    ensures After(u, s0, run + [a]) == Apply(u, After(u, s0, run), a)
    ensures Reachable(u, s0, run + [a], gap) <==> Reachable(u, s0, run, gap) && Enabled(After(u, s0, run), a, gap)
  {
    assert (run + [a])[..|run|] == run;
  }

  lemma Renamed(s: Store, u: UserId, name: string, now: Time)
    requires u in s.db.users && s.db.users[u].fullName != Some(name) && s.clock <= now
    ensures var c := UpdateProfile(u, Some(name), now, true); var s' := Step(s, c).store;
            && Admissible(s, c) && u in s'.db.users && s'.db.users[u].fullName == Some(name)
                && s'.drops == s.drops + [u]
  {
  }

  /** The four actions, one after the other, on the state they start from. */
  lemma Overtake(u: UserId, st: State, name: string, now: Time)
    requires u in st.store.db.users && st.store.db.users[u].fullName != Some(name) && st.store.clock <= now
             && st.clock <= now
    requires st.owed == 0
    ensures var a1, a2, a3, a4 := ReadRow(7, now), Serve(UpdateProfile(u, Some(name), now, true)),
            Invalidate(true, now), Fill(7, true, now);
            var st1 := Apply(u, st, a1); var st2 := Apply(u, st1, a2); var st3 := Apply(u, st2, a3); var st4 :=
                Apply(u, st3, a4);
            && Enabled(st, a1, 0) && Enabled(st1, a2, 0) && Enabled(st2, a3, 0) && Enabled(st3, a4, 0)
            && st4.owed == 0 && st4.key == Some(CacheKey(StoredOf(st.store.db.users[u]), now + PROFILE_TTL_SECONDS))
            && u in st4.store.db.users && st4.store.db.users[u].fullName == Some(name)
  {
    var c := UpdateProfile(u, Some(name), now, true);
    Renamed(st.store, u, name, now);
    var drops := Step(st.store, c).store.drops[|st.store.drops|..];
    assert drops == [u] && drops[..0] == [];
    assert Count(drops, u) == 1;
  }

  /** With every operation succeeding at once: a reader overtaken by one profile
      update leaves the old name behind after the invalidation. */
  lemma OvertakenReader(u: UserId, s0: Store, name: string, now: Time)
    requires u in s0.db.users && s0.db.users[u].fullName != Some(name) && s0.clock <= now
    ensures var run :=
            [ReadRow(7, now), Serve(UpdateProfile(u, Some(name), now, true)), Invalidate(true, now),
                Fill(7, true, now)];
            var st := After(u, s0, run);
            && Reachable(u, s0, run, 0) && AllSucceed(run) && st.owed == 0
            && Got(st.key, now, true) == Some(Loaded(StoredOf(s0.db.users[u])))
            && u in st.store.db.users && st.store.db.users[u].fullName == Some(name)
  {
    var a1, a2, a3, a4 := ReadRow(7, now), Serve(UpdateProfile(u, Some(name), now, true)), Invalidate(true, now),
        Fill(7, true, now);
    Overtake(u, After(u, s0, []), name, now);
    FourActions(u, s0, a1, a2, a3, a4, 0);
  }

  lemma FourActions(u: UserId, s0: Store, a1: Action, a2: Action, a3: Action, a4: Action, gap: nat)
    ensures var st := After(u, s0, []);
            var st1 := Apply(u, st, a1); var st2 := Apply(u, st1, a2); var st3 := Apply(u, st2, a3);
            && After(u, s0, [a1, a2, a3, a4]) == Apply(u, st3, a4)
            && (Enabled(st, a1, gap) && Enabled(st1, a2, gap) && Enabled(st2, a3, gap) && Enabled(st3, a4, gap) ==>
                  Reachable(u, s0, [a1, a2, a3, a4], gap))
  {
    Extend(u, s0, [], a1, gap);
    assert [] + [a1] == [a1];
    Extend(u, s0, [a1], a2, gap);
    assert [a1] + [a2] == [a1, a2];
    Extend(u, s0, [a1, a2], a3, gap);
    assert [a1, a2] + [a3] == [a1, a2, a3];
    Extend(u, s0, [a1, a2, a3], a4, gap);
    assert [a1, a2, a3] + [a4] == [a1, a2, a3, a4];
  }
}

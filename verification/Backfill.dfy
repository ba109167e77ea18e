/** The paginated listing, and a module that walks it page by page while the
    service goes on registering accounts. */
module Backfill {
  import opened Domain
  import opened IdentityStore
  import opened Footprint
  import opened Accounts

  const MAX_PAGE_SIZE: nat := 100

  datatype Filter = Filter(role: Option<Role>, status: Option<Status>, pendingKyc: bool, since: Option<Time>)

  predicate Matches(f: Filter, a: Account) {
    && (f.role.Some? ==> a.role == f.role.value)
    && (f.status.Some? ==> a.status == f.status.value)
    && (f.pendingKyc ==> a.requested.Some?)
    && (f.since.Some? ==> f.since.value <= a.createdAt)
  }

  // ---------------------------------------------------------------------
  // Queries and their answers

  datatype Clause = RoleIs(role: Role) | StatusIs(status: Status) | KycPending | CreatedSince(at: Time)

  predicate Satisfies(a: Account, c: Clause) {
    match c
    case RoleIs(role) => a.role == role
    case StatusIs(status) => a.status == status
    case KycPending => a.requested.Some?
    case CreatedSince(at) => a.createdAt >= at
  }

  datatype Query = Query(filters: seq<Clause>, ascending: bool, offset: nat, limit: nat)

  /** The total order `created_at, id`. */
  predicate Sooner(users: Users, u: UserId, v: UserId) {
    && u in users && v in users
    && (users[u].createdAt < users[v].createdAt || (users[u].createdAt == users[v].createdAt && u < v))
  }

  ghost predicate Ordered(users: Users, s: seq<UserId>) {
    && (forall i :: 0 <= i < |s| ==> s[i] in users)
    && forall i, j :: 0 <= i < j < |s| ==> Sooner(users, s[i], s[j])
  }

  lemma {:induction false} Least(users: Users, ids: set<UserId>) returns (u: UserId)
    requires ids != {} && ids <= users.Keys
    ensures u in ids && forall v :: v in ids && v != u ==> Sooner(users, u, v)
    decreases |ids|
  {
    var first :| first in ids;
    var rest := ids - {first};
    u := first;
    if rest != {} {
      var v := Least(users, rest);
      if Sooner(users, v, first) { u := v; }
      forall w | w in ids && w != u ensures Sooner(users, u, w) {
        assert w == first || w == v || (w in rest && Sooner(users, v, w));
      }
    }
  }

  ghost predicate IsLeast(users: Users, ids: set<UserId>, u: UserId) {
    u in ids && forall v :: v in ids && v != u ==> Sooner(users, u, v)
  }

  lemma LeastExists(users: Users, ids: set<UserId>)
    requires ids != {} && ids <= users.Keys
    ensures exists u :: IsLeast(users, ids, u)
  {
    var u := Least(users, ids);
    assert IsLeast(users, ids, u);
  }

  lemma LeastFirst(users: Users, ids: set<UserId>, u: UserId, s: seq<UserId>)
    requires ids <= users.Keys && IsLeast(users, ids, u) && Ordered(users, s)
    requires forall v :: v in s <==> v in ids - {u}
    ensures Ordered(users, [u] + s)
  {
    forall j | 0 < j < |s| + 1 ensures Sooner(users, u, ([u] + s)[j]) {
      assert s[j - 1] in s;
    }
  }

  ghost function Sorted(users: Users, ids: set<UserId>): (s: seq<UserId>)
    requires ids <= users.Keys
    ensures forall u :: u in s <==> u in ids
    ensures |s| == |ids| && Ordered(users, s)
    decreases |ids|
  {
    if ids == {} then []
    else
      LeastExists(users, ids);
      var u :| IsLeast(users, ids, u);
      var rest := Sorted(users, ids - {u});
      LeastFirst(users, ids, u, rest);
      [u] + rest
  }

  function Reversed<T>(s: seq<T>): seq<T> {
    seq(|s|, i requires 0 <= i < |s| => s[|s| - 1 - i])
  }

  ghost function Rows(users: Users, f: Filter): (r: set<UserId>)
    ensures r <= users.Keys
  {
    set u | u in users && Matches(f, users[u])
  }

  /** The whole listing: oldest first from a date, newest first otherwise. */
  ghost function Listing(users: Users, f: Filter): seq<UserId> {
    if f.since.Some? then Sorted(users, Rows(users, f)) else Reversed(Sorted(users, Rows(users, f)))
  }

  /** A listing holds exactly the accounts that meet every filter given, each
      once: from the oldest with a date, from the newest without, and among
      accounts of one instant in the order of their ids. */
  lemma ListingMeans(users: Users, f: Filter)
    ensures forall u :: u in Listing(users, f) <==>
              && u in users
              && (f.role != None ==> users[u].role == f.role.value)
              && (f.status != None ==> users[u].status == f.status.value)
              && (f.pendingKyc ==> users[u].requested != None)
              && (f.since != None ==> users[u].createdAt >= f.since.value)
    ensures forall i, j :: 0 <= i < j < |Listing(users, f)| ==>
              var u, v := Listing(users, f)[i], Listing(users, f)[j];
              && u in users && v in users
              && if f.since != None
                 then users[u].createdAt < users[v].createdAt || (users[u].createdAt == users[v].createdAt && u < v)
                 else users[u].createdAt > users[v].createdAt || (users[u].createdAt == users[v].createdAt && u > v)
  {
    var sorted := Sorted(users, Rows(users, f));
    ReversedSame(sorted);
    forall i, j | 0 <= i < j < |Listing(users, f)|
      ensures if f.since != None then Sooner(users, Listing(users, f)[i], Listing(users, f)[j])
              else Sooner(users, Listing(users, f)[j], Listing(users, f)[i])
    {
      if f.since != None { Positions(users, sorted, i, j); }
      else { Positions(users, sorted, |sorted| - 1 - j, |sorted| - 1 - i); }
    }
  }

  lemma ReversedSame(s: seq<UserId>)
    ensures forall u :: u in Reversed(s) <==> u in s
  {
    forall u | u in s ensures u in Reversed(s) {
      var i :| 0 <= i < |s| && s[i] == u;
      assert Reversed(s)[|s| - 1 - i] == u;
    }
  }

  function Max(a: int, b: int): int {
    if a >= b then a else b
  }

  function Clamped(pageSize: int): nat {
    Min(Max(pageSize, 1), MAX_PAGE_SIZE)
  }

  function Slice<T>(s: seq<T>, offset: nat, limit: nat): seq<T> {
    s[Min(offset, |s|)..Min(offset + limit, |s|)]
  }

  /** How many rows `pages` full pages hold. */
  function Span(size: nat, pages: nat): nat {
    if pages == 0 then 0 else Span(size, pages - 1) + size
  }

  /** Pages are numbered from 1. */
  function Page<T>(s: seq<T>, page: nat, size: nat): seq<T>
    requires page > 0
  {
    Slice(s, Span(size, page - 1), size)
  }

  lemma {:induction false} SpanIs(size: nat, pages: nat)
    ensures Span(size, pages) == pages * size
  {
    if pages > 0 { SpanIs(size, pages - 1); }
  }

  lemma {:induction false} SpanGrows(size: nat, k: nat, n: nat)
    requires k <= n
    ensures Span(size, k) <= Span(size, n)
  {
    if k < n { SpanGrows(size, k, n - 1); }
  }

  ghost function Selected(users: Users, filters: seq<Clause>): (r: set<UserId>)
    ensures r <= users.Keys
  {
    set u | u in users && forall c :: c in filters ==> Satisfies(users[u], c)
  }

  /** What the database returns. */
  ghost function Answered(users: Users, q: Query): seq<UserId> {
    var rows := Sorted(users, Selected(users, q.filters));
    Slice(if q.ascending then rows else Reversed(rows), q.offset, q.limit)
  }

  /** The statement built for a listing answers with that page of it. */
  method ListUsers(f: Filter, page: int, pageSize: int) returns (q: Query)
    ensures forall users: Users :: Answered(users, q) == Page(Listing(users, f), Max(page, 1), Clamped(pageSize))
    ensures forall users: Users :: Selected(users, q.filters) == Rows(users, f)
  {
    var page, pageSize := Max(page, 1), Min(Max(pageSize, 1), MAX_PAGE_SIZE);
    var filters: seq<Clause> := [];
    if f.role.Some? { filters := filters + [RoleIs(f.role.value)]; }
    if f.status.Some? { filters := filters + [StatusIs(f.status.value)]; }
    if f.pendingKyc { filters := filters + [KycPending]; }
    if f.since.Some? { filters := filters + [CreatedSince(f.since.value)]; }
    forall users: Users ensures Selected(users, filters) == Rows(users, f) {
      forall u | u in users ensures (forall c :: c in filters ==> Satisfies(users[u], c)) <==> Matches(f, users[u]) {
        if forall c :: c in filters ==> Satisfies(users[u], c) {
          assert f.role.Some? ==> RoleIs(f.role.value) in filters;
          assert f.status.Some? ==> StatusIs(f.status.value) in filters;
          assert f.pendingKyc ==> KycPending in filters;
          assert f.since.Some? ==> CreatedSince(f.since.value) in filters;
        }
      }
    }
    SpanIs(pageSize, page - 1);
    q := Query(filters, f.since.Some?, (page - 1) * pageSize, pageSize);
  }

  /** `ceil(total / page_size)`, by the size the caller asked for. */
  function TotalPages(total: nat, pageSize: int): int {
    if pageSize == 0 then 0
    else if pageSize > 0 then (total + pageSize - 1) / pageSize
    else -(total / -pageSize)
  }

  /** The reported page count tells which pages hold rows exactly when the size
      asked for is one that is served. */
  lemma PageCountIff(pageSize: int)
    ensures (forall s: seq<UserId>, page: nat :: page > 0 ==> CountsPage(s, page, pageSize)) <==>
            1 <= pageSize <= 100
  {
    if 1 <= pageSize <= MAX_PAGE_SIZE {
      forall s: seq<UserId>, page: nat | page > 0 ensures CountsPage(s, page, pageSize) {
        Ceiling(|s|, pageSize, page);
        SpanIs(pageSize, page - 1);
      }
    } else if pageSize <= 0 {
      var s: seq<UserId> := [0];
      assert Page(s, 1, 1) == [0];
      assert TotalPages(|s|, pageSize) <= 0;
      assert !CountsPage(s, 1, pageSize);
    } else {
      var s: seq<UserId> := seq(MAX_PAGE_SIZE + 1, _ => 0);
      assert Span(MAX_PAGE_SIZE, 1) == Span(MAX_PAGE_SIZE, 0) + MAX_PAGE_SIZE;
      assert |Page(s, 2, MAX_PAGE_SIZE)| == 1;
      assert TotalPages(|s|, pageSize) < 2 by { Ceiling(|s|, pageSize, 2); }
      assert !CountsPage(s, 2, pageSize);
    }
  }

  predicate CountsPage(s: seq<UserId>, page: nat, pageSize: int)
    requires page > 0
  {
    Page(s, page, Clamped(pageSize)) != [] <==> page <= TotalPages(|s|, pageSize)
  }

  lemma Ceiling(total: nat, size: int, page: int)
    requires size > 0
    ensures (page - 1) * size < total <==> page <= (total + size - 1) / size
  {
    var q := (total + size - 1) / size;
    assert q * size <= total + size - 1 < (q + 1) * size;
    if page <= q { assert page * size <= q * size; } else { assert (q + 1) * size <= page * size; }
  }

  // ---------------------------------------------------------------------
  // A walk over a growing table

  /** Rows that matched still match, with the creation date they had. */
  ghost predicate Grown(users: Users, users': Users, f: Filter) {
    forall u {:trigger users'[u].createdAt} {:trigger u in users'} :: u in users && Matches(f, users[u]) ==>
      u in users' && Matches(f, users'[u]) && users'[u].createdAt == users[u].createdAt
  }

  /** Pages 1, 2, ... each cut out of the listing as it was at that fetch. */
  function Walked(views: seq<seq<UserId>>, size: nat): seq<UserId> {
    if views == [] then [] else Walked(views[..|views| - 1], size) + Page(views[|views| - 1], |views|, size)
  }

  predicate Full(view: seq<UserId>, size: nat, k: nat) {
    |Page(view, k + 1, size)| == size
  }

  /** The walk goes on after a full page and stops after a short one. */
  ghost predicate StopsAtShortPage(views: seq<seq<UserId>>, size: nat) {
    && |views| > 0
    && (forall k :: 0 <= k < |views| - 1 ==> Full(views[k], size, k))
    && !Full(views[|views| - 1], size, |views| - 1)
  }

  lemma Positions(users: Users, s: seq<UserId>, i: nat, j: nat)
    requires Ordered(users, s) && i < |s| && j < |s|
    ensures Sooner(users, s[i], s[j]) <==> i < j
    ensures s[i] == s[j] <==> i == j
  {
  }

  lemma {:induction false} Beyond(users: Users, a: seq<UserId>, b: seq<UserId>, i: nat) returns (t: nat)
    requires Ordered(users, a) && Ordered(users, b) && (forall u :: u in a ==> u in b) && i < |a|
    ensures i <= t < |b| && b[t] == a[i]
  {
    assert a[i] in b;
    t :| 0 <= t < |b| && b[t] == a[i];
    if i > 0 {
      var p := Beyond(users, a, b, i - 1);
      Positions(users, a, i - 1, i);
      Positions(users, b, p, t);
    }
  }

  /** A shared row at the same place: everything before it is shared too. */
  lemma {:induction false} SharedPrefix(users: Users, a: seq<UserId>, b: seq<UserId>, i: nat)
    requires Ordered(users, a) && Ordered(users, b) && (forall u :: u in a ==> u in b)
    requires i < |a| && i < |b| && a[i] == b[i]
    ensures a[..i + 1] == b[..i + 1]
  {
    if i > 0 {
      var t := Beyond(users, a, b, i - 1);
      Positions(users, a, i - 1, i);
      Positions(users, b, t, i);
      SharedPrefix(users, a, b, i - 1);
      assert a[..i + 1] == a[..i] + [a[i]] && b[..i + 1] == b[..i] + [b[i]];
    }
  }

  /** No row of `b` alone comes before the end of the prefix: then it is shared. */
  lemma {:induction false} NothingSlipsIn(users: Users, a: seq<UserId>, b: seq<UserId>, m: nat, i: nat)
    requires Ordered(users, a) && Ordered(users, b) && (forall u :: u in a ==> u in b)
    requires 0 < m <= |a| && i <= m
    requires forall u :: u in b && u !in a ==> Sooner(users, a[m - 1], u)
    ensures i <= |b| && a[..i] == b[..i]
  {
    if i > 0 {
      NothingSlipsIn(users, a, b, m, i - 1);
      var t := Beyond(users, a, b, i - 1);
      NotBetween(users, a, b, m, i - 1);
      Positions(users, b, i - 1, t);
      assert a[..i] == a[..i - 1] + [a[i - 1]] && b[..i] == b[..i - 1] + [b[i - 1]];
    }
  }

  lemma NotBetween(users: Users, a: seq<UserId>, b: seq<UserId>, m: nat, i: nat)
    requires Ordered(users, a) && Ordered(users, b) && i < m <= |a| && i < |b| && a[..i] == b[..i]
    requires forall u :: u in b && u !in a ==> Sooner(users, a[m - 1], u)
    ensures !Sooner(users, b[i], a[i])
  {
    Positions(users, a, i, m - 1);
    if b[i] in a {
      var k :| 0 <= k < |a| && a[k] == b[i];
      Positions(users, a, k, i);
      if k < i {
        assert a[..i][k] == b[..i][k];
        Positions(users, b, k, i);
      }
    }
  }

  /** Rows that arrived between two snapshots come after `row`. */
  ghost predicate NewcomersAfter(users: Users, users': Users, f: Filter, row: UserId) {
    forall u {:trigger u in Rows(users', f)} :: u in Rows(users', f) && u !in Rows(users, f) ==> Sooner(users', row, u)
  }

  lemma OldOrder(users: Users, users': Users, f: Filter)
    requires f.since.Some? && Grown(users, users', f)
    ensures Ordered(users', Listing(users, f)) && Ordered(users', Listing(users', f))
    ensures forall u :: u in Listing(users, f) ==> u in Listing(users', f)
  {
    var s := Listing(users, f);
    forall i | 0 <= i < |s| ensures s[i] in Rows(users', f) && users'[s[i]].createdAt == users[s[i]].createdAt {
      assert s[i] in Rows(users, f);
    }
    forall i, j | 0 <= i < j < |s| ensures Sooner(users', s[i], s[j]) {
      assert Sooner(users, s[i], s[j]);
    }
  }

  lemma SettledRow(users: Users, users': Users, f: Filter, m: nat)
    requires f.since.Some? && Grown(users, users', f) && 0 < m <= |Listing(users, f)| && m <= |Listing(users', f)|
    requires Listing(users, f)[m - 1] == Listing(users', f)[m - 1]
    ensures Listing(users, f)[..m] == Listing(users', f)[..m]
    ensures NewcomersAfter(users, users', f, Listing(users, f)[m - 1])
  {
    var a, b := Listing(users, f), Listing(users', f);
    OldOrder(users, users', f);
    SharedPrefix(users', a, b, m - 1);
    forall u {:trigger u in Rows(users', f)} | u in Rows(users', f) && u !in Rows(users, f)
      ensures Sooner(users', a[m - 1], u) {
      OutsidePrefix(users', a, b, m, u);
    }
  }

  lemma OutsidePrefix(users: Users, a: seq<UserId>, b: seq<UserId>, m: nat, u: UserId)
    requires Ordered(users, b) && 0 < m <= |a| && m <= |b| && a[..m] == b[..m] && u in b && u !in a
    ensures Sooner(users, a[m - 1], u)
  {
    var t :| 0 <= t < |b| && b[t] == u;
    assert forall k :: 0 <= k < m ==> a[..m][k] == a[k] && b[..m][k] == b[k];
    Positions(users, b, m - 1, t);
  }

  lemma SettledPrefix(users: Users, users': Users, f: Filter, m: nat)
    requires f.since.Some? && Grown(users, users', f) && 0 < m <= |Listing(users, f)|
    requires NewcomersAfter(users, users', f, Listing(users, f)[m - 1])
    ensures m <= |Listing(users', f)| && Listing(users, f)[..m] == Listing(users', f)[..m]
  {
    var a, b := Listing(users, f), Listing(users', f);
    OldOrder(users, users', f);
    forall u | u in b && u !in a ensures Sooner(users', a[m - 1], u) {
      assert u in Rows(users', f) && u !in Rows(users, f);
    }
    NothingSlipsIn(users', a, b, m, m);
  }

  /** The row that ends page `k + 1` of a listing. */
  function Boundary(view: seq<UserId>, size: nat, k: nat): UserId
    requires size > 0 && Full(view, size, k)
  {
    view[Span(size, k + 1) - 1]
  }

  predicate Settled(view: seq<UserId>, b: seq<UserId>, size: nat, k: nat) {
    Span(size, k + 1) <= |view| && Span(size, k + 1) <= |b| && view[..Span(size, k + 1)] == b[..Span(size, k + 1)]
  }

  /** Appending settled pages builds the prefix of `b`. */
  lemma {:induction false} WalkPrefix(views: seq<seq<UserId>>, b: seq<UserId>, size: nat)
    requires forall k :: 0 <= k < |views| ==> Settled(views[k], b, size, k)
    ensures Span(size, |views|) <= |b| && Walked(views, size) == b[..Span(size, |views|)]
  {
    if views != [] {
      var k := |views| - 1;
      assert forall j :: 0 <= j < k ==> views[..k][j] == views[j];
      WalkPrefix(views[..k], b, size);
      PageAppended(views[k], b, size, k);
    }
  }

  lemma PageAppended(view: seq<UserId>, b: seq<UserId>, size: nat, k: nat)
    requires Settled(view, b, size, k)
    ensures Span(size, k) <= |b| && b[..Span(size, k)] + Page(view, k + 1, size) == b[..Span(size, k + 1)]
  {
    var m, e := Span(size, k), Span(size, k + 1);
    assert Page(view, k + 1, size) == view[..e][m..];
    assert b[..e] == b[..m] + b[..e][m..];
  }

  lemma {:induction false} WalkLength(views: seq<seq<UserId>>, size: nat)
    requires forall k :: 0 <= k < |views| ==> Full(views[k], size, k)
    ensures |Walked(views, size)| == Span(size, |views|)
  {
    if views != [] {
      var n := |views| - 1;
      assert forall j :: 0 <= j < n ==> views[..n][j] == views[j];
      WalkLength(views[..n], size);
      assert Full(views[n], size, n);
    }
  }

  lemma LastOfPage(w: seq<UserId>, view: seq<UserId>, size: nat, n: nat)
    requires size > 0 && |w| == Span(size, n) && Full(view, size, n)
    ensures var longer := w + Page(view, n + 1, size);
            0 < Span(size, n + 1) <= |longer| && longer[Span(size, n + 1) - 1] == Boundary(view, size, n)
  {
  }

  /** The last row of page `k + 1` stays where the walk put it. */
  lemma {:induction false} WalkAt(views: seq<seq<UserId>>, size: nat, k: nat)
    requires size > 0 && forall j :: 0 <= j < |views| ==> Full(views[j], size, j)
    requires k < |views|
    ensures 0 < Span(size, k + 1) <= |Walked(views, size)|
    ensures Walked(views, size)[Span(size, k + 1) - 1] == Boundary(views[k], size, k)
  {
    var n := |views| - 1;
    assert forall j :: 0 <= j < n ==> views[..n][j] == views[j];
    WalkLength(views[..n], size);
    assert Full(views[n], size, n) && Full(views[k], size, k);
    LastOfPage(Walked(views[..n], size), views[n], size, n);
    if k < n { WalkAt(views[..n], size, k); }
  }

  lemma WalkComplete(views: seq<seq<UserId>>, b: seq<UserId>, size: nat)
    requires StopsAtShortPage(views, size) && views[|views| - 1] == b
    requires forall k :: 0 <= k < |views| - 1 ==> Settled(views[k], b, size, k)
    ensures Walked(views, size) == b
  {
    var n := |views| - 1;
    assert forall j :: 0 <= j < n ==> views[..n][j] == views[j];
    WalkPrefix(views[..n], b, size);
    assert Page(b, n + 1, size) == b[Span(size, n)..];
  }

  lemma WalkedBoundary(views: seq<seq<UserId>>, b: seq<UserId>, size: nat, k: nat)
    requires size > 0 && StopsAtShortPage(views, size) && k < |views| - 1
    requires Walked(views, size) == b
    ensures 0 < Span(size, k + 1) <= |b| && Full(views[k], size, k)
            && Boundary(views[k], size, k) == b[Span(size, k + 1) - 1]
  {
    var n := |views| - 1;
    assert forall j :: 0 <= j < n ==> views[..n][j] == views[j];
    WalkAt(views[..n], size, k);
    assert Walked(views, size) == Walked(views[..n], size) + Page(views[n], n + 1, size);
  }

  /** Only later rows arrive after the fetch of this full page. */
  ghost predicate BoundaryHolds(users: Users, users': Users, f: Filter, size: nat, k: nat) {
    size > 0 && Full(Listing(users, f), size, k)
        && NewcomersAfter(users, users', f, Boundary(Listing(users, f), size, k))
  }

  ghost predicate BoundariesHold(snaps: seq<Users>, f: Filter, size: nat) {
    forall k :: 0 <= k < |snaps| - 1 ==> BoundaryHolds(snaps[k], snaps[|snaps| - 1], f, size, k)
  }

  ghost predicate AreViews(views: seq<seq<UserId>>, snaps: seq<Users>, f: Filter) {
    |views| == |snaps| > 0 && forall k :: 0 <= k < |snaps| ==> views[k] == Listing(snaps[k], f)
  }

  lemma HeldIsSettled(users: Users, users': Users, f: Filter, size: nat, k: nat)
    requires f.since.Some? && Grown(users, users', f) && BoundaryHolds(users, users', f, size, k)
    ensures Settled(Listing(users, f), Listing(users', f), size, k)
  {
    SettledPrefix(users, users', f, Span(size, k + 1));
  }

  lemma WalkedIsHeld(views: seq<seq<UserId>>, users: Users, users': Users, f: Filter, size: nat, k: nat)
    requires f.since.Some? && Grown(users, users', f) && size > 0
    requires StopsAtShortPage(views, size) && k < |views| - 1 && views[k] == Listing(users, f)
    requires Walked(views, size) == Listing(users', f)
    ensures BoundaryHolds(users, users', f, size, k)
  {
    WalkedBoundary(views, Listing(users', f), size, k);
    SettledBoundary(users, users', f, size, k);
  }

  lemma SettledBoundary(users: Users, users': Users, f: Filter, size: nat, k: nat)
    requires f.since.Some? && Grown(users, users', f) && size > 0 && Full(Listing(users, f), size, k)
    requires Span(size, k + 1) <= |Listing(users', f)|
    requires Boundary(Listing(users, f), size, k) == Listing(users', f)[Span(size, k + 1) - 1]
    ensures BoundaryHolds(users, users', f, size, k)
  {
    SettledRow(users, users', f, Span(size, k + 1));
  }

  /** A walk ends with the full listing, nobody skipped and nobody repeated,
      exactly when no account arrives before a page boundary already fetched. */
  lemma WalkIff(views: seq<seq<UserId>>, snaps: seq<Users>, f: Filter, size: nat)
    requires size > 0 && f.since.Some? && AreViews(views, snaps, f) && StopsAtShortPage(views, size)
    requires forall k :: 0 <= k < |snaps| ==> Grown(snaps[k], snaps[|snaps| - 1], f)
    ensures Walked(views, size) == Listing(snaps[|snaps| - 1], f) <==> BoundariesHold(snaps, f, size)
  {
    var last := snaps[|snaps| - 1];
    if Walked(views, size) == Listing(last, f) {
      forall k | 0 <= k < |snaps| - 1 ensures BoundaryHolds(snaps[k], last, f, size, k) {
        WalkedIsHeld(views, snaps[k], last, f, size, k);
      }
    }
    if BoundariesHold(snaps, f, size) {
      forall k | 0 <= k < |snaps| - 1 ensures Settled(views[k], Listing(last, f), size, k) {
        HeldIsSettled(snaps[k], last, f, size, k);
      }
      WalkComplete(views, Listing(last, f), size);
    }
  }

  // ---------------------------------------------------------------------
  // Interrupting a walk and resuming from the last date seen

  ghost predicate AllFull(views: seq<seq<UserId>>, size: nat) {
    |views| > 0 && size > 0 && forall k :: 0 <= k < |views| ==> Full(views[k], size, k)
  }

  /** The listings of a growing table, in the order of the last one. */
  ghost predicate Nested(users: Users, views: seq<seq<UserId>>) {
    && (forall k :: 0 <= k < |views| ==> Ordered(users, views[k]))
    && (forall k, u {:trigger u in views[k]} :: 0 < k < |views| && u in views[k - 1] ==> u in views[k])
  }

  /** At fetch `k`, account `u` was not on the pages already read. */
  ghost predicate Unpassed(view: seq<UserId>, size: nat, k: nat, u: UserId) {
    exists i :: Span(size, k) <= i < |view| && view[i] == u
  }

  lemma {:induction false} WalkHolds(views: seq<seq<UserId>>, size: nat, k: nat, u: UserId)
    requires k < |views| && u in Page(views[k], k + 1, size)
    ensures u in Walked(views, size)
  {
    if k < |views| - 1 {
      assert views[..|views| - 1][k] == views[k];
      WalkHolds(views[..|views| - 1], size, k, u);
    }
  }

  lemma {:induction false} WalkHeld(views: seq<seq<UserId>>, size: nat, u: UserId) returns (k: nat)
    requires u in Walked(views, size)
    ensures k < |views| && u in Page(views[k], k + 1, size)
  {
    k := |views| - 1;
    if u !in Page(views[k], k + 1, size) {
      k := WalkHeld(views[..k], size, u);
    }
  }

  /** Rows only move back: one not yet passed is read or still ahead. */
  lemma {:induction false} Drift(users: Users, views: seq<seq<UserId>>, size: nat, k: nat, u: UserId, j: nat)
    returns (t: nat)
    requires Nested(users, views) && k <= j < |views| && Unpassed(views[k], size, k, u) && u !in Walked(views, size)
    ensures Span(size, j + 1) <= t < |views[j]| && views[j][t] == u
  {
    if j == k {
      t :| Span(size, k) <= t < |views[k]| && views[k][t] == u;
    } else {
      var p := Drift(users, views, size, k, u, j - 1);
      assert forall v :: v in views[j - 1] ==> v in views[j];
      t := Beyond(users, views[j - 1], views[j], p);
    }
    if t < Span(size, j + 1) {
      assert Page(views[j], j + 1, size)[t - Span(size, j)] == u;
      WalkHolds(views, size, j, u);
    }
  }

  lemma AheadIsLater(users: Users, views: seq<seq<UserId>>, size: nat, k: nat, u: UserId)
    requires Nested(users, views) && AllFull(views, size) && k < |views| && Unpassed(views[k], size, k, u)
    requires u !in Walked(views, size)
    ensures Sooner(users, Boundary(views[|views| - 1], size, |views| - 1), u)
  {
    var n := |views| - 1;
    var t := Drift(users, views, size, k, u, n);
    assert Full(views[n], size, n);
    Positions(users, views[n], Span(size, n + 1) - 1, t);
  }

  lemma ReadIsUnpassed(views: seq<seq<UserId>>, size: nat, u: UserId) returns (k: nat)
    requires u in Walked(views, size)
    ensures k < |views| && Unpassed(views[k], size, k, u)
  {
    k := WalkHeld(views, size, u);
    var page := Page(views[k], k + 1, size);
    var i :| 0 <= i < |page| && page[i] == u;
    assert views[k][Span(size, k) + i] == u;
  }

  /** The interrupted walk and a listing from the date of its last row show
      every account there is. */
  ghost predicate ResumedSeesAll(views: seq<seq<UserId>>, users: Users, f: Filter, size: nat, date: Time) {
    forall u :: u in Listing(users, f) ==> u in Walked(views, size) || u in Listing(users, f.(since := Some(date)))
  }

  /** Every earlier account was ahead of the walk at some fetch. */
  ghost predicate NonePassedUnseen(views: seq<seq<UserId>>, users: Users, f: Filter, size: nat, date: Time) {
    forall u {:trigger u in Rows(users, f)} :: u in Rows(users, f) && users[u].createdAt < date ==>
      exists k :: 0 <= k < |views| && Unpassed(views[k], size, k, u)
  }

  /** Resuming an interrupted walk from the last date it saw misses nobody
      exactly when no account of an earlier date arrived behind the walk, on
      pages already read at every later fetch. */
  lemma ResumeIff(views: seq<seq<UserId>>, users: Users, f: Filter, size: nat, date: Time)
    requires f.since.Some? && f.since.value <= date && AllFull(views, size) && Nested(users, views)
    requires var row := Boundary(views[|views| - 1], size, |views| - 1); row in users && users[row].createdAt == date
    ensures ResumedSeesAll(views, users, f, size, date) <==> NonePassedUnseen(views, users, f, size, date)
  {
    var resumed := f.(since := Some(date));
    forall u | u in Rows(users, f) ensures u in Listing(users, resumed) <==> users[u].createdAt >= date {
      assert Matches(f, users[u]);
    }
    if ResumedSeesAll(views, users, f, size, date) {
      forall u {:trigger u in Rows(users, f)} | u in Rows(users, f) && users[u].createdAt < date
        ensures exists k :: 0 <= k < |views| && Unpassed(views[k], size, k, u)
      {
        assert u in Listing(users, f) && u in Walked(views, size);
        var k := ReadIsUnpassed(views, size, u);
      }
    }
    if NonePassedUnseen(views, users, f, size, date) {
      forall u | u in Listing(users, f) && u !in Walked(views, size) ensures u in Listing(users, resumed) {
        assert u in Rows(users, f);
        if users[u].createdAt < date {
          var k :| 0 <= k < |views| && Unpassed(views[k], size, k, u);
          AheadIsLater(users, views, size, k, u);
        }
      }
    }
  }

  // ---------------------------------------------------------------------
  // Walks over runs of the service

  /** The clock ticks between any earlier account and each registration. */
  ghost predicate DistinctInstants(s0: Store, run: seq<Command>) {
    run == [] || (DistinctInstants(s0, run[..|run| - 1])
        && AfterAll(Exec(s0, run[..|run| - 1]).db.users, run[|run| - 1]))
  }

  ghost predicate AfterAll(users: Users, c: Command) {
    c.RegisterUser? ==> forall u {:trigger u in users} :: u in users ==> users[u].createdAt < c.now
  }

  lemma NewcomerStep(s: Store, c: Command, base: Users, u: UserId, v: UserId)
    requires Admissible(s, c) && AfterAll(s.db.users, c) && Grows(base, s.db.users)
    requires u in base && v !in base && v in Step(s, c).store.db.users
    requires v in s.db.users ==> base[u].createdAt < s.db.users[v].createdAt
    ensures base[u].createdAt < Step(s, c).store.db.users[v].createdAt
  {
    StepGrows(s, c);
    assert u in s.db.users;
  }

  lemma {:induction false} NewcomersLater(s0: Store, run: seq<Command>, i: nat, u: UserId, v: UserId)
    requires ValidRun(s0, run) && i <= |run| && DistinctInstants(s0, run)
    requires u in Exec(s0, run[..i]).db.users && v !in Exec(s0, run[..i]).db.users && v in Exec(s0, run).db.users
    ensures Exec(s0, run[..i]).db.users[u].createdAt < Exec(s0, run).db.users[v].createdAt
  {
    assert run[..|run|] == run;
    if i < |run| {
      var past := run[..|run| - 1];
      assert past[..i] == run[..i];
      RunGrows(s0, past, i);
      if v in Exec(s0, past).db.users { NewcomersLater(s0, past, i, u, v); }
      NewcomerStep(Exec(s0, past), run[|run| - 1], Exec(s0, run[..i]).db.users, u, v);
    }
  }

  /** The filter of the backfill route. */
  function Since(date: Time): Filter {
    Filter(None, None, false, Some(date))
  }

  ghost predicate Cuts(run: seq<Command>, cuts: seq<nat>) {
    && cuts != []
    && (forall k :: 0 <= k < |cuts| ==> cuts[k] <= |run|)
    && (forall k :: 0 <= k < |cuts| ==> cuts[k] <= cuts[|cuts| - 1])
  }

  ghost function UsersAfter(s0: Store, run: seq<Command>, n: nat): Users
    requires n <= |run|
  {
    Exec(s0, run[..n]).db.users
  }

  /** The users table at each fetch; fetch `k` comes after `cuts[k]` commands. */
  ghost predicate AreSnapshots(snaps: seq<Users>, s0: Store, run: seq<Command>, cuts: seq<nat>) {
    Cuts(run, cuts) && |snaps| == |cuts| && forall k :: 0 <= k < |cuts| ==> snaps[k] == UsersAfter(s0, run, cuts[k])
  }

  lemma {:induction false} ValidPrefix(s0: Store, run: seq<Command>, j: nat)
    requires ValidRun(s0, run) && j <= |run|
    ensures ValidRun(s0, run[..j])
    ensures DistinctInstants(s0, run) ==> DistinctInstants(s0, run[..j])
  {
    if j == |run| {
      assert run[..j] == run;
    } else {
      assert run[..|run| - 1][..j] == run[..j];
      ValidPrefix(s0, run[..|run| - 1], j);
    }
  }

  lemma SnapshotGrown(s0: Store, run: seq<Command>, i: nat, j: nat, users: Users, users': Users, date: Time)
    requires ValidRun(s0, run) && i <= j <= |run| && users == UsersAfter(s0, run, i) && users' == UsersAfter(s0, run, j)
    ensures Grown(users, users', Since(date))
  {
    ValidPrefix(s0, run, j);
    assert run[..j][..i] == run[..i];
    RunGrows(s0, run[..j], i);
  }

  lemma OneSnapshotGrown(s0: Store, run: seq<Command>, cuts: seq<nat>, snaps: seq<Users>, k: nat, date: Time)
    requires ValidRun(s0, run) && AreSnapshots(snaps, s0, run, cuts) && k < |cuts|
    ensures Grown(snaps[k], snaps[|snaps| - 1], Since(date))
  {
    SnapshotGrown(s0, run, cuts[k], cuts[|cuts| - 1], snaps[k], snaps[|snaps| - 1], date);
  }

  lemma SnapshotsGrown(s0: Store, run: seq<Command>, cuts: seq<nat>, snaps: seq<Users>, date: Time)
    requires ValidRun(s0, run) && AreSnapshots(snaps, s0, run, cuts)
    ensures forall k :: 0 <= k < |snaps| ==> Grown(snaps[k], snaps[|snaps| - 1], Since(date))
  {
    forall k | 0 <= k < |snaps| ensures Grown(snaps[k], snaps[|snaps| - 1], Since(date)) {
      OneSnapshotGrown(s0, run, cuts, snaps, k, date);
    }
  }

  /** Whatever commands run between the fetches, a backfill is complete exactly
      when no registration lands before a boundary already fetched. */
  lemma BackfillIff(s0: Store, run: seq<Command>, cuts: seq<nat>, snaps: seq<Users>, views: seq<seq<UserId>>,
                    date: Time, size: nat)
    requires ValidRun(s0, run) && AreSnapshots(snaps, s0, run, cuts) && size > 0
    requires AreViews(views, snaps, Since(date)) && StopsAtShortPage(views, size)
    ensures Walked(views, size) == Listing(snaps[|snaps| - 1], Since(date)) <==>
            BoundariesHold(snaps, Since(date), size)
  {
    SnapshotsGrown(s0, run, cuts, snaps, date);
    WalkIff(views, snaps, Since(date), size);
  }

  lemma ClockHoldsAll(s0: Store, run: seq<Command>, cuts: seq<nat>, snaps: seq<Users>, views: seq<seq<UserId>>,
                      date: Time, size: nat)
    requires ValidRun(s0, run) && DistinctInstants(s0, run) && AreSnapshots(snaps, s0, run, cuts) && size > 0
    requires AreViews(views, snaps, Since(date)) && StopsAtShortPage(views, size)
    ensures BoundariesHold(snaps, Since(date), size)
  {
    forall k | 0 <= k < |snaps| - 1 ensures BoundaryHolds(snaps[k], snaps[|snaps| - 1], Since(date), size, k) {
      ClockHolds(s0, run, cuts[k], cuts[|cuts| - 1], date, views[k], size, k);
    }
  }

  /** With a clock that tells registrations apart, nobody is skipped or repeated. */
  lemma BackfillComplete(s0: Store, run: seq<Command>, cuts: seq<nat>, snaps: seq<Users>, views: seq<seq<UserId>>,
                         date: Time, size: nat)
    requires ValidRun(s0, run) && DistinctInstants(s0, run) && AreSnapshots(snaps, s0, run, cuts) && size > 0
    requires AreViews(views, snaps, Since(date)) && StopsAtShortPage(views, size)
    ensures Walked(views, size) == Listing(snaps[|snaps| - 1], Since(date))
  {
    ClockHoldsAll(s0, run, cuts, snaps, views, date, size);
    BackfillIff(s0, run, cuts, snaps, views, date, size);
  }

  lemma ClockHolds(s0: Store, run: seq<Command>, i: nat, j: nat, date: Time, view: seq<UserId>, size: nat, k: nat)
    requires i <= j <= |run| && ValidRun(s0, run) && DistinctInstants(s0, run)
    requires size > 0 && Full(view, size, k) && view == Listing(UsersAfter(s0, run, i), Since(date))
    ensures BoundaryHolds(UsersAfter(s0, run, i), UsersAfter(s0, run, j), Since(date), size, k)
  {
    ValidPrefix(s0, run, j);
    LaterThanAll(s0, run, i, j, date, Since(date), Boundary(view, size, k));
  }

  lemma LaterThanAll(s0: Store, run: seq<Command>, i: nat, j: nat, date: Time, f: Filter, row: UserId)
    requires i <= j <= |run| && ValidRun(s0, run[..j]) && DistinctInstants(s0, run[..j])
    requires f == Since(date) && row in Listing(Exec(s0, run[..i]).db.users, f)
    ensures NewcomersAfter(Exec(s0, run[..i]).db.users, Exec(s0, run[..j]).db.users, f, row)
  {
    var users, users' := Exec(s0, run[..i]).db.users, Exec(s0, run[..j]).db.users;
    assert run[..j][..i] == run[..i];
    RunGrows(s0, run[..j], i);
    forall u {:trigger u in Rows(users', f)} | u in Rows(users', f) && u !in Rows(users, f)
      ensures Sooner(users', row, u) {
      NewcomersLater(s0, run[..j], i, row, u);
    }
  }

  // ---------------------------------------------------------------------
  // Interrupted walks over runs

  /** Fetches happen in the order of their pages, and `later` after them all. */
  ghost predicate InTurn(cuts: seq<nat>, later: nat, run: seq<Command>) {
    (forall j, k :: 0 <= j <= k < |cuts| ==> cuts[j] <= cuts[k]) && (forall k :: 0 <= k < |cuts| ==> cuts[k] <= later)
        && later <= |run|
  }

  lemma NestedAt(s0: Store, run: seq<Command>, i: nat, j: nat, later: nat, date: Time)
    requires ValidRun(s0, run) && i <= j <= later <= |run|
    ensures Ordered(UsersAfter(s0, run, later), Listing(UsersAfter(s0, run, i), Since(date)))
    ensures forall u :: u in Listing(UsersAfter(s0, run, i), Since(date)) ==>
            u in Listing(UsersAfter(s0, run, j), Since(date))
  {
    var a, b, c := UsersAfter(s0, run, i), UsersAfter(s0, run, j), UsersAfter(s0, run, later);
    SnapshotGrown(s0, run, i, j, a, b, date);
    SnapshotGrown(s0, run, i, later, a, c, date);
    OldOrder(a, b, Since(date));
    OldOrder(a, c, Since(date));
  }

  lemma NestedRun(s0: Store, run: seq<Command>, cuts: seq<nat>, snaps: seq<Users>, views: seq<seq<UserId>>, later: nat,
                  date: Time)
    requires ValidRun(s0, run) && AreSnapshots(snaps, s0, run, cuts) && AreViews(views, snaps, Since(date))
             && InTurn(cuts, later, run)
    ensures Nested(UsersAfter(s0, run, later), views)
  {
    forall k | 0 <= k < |views| ensures Ordered(UsersAfter(s0, run, later), views[k]) {
      NestedAt(s0, run, cuts[k], cuts[k], later, date);
    }
    forall k, u {:trigger u in views[k]} | 0 < k < |views| && u in views[k - 1] ensures u in views[k] {
      NestedAt(s0, run, cuts[k - 1], cuts[k], later, date);
    }
  }

  /** The interrupted walk, and the date it resumes from. */
  ghost predicate Interrupted(s0: Store, run: seq<Command>, cuts: seq<nat>, snaps: seq<Users>, views: seq<seq<UserId>>,
                              later: nat, since: Time, size: nat, date: Time)
  {
    && ValidRun(s0, run) && AreSnapshots(snaps, s0, run, cuts) && InTurn(cuts, later, run)
    && AreViews(views, snaps, Since(since)) && AllFull(views, size)
    && var row := Boundary(views[|views| - 1], size, |views| - 1);
       row in snaps[|snaps| - 1] && snaps[|snaps| - 1][row].createdAt == date
  }

  lemma InterruptedRow(s0: Store, run: seq<Command>, cuts: seq<nat>, snaps: seq<Users>, views: seq<seq<UserId>>,
                       later: nat, since: Time, size: nat, date: Time)
    requires Interrupted(s0, run, cuts, snaps, views, later, since, size, date)
    ensures var row, users := Boundary(views[|views| - 1], size, |views| - 1), UsersAfter(s0, run, later);
            since <= date && row in users && users[row].createdAt == date
  {
    var n := |snaps| - 1;
    SnapshotGrown(s0, run, cuts[n], later, snaps[n], UsersAfter(s0, run, later), since);
    assert Full(views[n], size, n);
    assert Boundary(views[n], size, n) in Listing(snaps[n], Since(since));
    assert Boundary(views[n], size, n) in Rows(snaps[n], Since(since));
  }

  /** Over any run: what a resumed backfill misses is exactly what arrived
      behind the walk with an earlier date. */
  lemma ResumedBackfillIff(s0: Store, run: seq<Command>, cuts: seq<nat>, snaps: seq<Users>, views: seq<seq<UserId>>,
                           later: nat, since: Time, size: nat, date: Time)
    requires Interrupted(s0, run, cuts, snaps, views, later, since, size, date)
    ensures ResumedSeesAll(views, UsersAfter(s0, run, later), Since(since), size, date) <==>
            NonePassedUnseen(views, UsersAfter(s0, run, later), Since(since), size, date)
  {
    NestedRun(s0, run, cuts, snaps, views, later, since);
    InterruptedRow(s0, run, cuts, snaps, views, later, since, size, date);
    ResumeIff(views, UsersAfter(s0, run, later), Since(since), size, date);
  }

  lemma {:induction false} FirstSeen(snaps: seq<Users>, u: UserId) returns (k: nat)
    ensures k <= |snaps| && (k < |snaps| ==> u in snaps[k])
    ensures forall j :: 0 <= j < k ==> u !in snaps[j]
  {
    if snaps == [] {
      k := 0;
    } else {
      k := FirstSeen(snaps[..|snaps| - 1], u);
      if k == |snaps| - 1 && u !in snaps[k] { k := |snaps|; }
    }
  }

  /** A newcomer lands behind every row of the fetch before it came. */
  lemma LandsAhead(s0: Store, run: seq<Command>, i: nat, j: nat, since: Time, size: nat, k: nat, u: UserId)
    requires i <= j <= |run| && ValidRun(s0, run) && DistinctInstants(s0, run) && size > 0 && k > 0
    requires Full(Listing(UsersAfter(s0, run, i), Since(since)), size, k - 1)
    requires u !in UsersAfter(s0, run, i) && u in Rows(UsersAfter(s0, run, j), Since(since))
    ensures Unpassed(Listing(UsersAfter(s0, run, j), Since(since)), size, k, u)
  {
    var f, users, users' := Since(since), UsersAfter(s0, run, i), UsersAfter(s0, run, j);
    var a, b := Listing(users, f), Listing(users', f);
    ValidPrefix(s0, run, j);
    LaterThanAll(s0, run, i, j, since, f, a[Span(size, k) - 1]);
    SnapshotGrown(s0, run, i, j, users, users', since);
    OldOrder(users, users', f);
    var t := BehindRow(users', a, b, Span(size, k), u);
  }

  lemma BehindRow(users: Users, a: seq<UserId>, b: seq<UserId>, m: nat, u: UserId) returns (t: nat)
    requires Ordered(users, a) && Ordered(users, b) && (forall v :: v in a ==> v in b)
    requires 0 < m <= |a| && u in b && Sooner(users, a[m - 1], u)
    ensures m <= t < |b| && b[t] == u
  {
    var p := Beyond(users, a, b, m - 1);
    t :| 0 <= t < |b| && b[t] == u;
    Positions(users, b, p, t);
  }

  lemma FirstPageAhead(view: seq<UserId>, size: nat, u: UserId)
    requires u in view
    ensures Unpassed(view, size, 0, u)
  {
    var i :| 0 <= i < |view| && view[i] == u;
    assert Span(size, 0) <= i;
  }

  lemma NotMissed(s0: Store, run: seq<Command>, cuts: seq<nat>, snaps: seq<Users>, views: seq<seq<UserId>>,
                  later: nat, since: Time, size: nat, date: Time, u: UserId)
    requires Interrupted(s0, run, cuts, snaps, views, later, since, size, date) && DistinctInstants(s0, run)
    requires u in Rows(UsersAfter(s0, run, later), Since(since)) && UsersAfter(s0, run, later)[u].createdAt < date
    ensures exists k :: 0 <= k < |views| && Unpassed(views[k], size, k, u)
  {
    var k := FirstSeen(snaps, u);
    var n := |snaps| - 1;
    if k > n {
      DatedAfter(s0, run, cuts[n], later, Boundary(views[n], size, n), u);
    } else {
      StillMatches(s0, run, cuts[k], later, since, u);
      if k == 0 {
        FirstPageAhead(views[0], size, u);
      } else {
        LandsAhead(s0, run, cuts[k - 1], cuts[k], since, size, k, u);
      }
    }
  }

  lemma DatedAfter(s0: Store, run: seq<Command>, i: nat, j: nat, row: UserId, u: UserId)
    requires i <= j <= |run| && ValidRun(s0, run) && DistinctInstants(s0, run)
    requires row in UsersAfter(s0, run, i) && u !in UsersAfter(s0, run, i) && u in UsersAfter(s0, run, j)
    ensures UsersAfter(s0, run, i)[row].createdAt < UsersAfter(s0, run, j)[u].createdAt
  {
    ValidPrefix(s0, run, j);
    assert run[..j][..i] == run[..i];
    NewcomersLater(s0, run[..j], i, row, u);
  }

  lemma StillMatches(s0: Store, run: seq<Command>, i: nat, j: nat, since: Time, u: UserId)
    requires i <= j <= |run| && ValidRun(s0, run) && u in UsersAfter(s0, run, i)
             && u in Rows(UsersAfter(s0, run, j), Since(since))
    ensures u in Rows(UsersAfter(s0, run, i), Since(since))
  {
    ValidPrefix(s0, run, j);
    assert run[..j][..i] == run[..i];
    RunGrows(s0, run[..j], i);
  }

  /** With a clock that tells registrations apart, a backfill can be interrupted
      after any page and resumed at any time: nobody is missed. */
  lemma ResumedBackfillComplete(s0: Store, run: seq<Command>, cuts: seq<nat>, snaps: seq<Users>,
                                views: seq<seq<UserId>>,
                                later: nat, since: Time, size: nat, date: Time)
    requires Interrupted(s0, run, cuts, snaps, views, later, since, size, date) && DistinctInstants(s0, run)
    ensures ResumedSeesAll(views, UsersAfter(s0, run, later), Since(since), size, date)
  {
    ResumedBackfillIff(s0, run, cuts, snaps, views, later, since, size, date);
    var users := UsersAfter(s0, run, later);
    forall u {:trigger u in Rows(users, Since(since))} | u in Rows(users, Since(since)) && users[u].createdAt < date
      ensures exists k :: 0 <= k < |views| && Unpassed(views[k], size, k, u)
    {
      NotMissed(s0, run, cuts, snaps, views, later, since, size, date, u);
    }
  }

  lemma TwoPages(p: seq<UserId>, q: seq<UserId>)
    requires p == [2] && q == [1, 2]
    ensures Walked([p, q, q], 1) == [2, 2]
  {
    assert Span(1, 2) == 2 && Span(1, 1) == 1 && Span(1, 0) == 0;
    assert Page(p, 1, 1) == [2] && Page(q, 2, 1) == [2] && Page(q, 3, 1) == [];
    var one: seq<seq<UserId>>, two: seq<seq<UserId>>, three: seq<seq<UserId>> := [p], [p, q], [p, q, q];
    assert Walked(one[..0], 1) == [] && Walked(one, 1) == [2];
    assert two[..1] == one && Walked(two, 1) == [2, 2];
    assert three[..2] == two && Walked(three, 1) == Walked(two, 1) + Page(q, 3, 1);
  }

  lemma ListingOfOne(users: Users, f: Filter)
    requires f.since.Some? && Rows(users, f) == {2}
    ensures Listing(users, f) == [2]
  {
    var p := Listing(users, f);
    assert p[0] in p;
  }

  lemma ListingOfTwo(users: Users, f: Filter)
    requires f.since.Some? && Rows(users, f) == {1, 2} && users[1].createdAt == users[2].createdAt
    ensures Listing(users, f) == [1, 2]
  {
    var q := Listing(users, f);
    assert |q| == 2;
    assert q[0] in q && q[1] in q && Sooner(users, q[0], q[1]);
  }

  lemma FirstRegistration(s0: Store, p: Phone, id: UserId, now: Time)
    requires Genesis(s0) && s0.db.users == map[] && s0.clock <= now
    ensures var c := RegisterUser(p, None, id, now);
            && Admissible(s0, c) && Step(s0, c).store.clock == now
            && Step(s0, c).store.db.users == map[id := NewAccount(c)]
  {
    var c := RegisterUser(p, None, id, now);
    assert FindByPhone(s0.db.users, p).None?;
  }

  lemma SecondRegistration(s: Store, p: Phone, q: Phone, now: Time)
    requires p != q && s.clock == now && s.db.users == map[2 := NewAccount(RegisterUser(p, None, 2, now))]
    ensures var c := RegisterUser(q, None, 1, now);
            && Admissible(s, c)
            && Step(s, c).store.db.users == map[1 := NewAccount(c), 2 := NewAccount(RegisterUser(p, None, 2, now))]
            && Step(s, c).store.clock == now
  {
    assert FindByPhone(s.db.users, q).None?;
    assert NewAccount(RegisterUser(p, None, 2, now)).phone == p;
  }

  /** Two registrations in one instant, with a page fetched in between: the
      second account has the smaller id and lands on the page already read, so
      it is missed, and its neighbour comes twice. */
  lemma SameInstantSkips(s0: Store, p: Phone, q: Phone, now: Time, date: Time)
    requires Genesis(s0) && s0.db.users == map[] && s0.clock <= now && p != q && date <= now
    ensures var c1, c2 := RegisterUser(p, None, 2, now), RegisterUser(q, None, 1, now);
            var s1 := Step(s0, c1).store; var s2 := Step(s1, c2).store;
            var early, late := Listing(s1.db.users, Since(date)), Listing(s2.db.users, Since(date));
            && Admissible(s0, c1) && Admissible(s1, c2)
            && Walked([early, late, late], 1) == [2, 2] && late == [1, 2]
  {
    var c1, c2 := RegisterUser(p, None, 2, now), RegisterUser(q, None, 1, now);
    FirstRegistration(s0, p, 2, now);
    var s1 := Step(s0, c1).store;
    SecondRegistration(s1, p, q, now);
    var before, after := s1.db.users, Step(s1, c2).store.db.users;
    assert Rows(before, Since(date)) == {2} && Rows(after, Since(date)) == {1, 2};
    ListingOfOne(before, Since(date));
    ListingOfTwo(after, Since(date));
    TwoPages(Listing(before, Since(date)), Listing(after, Since(date)));
  }

  lemma ThreePages(p: seq<UserId>, q: seq<UserId>)
    requires p == [2] && q == [1, 2, 3]
    ensures Walked([p, q, q], 1) == [2, 2, 3]
  {
    assert Span(1, 2) == 2 && Span(1, 1) == 1 && Span(1, 0) == 0;
    assert Page(p, 1, 1) == [2] && Page(q, 2, 1) == [2] && Page(q, 3, 1) == [3];
    var one: seq<seq<UserId>>, two: seq<seq<UserId>>, three: seq<seq<UserId>> := [p], [p, q], [p, q, q];
    assert Walked(one[..0], 1) == [] && Walked(one, 1) == [2];
    assert two[..1] == one && Walked(two, 1) == [2, 2];
    assert three[..2] == two && Walked(three, 1) == Walked(two, 1) + Page(q, 3, 1);
  }

  lemma ListingOfThree(users: Users, f: Filter)
    requires f.since.Some? && Rows(users, f) == {1, 2, 3}
    requires users[1].createdAt == users[2].createdAt < users[3].createdAt
    ensures Listing(users, f) == [1, 2, 3]
  {
    var q := Listing(users, f);
    assert |q| == 3;
    assert q[0] in q && q[1] in q && q[2] in q;
    assert Sooner(users, q[0], q[1]) && Sooner(users, q[1], q[2]);
  }

  lemma ThirdRegistration(s: Store, r: Phone, now: Time)
    requires s.clock < now && 3 !in s.db.users && forall u :: u in s.db.users ==> s.db.users[u].phone != r
    ensures var c := RegisterUser(r, None, 3, now);
            Admissible(s, c) && Step(s, c).store.db.users == s.db.users[3 := NewAccount(c)]
  {
    assert FindByPhone(s.db.users, r).None?;
  }

  lemma ThreeRegistrations(s0: Store, p: Phone, q: Phone, r: Phone, now: Time)
    requires Genesis(s0) && s0.db.users == map[] && s0.clock <= now && p != q && r != p && r != q
    ensures var c1, c2 := RegisterUser(p, None, 2, now), RegisterUser(q, None, 1, now);
            var c3 := RegisterUser(r, None, 3, now + 1);
            var s1 := Step(s0, c1).store; var s2 := Step(s1, c2).store; var s3 := Step(s2, c3).store;
            && Admissible(s0, c1) && Admissible(s1, c2) && Admissible(s2, c3)
            && s1.db.users == map[2 := NewAccount(c1)]
            && s3.db.users == map[1 := NewAccount(c2), 2 := NewAccount(c1), 3 := NewAccount(c3)]
  {
    var c1, c2 := RegisterUser(p, None, 2, now), RegisterUser(q, None, 1, now);
    FirstRegistration(s0, p, 2, now);
    SecondRegistration(Step(s0, c1).store, p, q, now);
    ThirdRegistration(Step(Step(s0, c1).store, c2).store, r, now + 1);
  }

  lemma MissedForGood(before: Users, after: Users, now: Time)
    requires before.Keys == {2} && after.Keys == {1, 2, 3}
    requires before[2].createdAt == after[2].createdAt == after[1].createdAt == now && after[3].createdAt == now + 1
    ensures var early, late := Listing(before, Since(now)), Listing(after, Since(now));
            && Walked([early, late, late], 1) == [2, 2, 3] && 1 in late
            && !ResumedSeesAll([early, late, late], after, Since(now), 1, now + 1)
  {
    assert Rows(before, Since(now)) == {2} && Rows(after, Since(now)) == {1, 2, 3};
    ListingOfOne(before, Since(now));
    ListingOfThree(after, Since(now));
    ThreePages(Listing(before, Since(now)), Listing(after, Since(now)));
    assert 1 !in Rows(after, Since(now + 1));
  }

  /** The account missed in `SameInstantSkips` stays missed when the walk reads
      one page more, is interrupted there and resumes from the last date. */
  lemma SameInstantNotResumed(s0: Store, p: Phone, q: Phone, r: Phone, now: Time)
    requires Genesis(s0) && s0.db.users == map[] && s0.clock <= now && p != q && r != p && r != q
    ensures var c1, c2 := RegisterUser(p, None, 2, now), RegisterUser(q, None, 1, now);
            var c3 := RegisterUser(r, None, 3, now + 1);
            var s1 := Step(s0, c1).store; var s2 := Step(s1, c2).store; var s3 := Step(s2, c3).store;
            var early, late := Listing(s1.db.users, Since(now)), Listing(s3.db.users, Since(now));
            && Admissible(s0, c1) && Admissible(s1, c2) && Admissible(s2, c3)
            && Walked([early, late, late], 1) == [2, 2, 3] && 1 in late
            && !ResumedSeesAll([early, late, late], s3.db.users, Since(now), 1, now + 1)
  {
    var c1, c2, c3 := RegisterUser(p, None, 2, now), RegisterUser(q, None, 1, now), RegisterUser(r, None, 3, now + 1);
    ThreeRegistrations(s0, p, q, r, now);
    var s1 := Step(s0, c1).store;
    MissedForGood(s1.db.users, Step(Step(s1, c2).store, c3).store.db.users, now);
  }
}

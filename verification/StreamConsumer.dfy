/** The event bus seen from one subscribing module: a stream, its consumer group
    and the documented loop, with crashes anywhere between two calls. */
module StreamConsumer {
  import opened Domain

  const READ_COUNT: nat := 10
  const PENDING_COUNT: nat := 100

  /** An entry decodes to an event or does not; its id is its position. */
  type Entry = Option<Event>

  /** A consumer group with one consumer: `cursor` entries were delivered, the
      ids in `pending` were delivered and not acknowledged. */
  datatype Group = Group(stream: seq<Entry>, cursor: nat, pending: seq<nat>)

  function Ids(lo: nat, n: nat): (r: seq<nat>)
    ensures |r| == n && forall i :: 0 <= i < n ==> r[i] == lo + i
  {
    if n == 0 then [] else Ids(lo, n - 1) + [lo + n - 1]
  }

  function Without(ids: seq<nat>, id: nat): seq<nat> {
    if ids == [] then []
    else Without(ids[..|ids| - 1], id) + if ids[|ids| - 1] == id then [] else [ids[|ids| - 1]]
  }

  /** The ids whose entry decodes, in order. */
  function Decodable(stream: seq<Entry>, ids: seq<nat>): seq<nat> {
    if ids == [] then []
    else
      var last := ids[|ids| - 1];
      Decodable(stream, ids[..|ids| - 1]) + if last < |stream| && stream[last].Some? then [last] else []
  }

  function Fresh(g: Group, count: nat): seq<nat>
    requires g.cursor <= |g.stream|
  {
    Ids(g.cursor, Min(count, |g.stream| - g.cursor))
  }

  // ---------------------------------------------------------------------
  // The consumer object

  datatype Delivery = Delivery(id: nat, event: Event)

  function IdsOf(batch: seq<Delivery>): seq<nat> {
    seq(|batch|, i requires 0 <= i < |batch| => batch[i].id)
  }

  class RedisEventConsumer {
    var stream: seq<Entry>
    var cursor: nat
    var pending: seq<nat>

    function View(): Group
      reads this
    {
      Group(stream, cursor, pending)
    }

    ghost predicate Valid()
      reads this
    {
      cursor <= |stream| && forall i :: 0 <= i < |pending| ==> pending[i] < |stream|
    }

    constructor ()
      ensures Valid() && View() == Group([], 0, [])
    {
      stream, cursor, pending := [], 0, [];
    }

    /** Skips what it cannot decode; such entries stay pending. */
    method Decode(ids: seq<nat>) returns (events: seq<Delivery>)
      requires forall i :: 0 <= i < |ids| ==> ids[i] < |stream|
      ensures IdsOf(events) == Decodable(stream, ids)
      ensures forall d :: d in events ==> d.id < |stream| && stream[d.id] == Some(d.event)
    {
      events := [];
      for k := 0 to |ids|
        invariant IdsOf(events) == Decodable(stream, ids[..k])
        invariant forall d :: d in events ==> d.id < |stream| && stream[d.id] == Some(d.event)
      {
        assert ids[..k + 1][..k] == ids[..k];
        if stream[ids[k]].Some? {
          ghost var before := IdsOf(events);
          events := events + [Delivery(ids[k], stream[ids[k]].value)];
          assert IdsOf(events) == before + [ids[k]];
        }
      }
      assert ids[..|ids|] == ids;
    }

    /** Entries never delivered to this group; they become pending. */
    method Read(count: nat) returns (events: seq<Delivery>)
      requires Valid()
      modifies this`cursor, this`pending
      ensures Valid()
      ensures var ids := Fresh(old(View()), count);
              && IdsOf(events) == Decodable(stream, ids)
              && View() == old(View()).(cursor := old(cursor) + |ids|, pending := old(pending) + ids)
    {
      var ids := Ids(cursor, Min(count, |stream| - cursor));
      cursor := cursor + |ids|;
      pending := pending + ids;
      events := Decode(ids);
    }

    /** Entries delivered but never acknowledged, oldest first. */
    method ReadPending(count: nat) returns (events: seq<Delivery>)
      requires Valid()
      ensures IdsOf(events) == Decodable(stream, pending[..Min(count, |pending|)])
    {
      events := Decode(pending[..Min(count, |pending|)]);
    }

    method Ack(id: nat)
      requires Valid()
      modifies this`pending
      ensures Valid() && View() == old(View()).(pending := Without(old(pending), id))
    {
      WithoutKeeps(pending, id, |stream|);
      pending := Without(pending, id);
    }
  }

  lemma {:induction false} WithoutKeeps(ids: seq<nat>, id: nat, bound: nat)
    requires forall i :: 0 <= i < |ids| ==> ids[i] < bound
    ensures forall i :: 0 <= i < |Without(ids, id)| ==> Without(ids, id)[i] < bound
  {
    if ids != [] {
      WithoutKeeps(ids[..|ids| - 1], id, bound);
    }
  }

  // ---------------------------------------------------------------------
  // The loop as a state machine

  /** Down, or working through a batch; `handled` says the head of the batch was
      handled and not acknowledged yet. */
  datatype Phase = Down | Busy(batch: seq<nat>, handled: bool)

  /** `trace` is the history of handled ids. */
  datatype State = State(g: Group, phase: Phase, trace: seq<nat>)

  datatype Action = Publish(entry: Entry) | Crash | Start | Read | Handle | Ack

  const INITIAL: State := State(Group([], 0, []), Down, [])

  /** An action that is not enabled changes nothing. */
  function Apply(st: State, a: Action): State {
    match a
    case Publish(entry) => st.(g := st.g.(stream := st.g.stream + [entry]))
    case Crash => st.(phase := Down)
    case Start =>
      if !st.phase.Down? then st
      else st.(phase := Busy(Decodable(st.g.stream, st.g.pending[..Min(PENDING_COUNT, |st.g.pending|)]), false))
    case Read =>
      if st.phase != Busy([], false) || st.g.cursor > |st.g.stream| then st
      else
        var ids := Fresh(st.g, READ_COUNT);
        st.(g := st.g.(cursor := st.g.cursor + |ids|, pending := st.g.pending + ids),
            phase := Busy(Decodable(st.g.stream, ids), false))
    case Handle =>
      if !st.phase.Busy? || st.phase.handled || st.phase.batch == [] then st
      else st.(phase := st.phase.(handled := true), trace := st.trace + [st.phase.batch[0]])
    case Ack =>
      if !st.phase.Busy? || !st.phase.handled || st.phase.batch == [] then st
      else st.(phase := Busy(st.phase.batch[1..], false),
          g := st.g.(pending := Without(st.g.pending, st.phase.batch[0])))
  }

  function Run(st: State, actions: seq<Action>): State {
    if actions == [] then st else Apply(Run(st, actions[..|actions| - 1]), actions[|actions| - 1])
  }

  // ---------------------------------------------------------------------
  // Vocabulary of the claims

  /** The decodable ids in [lo, hi). */
  function Good(stream: seq<Entry>, lo: nat, hi: nat): seq<nat>
    requires hi <= |stream|
  {
    if hi <= lo then [] else Good(stream, lo, hi - 1) + if stream[hi - 1].Some? then [hi - 1] else []
  }

  /** How many of the first n entries do not decode. */
  function Bad(stream: seq<Entry>, n: nat): nat
    requires n <= |stream|
  {
    if n == 0 then 0 else Bad(stream, n - 1) + if stream[n - 1].None? then 1 else 0
  }

  /** What is pending once every decodable entry below p was acknowledged. */
  function Left(stream: seq<Entry>, p: nat, hi: nat): seq<nat>
    requires hi <= |stream|
  {
    if hi == 0 then []
    else Left(stream, p, hi - 1) + if stream[hi - 1].None? || p <= hi - 1 then [hi - 1] else []
  }

  /** Adjacent repeats removed. */
  function Collapse(trace: seq<nat>): seq<nat> {
    if trace == [] then []
    else
      var c := Collapse(trace[..|trace| - 1]);
      var last := trace[|trace| - 1];
      if c != [] && c[|c| - 1] == last then c else c + [last]
  }

  /** Every decodable entry has room in the re-read: of the entries more than
      nine positions before it, at most ninety do not decode. */
  ghost predicate Fits(stream: seq<Entry>) {
    forall i :: 9 <= i < |stream| && stream[i].Some? ==> Bad(stream, i - 9) <= 90
  }

  // ---------------------------------------------------------------------
  // Facts about the id sequences

  lemma {:induction false} GoodWithin(stream: seq<Entry>, lo: nat, hi: nat)
    requires hi <= |stream|
    ensures forall k :: 0 <= k < |Good(stream, lo, hi)| ==> lo <= Good(stream, lo, hi)[k] < hi
    ensures forall i :: i in Good(stream, lo, hi) <==> lo <= i < hi && stream[i].Some?
  {
    if lo < hi {
      GoodWithin(stream, lo, hi - 1);
    }
  }

  lemma {:induction false} GoodSplit(stream: seq<Entry>, lo: nat, mid: nat, hi: nat)
    requires lo <= mid <= hi <= |stream|
    ensures Good(stream, lo, hi) == Good(stream, lo, mid) + Good(stream, mid, hi)
  {
    if mid < hi {
      GoodSplit(stream, lo, mid, hi - 1);
    }
  }

  lemma NothingBefore(stream: seq<Entry>, lo: nat, hi: nat)
    requires lo <= hi <= |stream| && Good(stream, lo, hi) != []
    ensures var x := Good(stream, lo, hi)[0];
            lo <= x < hi && stream[x].Some? && Good(stream, lo, x) == []
  {
    var x := Good(stream, lo, hi)[0];
    GoodWithin(stream, lo, hi);
    assert x in Good(stream, lo, hi);
    GoodSplit(stream, lo, x, hi);
    GoodWithin(stream, lo, x);
  }

  lemma GoodHead(stream: seq<Entry>, lo: nat, hi: nat)
    requires lo <= hi <= |stream| && Good(stream, lo, hi) != []
    ensures var x := Good(stream, lo, hi)[0];
            && lo <= x < hi && stream[x].Some? && Good(stream, lo, x) == []
            && Good(stream, x + 1, hi) == Good(stream, lo, hi)[1..]
            && Good(stream, 0, x + 1) == Good(stream, 0, lo) + [x]
  {
    NothingBefore(stream, lo, hi);
    var x := Good(stream, lo, hi)[0];
    assert Good(stream, lo, x + 1) == [x];
    GoodSplit(stream, lo, x + 1, hi);
    GoodSplit(stream, 0, lo, x + 1);
  }

  lemma {:induction false} Grown(stream: seq<Entry>, more: seq<Entry>, lo: nat, hi: nat)
    requires hi <= |stream| && stream <= more
    ensures Good(more, lo, hi) == Good(stream, lo, hi) && Left(more, lo, hi) == Left(stream, lo, hi)
    ensures Bad(more, hi) == Bad(stream, hi)
  {
    if hi > 0 {
      Grown(stream, more, lo, hi - 1);
    }
  }

  lemma {:induction false} LeftWithout(stream: seq<Entry>, p: nat, x: nat, hi: nat)
    requires p <= x < |stream| && hi <= |stream| && stream[x].Some? && Good(stream, p, x) == []
    ensures Without(Left(stream, p, hi), x) == Left(stream, x + 1, hi)
  {
    GoodWithin(stream, p, x);
    if hi > 0 {
      LeftWithout(stream, p, x, hi - 1);
      var left := Left(stream, p, hi);
      if left != Left(stream, p, hi - 1) {
        assert left[..|left| - 1] == Left(stream, p, hi - 1);
      }
    }
  }

  lemma {:induction false} LeftSame(stream: seq<Entry>, p: nat, q: nat, hi: nat)
    requires p <= q <= |stream| && hi <= |stream| && Good(stream, p, q) == []
    ensures Left(stream, p, hi) == Left(stream, q, hi)
  {
    GoodWithin(stream, p, q);
    if hi > 0 {
      LeftSame(stream, p, q, hi - 1);
    }
  }

  /** Delivering the next m entries. */
  lemma {:induction false} Delivered(stream: seq<Entry>, p: nat, cursor: nat, m: nat)
    requires p <= cursor && cursor + m <= |stream|
    ensures Left(stream, p, cursor) + Ids(cursor, m) == Left(stream, p, cursor + m)
    ensures Decodable(stream, Ids(cursor, m)) == Good(stream, cursor, cursor + m)
  {
    if m > 0 {
      Delivered(stream, p, cursor, m - 1);
      assert Ids(cursor, m)[..m - 1] == Ids(cursor, m - 1);
    }
  }

  lemma {:induction false} LeftLength(stream: seq<Entry>, p: nat, hi: nat)
    requires hi <= |stream|
    ensures |Left(stream, p, hi)| == if hi <= p then Bad(stream, hi) else Bad(stream, p) + hi - p
  {
    if hi > 0 {
      LeftLength(stream, p, hi - 1);
    }
  }

  lemma {:induction false} BadGrowsSlowly(stream: seq<Entry>, a: nat, b: nat)
    requires a <= b <= |stream|
    ensures Bad(stream, a) <= Bad(stream, b) <= Bad(stream, a) + b - a
  {
    if a < b {
      BadGrowsSlowly(stream, a, b - 1);
    }
  }

  /** The re-read sees every decodable pending entry when each of them has fewer
      than a hundred pending entries before it. */
  lemma {:induction false} ReRead(stream: seq<Entry>, p: nat, hi: nat)
    requires hi <= |stream|
    requires forall i :: p <= i < hi && stream[i].Some? ==> |Left(stream, p, i)| < PENDING_COUNT
    ensures Decodable(stream, Left(stream, p, hi)[..Min(PENDING_COUNT, |Left(stream, p, hi)|)]) == Good(stream, p, hi)
  {
    if hi > 0 {
      ReRead(stream, p, hi - 1);
      var left, before := Left(stream, p, hi), Left(stream, p, hi - 1);
      var seen, seenBefore := left[..Min(PENDING_COUNT, |left|)], before[..Min(PENDING_COUNT, |before|)];
      if |before| < PENDING_COUNT && left != before {
        assert seen[..|seen| - 1] == seenBefore && seen[|seen| - 1] == hi - 1;
      } else {
        assert seen == seenBefore;
      }
    }
  }

  // ---------------------------------------------------------------------
  // The invariant of the loop

  /** All decodable entries below p are acknowledged and none from p on; the
      batch is what remains; at most the first of these was handled already. */
  ghost predicate Inv(st: State, p: nat) {
    var g := st.g;
    && p <= g.cursor <= |g.stream| && g.cursor <= p + READ_COUNT
    && g.pending == Left(g.stream, p, g.cursor)
    && var todo := Good(g.stream, p, g.cursor);
       && (st.phase.Busy? ==> st.phase.batch == todo && (st.phase.handled ==> todo != []))
       && (|| (Collapse(st.trace) == Good(g.stream, 0, p) && !(st.phase.Busy? && st.phase.handled))
           || (todo != [] && Collapse(st.trace) == Good(g.stream, 0, p) + [todo[0]]))
  }

  lemma PublishKeeps(st: State, p: nat, entry: Entry)
    requires Inv(st, p)
    ensures Inv(Apply(st, Publish(entry)), p)
  {
    var more := st.g.stream + [entry];
    Grown(st.g.stream, more, p, st.g.cursor);
    Grown(st.g.stream, more, 0, p);
  }

  lemma HandleKeeps(st: State, p: nat)
    requires Inv(st, p)
    ensures Inv(Apply(st, Handle), p)
  {
    var st' := Apply(st, Handle);
    if st' != st {
      assert st'.trace[..|st'.trace| - 1] == st.trace;
      GoodWithin(st.g.stream, 0, p);
      GoodHead(st.g.stream, p, st.g.cursor);
    }
  }

  lemma AckKeeps(st: State, p: nat) returns (q: nat)
    requires Inv(st, p)
    ensures Inv(Apply(st, Ack), q)
  {
    q := p;
    if Apply(st, Ack) != st {
      var x := st.phase.batch[0];
      GoodHead(st.g.stream, p, st.g.cursor);
      LeftWithout(st.g.stream, p, x, st.g.cursor);
      GoodWithin(st.g.stream, 0, p);
      q := x + 1;
    }
  }

  lemma ReadKeeps(st: State, p: nat) returns (q: nat)
    requires Inv(st, p)
    ensures Inv(Apply(st, Read), q)
  {
    q := p;
    if st.phase == Busy([], false) {
      q := st.g.cursor;
      var m := |Fresh(st.g, READ_COUNT)|;
      LeftSame(st.g.stream, p, q, q);
      Delivered(st.g.stream, q, q, m);
      GoodSplit(st.g.stream, 0, p, q);
      var st' := Apply(st, Read);
      assert st'.trace == st.trace && st'.g.stream == st.g.stream && st'.g.cursor == q + m;
      assert st'.g.pending == Left(st.g.stream, q, q + m);
    }
  }

  lemma StartKeeps(st: State, p: nat)
    requires Inv(st, p) && Fits(st.g.stream)
    ensures Inv(Apply(st, Start), p)
  {
    var stream, hi := st.g.stream, st.g.cursor;
    forall i | p <= i < hi && stream[i].Some?
      ensures |Left(stream, p, i)| < PENDING_COUNT
    {
      LeftLength(stream, p, i);
      if 9 <= i {
        BadGrowsSlowly(stream, i - 9, p);
      } else {
        BadGrowsSlowly(stream, 0, p);
      }
    }
    ReRead(stream, p, hi);
  }

  lemma ApplyKeeps(st: State, p: nat, a: Action) returns (q: nat)
    requires Inv(st, p) && (a.Start? ==> Fits(st.g.stream))
    ensures Inv(Apply(st, a), q)
  {
    q := p;
    match a
    case Publish(entry) => PublishKeeps(st, p, entry);
    case Crash =>
    case Start => StartKeeps(st, p);
    case Read => q := ReadKeeps(st, p);
    case Handle => HandleKeeps(st, p);
    case Ack => q := AckKeeps(st, p);
  }

  lemma FitsBefore(stream: seq<Entry>, entry: Entry)
    requires Fits(stream + [entry])
    ensures Fits(stream)
  {
    var more := stream + [entry];
    forall i | 9 <= i < |stream| && stream[i].Some?
      ensures Bad(stream, i - 9) <= 90
    {
      assert more[i] == stream[i];
      Grown(stream, more, 0, i - 9);
    }
  }

  lemma {:induction false} AlwaysInv(actions: seq<Action>) returns (p: nat)
    requires Fits(Run(INITIAL, actions).g.stream)
    ensures Inv(Run(INITIAL, actions), p)
  {
    if actions == [] {
      p := 0;
    } else {
      var before, a := Run(INITIAL, actions[..|actions| - 1]), actions[|actions| - 1];
      if a.Publish? {
        FitsBefore(before.g.stream, a.entry);
      }
      p := AlwaysInv(actions[..|actions| - 1]);
      p := ApplyKeeps(before, p, a);
    }
  }

  // ---------------------------------------------------------------------
  // What a subscriber can rely on

  /** The handled events are the published ones, in order, with only adjacent
      repeats; and whenever the loop is about to read on, nothing delivered was
      left out. Crashes may happen anywhere. */
  lemma HandledInOrder(actions: seq<Action>)
    requires Fits(Run(INITIAL, actions).g.stream)
    ensures var st := Run(INITIAL, actions);
            && Collapse(st.trace) <= Good(st.g.stream, 0, |st.g.stream|)
            && (st.phase == Busy([], false) ==>
                st.g.cursor <= |st.g.stream| && Collapse(st.trace) == Good(st.g.stream, 0, st.g.cursor))
  {
    var p := AlwaysInv(actions);
    OrderOf(Run(INITIAL, actions), p);
  }

  lemma OrderOf(st: State, p: nat)
    requires Inv(st, p)
    ensures Collapse(st.trace) <= Good(st.g.stream, 0, |st.g.stream|)
    ensures st.phase == Busy([], false) ==> Collapse(st.trace) == Good(st.g.stream, 0, st.g.cursor)
  {
    var done, todo := Good(st.g.stream, 0, p), Good(st.g.stream, p, st.g.cursor);
    GoodSplit(st.g.stream, 0, p, st.g.cursor);
    GoodSplit(st.g.stream, 0, st.g.cursor, |st.g.stream|);
    assert Good(st.g.stream, 0, |st.g.stream|) == done + todo + Good(st.g.stream, st.g.cursor, |st.g.stream|);
  }

  function Fold<S>(f: (S, Event) -> S, s: S, stream: seq<Entry>, ids: seq<nat>): S
    requires Readable(stream, ids)
  {
    if ids == [] then s
    else f(Fold(f, s, stream, ids[..|ids| - 1]), stream[ids[|ids| - 1]].value)
  }

  ghost predicate Readable(stream: seq<Entry>, ids: seq<nat>) {
    forall i :: 0 <= i < |ids| ==> ids[i] < |stream| && stream[ids[i]].Some?
  }

  lemma CollapseLast(trace: seq<nat>)
    requires trace != []
    ensures var c := Collapse(trace[..|trace| - 1]); var last := trace[|trace| - 1];
            && (Collapse(trace) == c || Collapse(trace) == c + [last])
            && Collapse(trace) != [] && Collapse(trace)[|Collapse(trace)| - 1] == last
  {
  }

  lemma {:induction false} CollapseReadable(stream: seq<Entry>, trace: seq<nat>)
    requires Readable(stream, Collapse(trace))
    ensures Readable(stream, trace)
  {
    if trace != [] {
      var c := Collapse(trace[..|trace| - 1]);
      CollapseLast(trace);
      forall i | 0 <= i < |c|
        ensures c[i] < |stream| && stream[c[i]].Some?
      {
        assert c[i] == Collapse(trace)[i];
      }
      CollapseReadable(stream, trace[..|trace| - 1]);
    }
  }

  lemma {:induction false} RepeatsDoNotMatter<S(!new)>(f: (S, Event) -> S, s: S, stream: seq<Entry>, trace: seq<nat>)
    requires forall x, e :: f(f(x, e), e) == f(x, e)
    requires Readable(stream, trace) && Readable(stream, Collapse(trace))
    ensures Fold(f, s, stream, trace) == Fold(f, s, stream, Collapse(trace))
  {
    if trace != [] {
      var before, last := trace[..|trace| - 1], trace[|trace| - 1];
      var c := Collapse(before);
      CollapseLast(trace);
      forall i | 0 <= i < |c|
        ensures c[i] < |stream| && stream[c[i]].Some?
      {
        assert c[i] == Collapse(trace)[i];
      }
      RepeatsDoNotMatter(f, s, stream, before);
      if Collapse(trace) == c {
        assert Fold(f, s, stream, c) == f(Fold(f, s, stream, c[..|c| - 1]), stream[last].value);
      } else {
        assert Collapse(trace)[..|c|] == c;
      }
    }
  }

  /** A handler that shrugs off an immediate repeat ends exactly where one clean
      pass over the stream would have taken it. */
  lemma ExactlyTheFold<S(!new)>(actions: seq<Action>, f: (S, Event) -> S, s: S)
    requires Fits(Run(INITIAL, actions).g.stream)
    requires forall x, e :: f(f(x, e), e) == f(x, e)
    requires Run(INITIAL, actions).phase == Busy([], false)
    requires Run(INITIAL, actions).g.cursor == |Run(INITIAL, actions).g.stream|
    ensures var st := Run(INITIAL, actions); var all := Good(st.g.stream, 0, |st.g.stream|);
            && Readable(st.g.stream, st.trace) && Readable(st.g.stream, all)
            && Fold(f, s, st.g.stream, st.trace) == Fold(f, s, st.g.stream, all)
  {
    var st := Run(INITIAL, actions);
    HandledInOrder(actions);
    GoodWithin(st.g.stream, 0, |st.g.stream|);
    var all := Good(st.g.stream, 0, |st.g.stream|);
    assert forall i :: 0 <= i < |all| ==> all[i] in all;
    CollapseReadable(st.g.stream, st.trace);
    RepeatsDoNotMatter(f, s, st.g.stream, st.trace);
  }

  // ---------------------------------------------------------------------
  // The bound on undecodable entries is exact

  /** A loop that is about to read on has handled all it was delivered. */
  ghost predicate NothingSkipped(st: State) {
    st.phase == Busy([], false) ==>
      forall i :: 0 <= i < st.g.cursor && i < |st.g.stream| && st.g.stream[i].Some? ==> i in st.trace
  }

  lemma {:induction false} CollapseKeepsMembers(trace: seq<nat>)
    ensures forall i :: i in Collapse(trace) ==> i in trace
  {
    if trace != [] {
      CollapseKeepsMembers(trace[..|trace| - 1]);
      CollapseLast(trace);
    }
  }

  lemma FittingIsSafe(actions: seq<Action>)
    requires Fits(Run(INITIAL, actions).g.stream)
    ensures NothingSkipped(Run(INITIAL, actions))
  {
    var st := Run(INITIAL, actions);
    if st.phase == Busy([], false) {
      HandledInOrder(actions);
      GoodWithin(st.g.stream, 0, st.g.cursor);
      CollapseKeepsMembers(st.trace);
    }
  }

  lemma OneMore(actions: seq<Action>, a: Action)
    ensures Run(INITIAL, actions + [a]) == Apply(Run(INITIAL, actions), a)
  {
    assert (actions + [a])[..|actions|] == actions;
  }

  /** The loop keeps up with a stream published entry by entry. */
  lemma {:induction false} KeepUp(stream: seq<Entry>) returns (actions: seq<Action>)
    ensures Run(INITIAL, actions) == CaughtUp(stream)
  {
    if stream == [] {
      actions := [] + [Start];
      OneMore([], Start);
    } else {
      var n := |stream| - 1;
      var before := stream[..n];
      actions := KeepUp(before);
      actions := ThenOne(actions, before, stream[n]);
      assert before + [stream[n]] == stream;
    }
  }

  /** A loop that has kept up with `stream`. */
  function CaughtUp(stream: seq<Entry>): State {
    State(Group(stream, |stream|, Left(stream, |stream|, |stream|)), Busy([], false), Good(stream, 0, |stream|))
  }

  lemma PublishAndRead(before: seq<Entry>, entry: Entry)
    ensures var stream := before + [entry]; var n := |before|;
            Apply(Apply(CaughtUp(before), Publish(entry)), Read) ==
            State(Group(stream, n + 1, Left(stream, n, n) + [n]), Busy(if entry.Some? then [n] else [], false),
                Good(stream, 0, n))
  {
    var stream, n := before + [entry], |before|;
    Grown(before, stream, n, n);
    Grown(before, stream, 0, n);
    var g := Group(stream, n, Left(stream, n, n));
    assert Fresh(g, READ_COUNT) == [n];
    assert Decodable(stream, [n]) == if entry.Some? then [n] else [];
  }

  lemma HandleAndAck(before: seq<Entry>, entry: Entry)
    requires entry.Some?
    ensures var stream := before + [entry]; var n := |before|;
            Apply(Apply(State(Group(stream, n + 1, Left(stream, n, n) + [n]), Busy([n], false), Good(stream, 0, n)),
                Handle), Ack)
            == CaughtUp(stream)
  {
    var stream, n := before + [entry], |before|;
    assert Left(stream, n, n + 1) == Left(stream, n, n) + [n];
    assert Good(stream, 0, n + 1) == Good(stream, 0, n) + [n];
    LeftWithout(stream, n, n, n + 1);
    assert [n][1..] == [];
  }

  lemma ThenOne(actions: seq<Action>, before: seq<Entry>, entry: Entry) returns (longer: seq<Action>)
    requires Run(INITIAL, actions) == CaughtUp(before)
    ensures Run(INITIAL, longer) == CaughtUp(before + [entry])
  {
    var stream, n := before + [entry], |before|;
    OneMore(actions, Publish(entry));
    OneMore(actions + [Publish(entry)], Read);
    longer := actions + [Publish(entry)] + [Read];
    PublishAndRead(before, entry);
    if entry.Some? {
      HandleAndAck(before, entry);
      OneMore(longer, Handle);
      OneMore(longer + [Handle], Ack);
      longer := longer + [Handle] + [Ack];
    } else {
      LeftSame(stream, n, n + 1, n + 1);
      assert Left(stream, n, n + 1) == Left(stream, n, n) + [n];
    }
  }

  lemma {:induction false} PublishAll(actions: seq<Action>, more: seq<Entry>) returns (longer: seq<Action>)
    ensures Run(INITIAL, longer) ==
            Run(INITIAL, actions).(g := Run(INITIAL, actions).g.(stream := Run(INITIAL, actions).g.stream + more))
  {
    if more == [] {
      longer := actions;
      assert Run(INITIAL, actions).g.stream + more == Run(INITIAL, actions).g.stream;
    } else {
      var init := more[..|more| - 1];
      var entry := more[|more| - 1];
      var shorter := PublishAll(actions, init);
      OneMore(shorter, Publish(entry));
      longer := shorter + [Publish(entry)];
      assert Run(INITIAL, actions).g.stream + init + [entry] == Run(INITIAL, actions).g.stream + more;
    }
  }

  /** Working a batch off, without a crash. */
  lemma {:induction false} WorkOff(actions: seq<Action>) returns (longer: seq<Action>)
    requires Run(INITIAL, actions).phase.Busy? && !Run(INITIAL, actions).phase.handled
    ensures var st, st' := Run(INITIAL, actions), Run(INITIAL, longer);
            && st'.phase == Busy([], false) && st'.trace == st.trace + st.phase.batch
            && st'.g.stream == st.g.stream && st'.g.cursor == st.g.cursor
    decreases |Run(INITIAL, actions).phase.batch|
  {
    var st := Run(INITIAL, actions);
    if st.phase.batch == [] {
      longer := actions;
      assert st.trace + st.phase.batch == st.trace;
    } else {
      OneMore(actions, Handle);
      OneMore(actions + [Handle], Ack);
      longer := WorkOff(actions + [Handle] + [Ack]);
      assert st.trace + [st.phase.batch[0]] + st.phase.batch[1..] == st.trace + st.phase.batch;
    }
  }

  /** The loop has kept up with the first `n` entries of a stream of `m`. */
  lemma TenAhead(stream: seq<Entry>, n: nat, m: nat) returns (actions: seq<Action>)
    requires n <= m <= |stream|
    ensures Run(INITIAL, actions) ==
            State(Group(stream[..m], n, Left(stream, n, n)), Busy([], false), Good(stream, 0, n))
  {
    var first := stream[..n];
    actions := KeepUp(first);
    actions := PublishAll(actions, stream[n..m]);
    assert first + stream[n..m] == stream[..m];
    Grown(first, stream, n, n);
    Grown(first, stream, 0, n);
  }

  lemma ThreeMore(actions: seq<Action>, a: Action, b: Action, c: Action)
    ensures Run(INITIAL, actions + [a] + [b] + [c]) == Apply(Apply(Apply(Run(INITIAL, actions), a), b), c)
  {
    OneMore(actions, a);
    OneMore(actions + [a], b);
    OneMore(actions + [a] + [b], c);
  }

  /** Ten entries in one batch, and a crash before the first is handled. */
  lemma CrashOnBatch(stream: seq<Entry>, i: nat) returns (actions: seq<Action>)
    requires 9 <= i < |stream|
    ensures var st := Run(INITIAL, actions); var left := Left(stream, i - 9, i + 1);
            && st.g == Group(stream[..i + 1], i + 1, left)
            && st.trace == Good(stream, 0, i - 9)
            && st.phase == Busy(Decodable(stream[..i + 1], left[..Min(PENDING_COUNT, |left|)]), false)
  {
    var ready := TenAhead(stream, i - 9, i + 1);
    ReadCrashStart(Run(INITIAL, ready));
    ThreeMore(ready, Read, Crash, Start);
    actions := ready + [Read] + [Crash] + [Start];
    Delivered(stream, i - 9, i - 9, READ_COUNT);
  }

  lemma ReadCrashStart(st: State)
    requires st.phase == Busy([], false) && st.g.cursor + READ_COUNT == |st.g.stream|
    ensures var pending := st.g.pending + Ids(st.g.cursor, READ_COUNT);
            Apply(Apply(Apply(st, Read), Crash), Start) ==
            State(Group(st.g.stream, |st.g.stream|, pending),
                  Busy(Decodable(st.g.stream, pending[..Min(PENDING_COUNT, |pending|)]), false), st.trace)
  {
  }

  lemma {:induction false} DecodableWithin(stream: seq<Entry>, ids: seq<nat>)
    ensures forall i :: i in Decodable(stream, ids) ==> i in ids
  {
    if ids != [] {
      DecodableWithin(stream, ids[..|ids| - 1]);
    }
  }

  lemma {:induction false} LeftWithin(stream: seq<Entry>, p: nat, hi: nat)
    requires hi <= |stream|
    ensures forall k :: 0 <= k < |Left(stream, p, hi)| ==> Left(stream, p, hi)[k] < hi
  {
    if hi > 0 {
      LeftWithin(stream, p, hi - 1);
    }
  }

  /** The re-read stops before an entry with a hundred pending ones ahead. */
  lemma PastTheReRead(stream: seq<Entry>, i: nat)
    requires 9 <= i < |stream| && stream[i].Some? && Bad(stream, i - 9) > 90
    ensures var left := Left(stream, i - 9, i + 1);
            i !in Good(stream, 0, i - 9) + Decodable(stream[..i + 1], left[..Min(PENDING_COUNT, |left|)])
  {
    var before, left := Left(stream, i - 9, i), Left(stream, i - 9, i + 1);
    var reread := left[..Min(PENDING_COUNT, |left|)];
    LeftLength(stream, i - 9, i);
    assert left == before + [i];
    assert reread == before[..PENDING_COUNT];
    LeftWithin(stream, i - 9, i);
    DecodableWithin(stream[..i + 1], reread);
    GoodWithin(stream, 0, i - 9);
  }

  lemma LostAt(stream: seq<Entry>, i: nat) returns (actions: seq<Action>)
    requires 9 <= i < |stream| && stream[i].Some? && Bad(stream, i - 9) > 90
    ensures var st := Run(INITIAL, actions);
            st.g.stream == stream[..i + 1] && st.g.cursor == i + 1 && st.phase == Busy([], false) && i !in st.trace
  {
    PastTheReRead(stream, i);
    actions := CrashOnBatch(stream, i);
    actions := WorkOff(actions);
  }

  /** A stream that does not fit loses an event in some run. */
  lemma LosingRun(stream: seq<Entry>) returns (actions: seq<Action>)
    requires !Fits(stream)
    ensures Run(INITIAL, actions).g.stream == stream && !NothingSkipped(Run(INITIAL, actions))
  {
    var i :| 9 <= i < |stream| && stream[i].Some? && Bad(stream, i - 9) > 90;
    var resumed := LostAt(stream, i);
    actions := PublishAll(resumed, stream[i + 1..]);
    assert stream[..i + 1] + stream[i + 1..] == stream;
    IsSkipped(Run(INITIAL, actions), i);
  }

  lemma IsSkipped(st: State, i: nat)
    requires st.phase == Busy([], false) && i < st.g.cursor && i < |st.g.stream| && st.g.stream[i].Some?
             && i !in st.trace
    ensures !NothingSkipped(st)
  {
  }

  /** Exactly the streams that fit are safe under every crash pattern. */
  lemma SafeIffFits(stream: seq<Entry>)
    ensures Fits(stream) <==>
      forall actions :: Run(INITIAL, actions).g.stream == stream ==> NothingSkipped(Run(INITIAL, actions))
  {
    if Fits(stream) {
      forall actions | Run(INITIAL, actions).g.stream == stream
        ensures NothingSkipped(Run(INITIAL, actions))
      {
        FittingIsSafe(actions);
      }
    } else {
      var actions := LosingRun(stream);
    }
  }

  /** Ninety undecodable entries in the whole stream are always tolerated. */
  lemma NinetyFit(stream: seq<Entry>)
    requires Bad(stream, |stream|) <= 90
    ensures Fits(stream)
  {
    forall i | 9 <= i < |stream| && stream[i].Some?
      ensures Bad(stream, i - 9) <= 90
    {
      BadGrowsSlowly(stream, i - 9, |stream|);
    }
  }
}

/** End to end: a module that runs the documented loop on the stream of the
    service ends up knowing every account's role and whether it is suspended. */
module Subscriber {
  import opened Domain
  import opened IdentityStore
  import EventStream
  import StreamConsumer

  datatype Known = Known(role: Role, suspended: bool)

  type View = map<UserId, Known>

  /** An account nobody mentioned is a plain user in good standing. */
  function About(v: View, u: UserId): Known {
    if u in v then v[u] else Known(User, false)
  }

  /** The handler: a role change sets the role, a status change sets the
      suspended bit by its wire name, anything else is of no interest. */
  function Handle(v: View, e: Event): View {
    if e.UserRoleChanged? then v[e.user := About(v, e.user).(role := e.newRole)]
    else if e.UserStatusChanged? then v[e.user := About(v, e.user).(suspended := e.Name() == "user.suspended")]
    else v
  }

  lemma HandleTwice(v: View, e: Event)
    ensures Handle(Handle(v, e), e) == Handle(v, e)
  {
  }

  /** What the module starts from: the accounts there were before the stream. */
  function Initial(base: map<UserId, Account>): View {
    map u | u in base :: Known(base[u].role, base[u].status.Suspended?)
  }

  function Folded(v: View, events: seq<Event>): View {
    if events == [] then v else Handle(Folded(v, events[..|events| - 1]), events[|events| - 1])
  }

  lemma {:induction false} FoldKnows(base: map<UserId, Account>, events: seq<Event>, u: UserId)
    ensures var k := About(Folded(Initial(base), events), u);
            && (EventStream.KnownRole(base, events, u).Some? ==> k.role == EventStream.KnownRole(base, events, u).value)
            && k.suspended == EventStream.KnownSuspended(base, events, u)
  {
    if events != [] { FoldKnows(base, events[..|events| - 1], u); }
  }

  /** The events as entries of the stream. */
  function Entries(events: seq<Event>): seq<StreamConsumer.Entry> {
    seq(|events|, i requires 0 <= i < |events| => Some(events[i]))
  }

  lemma {:induction false} NoneBad(events: seq<Event>, n: nat)
    requires n <= |events|
    ensures StreamConsumer.Bad(Entries(events), n) == 0
  {
    if n > 0 { NoneBad(events, n - 1); }
  }

  lemma FoldOneMore(v: View, stream: seq<StreamConsumer.Entry>, ids: seq<nat>, i: nat)
    requires StreamConsumer.Readable(stream, ids) && i < |stream| && stream[i].Some?
    ensures StreamConsumer.Readable(stream, ids + [i])
    ensures StreamConsumer.Fold(Handle, v, stream, ids + [i]) ==
            Handle(StreamConsumer.Fold(Handle, v, stream, ids), stream[i].value)
  {
    assert (ids + [i])[..|ids|] == ids;
  }

  lemma {:induction false} FoldOfAll(v: View, events: seq<Event>, n: nat)
    requires n <= |events|
    ensures var ids := StreamConsumer.Good(Entries(events), 0, n);
            && StreamConsumer.Readable(Entries(events), ids)
            && StreamConsumer.Fold(Handle, v, Entries(events), ids) == Folded(v, events[..n])
  {
    if n > 0 {
      FoldOfAll(v, events, n - 1);
      FoldOneMore(v, Entries(events), StreamConsumer.Good(Entries(events), 0, n - 1), n - 1);
      assert events[..n][..n - 1] == events[..n - 1];
    }
  }

  /** Whatever the service did, as long as no publish was lost, and wherever
      the module crashed: once it has caught up, it holds the current role and
      suspended bit of every account. */
  lemma CaughtUpKnowsAll(s0: Store, run: seq<Command>, actions: seq<StreamConsumer.Action>, u: UserId)
    requires Genesis(s0) && ValidRun(s0, run) && Exec(s0, run).lossless && u in Exec(s0, run).db.users
    requires var st := StreamConsumer.Run(StreamConsumer.INITIAL, actions);
             && st.g.stream == Entries(Exec(s0, run).events)
             && st.phase == StreamConsumer.Busy([], false) && st.g.cursor == |st.g.stream|
    ensures var st, a := StreamConsumer.Run(StreamConsumer.INITIAL, actions), Exec(s0, run).db.users[u];
            && StreamConsumer.Readable(st.g.stream, st.trace)
            && About(StreamConsumer.Fold(Handle, Initial(s0.db.users), st.g.stream, st.trace), u) ==
                Known(a.role, a.status.Suspended?)
  {
    var events := Exec(s0, run).events;
    NoneBad(events, |events|);
    StreamConsumer.NinetyFit(Entries(events));
    forall v, e ensures Handle(Handle(v, e), e) == Handle(v, e) {
      HandleTwice(v, e);
    }
    StreamConsumer.ExactlyTheFold(actions, Handle, Initial(s0.db.users));
    FoldOfAll(Initial(s0.db.users), events, |events|);
    assert events[..|events|] == events;
    FoldKnows(s0.db.users, events, u);
    EventStream.StreamRefinesStore(s0, run);
    assert EventStream.Knows(s0.db.users, Exec(s0, run), u);
  }
}

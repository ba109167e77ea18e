/** What no command does to an account: remove it, or change its phone or its
    creation date. */
module Accounts {
  import opened Domain
  import opened IdentityStore
  import opened Footprint

  type Users = map<UserId, Account>

  ghost predicate Grows(users: Users, users': Users) {
    forall u :: u in users ==>
      u in users' && users'[u].phone == users[u].phone && users'[u].createdAt == users[u].createdAt
  }

  lemma KeptGrows(c: Command, users: Users, users': Users, dropped: seq<UserId>)
    requires RowsKept(c, users, users', dropped)
    ensures Grows(users, users')
  {
    forall u | u in users
      ensures u in users' && users'[u].phone == users[u].phone && users'[u].createdAt == users[u].createdAt
    {
      assert u in users' && RowKept(c, users[u], users'[u]);
    }
  }

  lemma StepGrows(s: Store, c: Command)
    requires Admissible(s, c)
    ensures var users, users' := s.db.users, Step(s, c).store.db.users;
            && Grows(users, users')
            && (forall u {:trigger u in users'} :: u in users' && u !in users ==>
                c.RegisterUser? && users'[u].createdAt == c.now)
  {
    StepWithin(s, c);
    KeptGrows(c, s.db.users, Step(s, c).store.db.users, Step(s, c).store.drops[|s.drops|..]);
  }

  lemma {:induction false} RunGrows(s0: Store, run: seq<Command>, i: nat)
    requires ValidRun(s0, run) && i <= |run|
    ensures Grows(Exec(s0, run[..i]).db.users, Exec(s0, run).db.users)
  {
    if i < |run| {
      var last := |run| - 1;
      assert run[..last][..i] == run[..i];
      RunGrows(s0, run[..last], i);
      StepGrows(Exec(s0, run[..last]), run[last]);
    } else {
      assert run[..i] == run;
    }
  }

  /** A registration succeeds exactly for a phone nobody has, and adds one
      plain, unverified account. */
  lemma RegistrationIff(s: Store, c: Command)
    requires Admissible(s, c) && c.RegisterUser?
    ensures var s', r := Step(s, c).store, Step(s, c).response;
            && (r.Registered? <==> forall u :: u in s.db.users ==> s.db.users[u].phone != c.phone)
            && (r.Registered? ==>
                  && s'.db.users.Keys == s.db.users.Keys + {c.newUser} && s'.db.users[c.newUser] == NewAccount(c)
                  && (forall u :: u in s.db.users ==> s'.db.users[u] == s.db.users[u]))
  {
    var found := FindByPhone(s.db.users, c.phone);
    assert found.Some? ==> s.db.users[found.value].phone == c.phone;
  }

  /** The last name the commands of a run gave an account. */
  function NameGiven(base: Users, run: seq<Command>, u: UserId): Option<string> {
    if run == [] then if u in base then base[u].fullName else None
    else
      var c := run[|run| - 1];
      if c.RegisterUser? && c.newUser == u then NewAccount(c).fullName
      else if c.UpdateProfile? && c.user == u && c.name.Some? then c.name
      else NameGiven(base, run[..|run| - 1], u)
  }

  lemma ProfileWritesName(s: Store, c: Command)
    requires c.UpdateProfile?
    ensures var s' := DoUpdateProfile(s, c).store;
            forall u :: u in s.db.users ==>
              && u in s'.db.users
              && s'.db.users[u].fullName == if u == c.user && c.name.Some? then c.name else s.db.users[u].fullName
  {
  }

  lemma NameKept(s: Store, s': Store, c: Command, u: UserId)
    requires Within(s, s', c) && !c.UpdateProfile? && u in s'.db.users
    ensures if u in s.db.users then s'.db.users[u].fullName == s.db.users[u].fullName
            else c.RegisterUser? && c.newUser == u && s'.db.users[u].fullName == NewAccount(c).fullName
  {
  }

  /** In every run an account bears the last name it was given. */
  lemma {:induction false} NameIsLastGiven(s0: Store, run: seq<Command>, u: UserId)
    requires ValidRun(s0, run) && u in Exec(s0, run).db.users
    ensures Exec(s0, run).db.users[u].fullName == NameGiven(s0.db.users, run, u)
  {
    if run != [] {
      var past, c := run[..|run| - 1], run[|run| - 1];
      var s := Exec(s0, past);
      StepWithin(s, c);
      if u in s.db.users { NameIsLastGiven(s0, past, u); }
      if c.UpdateProfile? {
        ProfileWritesName(s.(clock := c.now), c);
      } else {
        NameKept(s.(clock := c.now), Step(s, c).store, c, u);
      }
    }
  }
}

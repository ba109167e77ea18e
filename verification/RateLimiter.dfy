/** The two Redis limits in front of `POST /auth/otp/request`: a cooldown per
    phone and a fixed window per address. Keys live in whole seconds. */
module RateLimiter {
  import opened Domain
  import opened Counting

  const IP_REQUESTS_PER_WINDOW: nat := 10
  const IP_WINDOW_SECONDS: nat := 600

  type Positive = n: int | 1 <= n witness 1

  /** A counter key and the instant at which Redis drops it. */
  datatype Counter = Counter(count: Positive, expiresAt: Time)

  datatype Limits = Limits(cooldowns: map<Phone, Time>, counters: map<string, Counter>)

  function CooldownLeft(l: Limits, phone: Phone, cooldown: int, now: Time): int {
    if cooldown <= 0 then 0
    else if phone in l.cooldowns && now < l.cooldowns[phone] then l.cooldowns[phone] - now
    else 0
  }

  function MarkSent(l: Limits, phone: Phone, cooldown: int, now: Time): Limits {
    if cooldown <= 0 then l else l.(cooldowns := l.cooldowns[phone := now + cooldown])
  }

  /** The key after one more hit: a dead or absent key starts a new window. */
  function Bumped(l: Limits, ip: string, now: Time): Counter {
    if ip in l.counters && now < l.counters[ip].expiresAt
    then l.counters[ip].(count := l.counters[ip].count + 1)
    else Counter(1, now + IP_WINDOW_SECONDS)
  }

  function HitIp(l: Limits, ip: string, now: Time): Limits {
    if ip == "" then l else l.(counters := l.counters[ip := Bumped(l, ip, now)])
  }

  predicate Allowed(l: Limits, ip: string, now: Time) {
    ip == "" || Bumped(l, ip, now).count <= IP_REQUESTS_PER_WINDOW
  }

  /** The limiter object: each operation is the sequence of Redis commands that
      the service issues, while Redis answers. */
  class RedisOtpRateLimiter {
    var cooldowns: map<Phone, Time>
    var counters: map<string, Counter>

    function View(): Limits
      reads this
    {
      Limits(cooldowns, counters)
    }

    constructor ()
      ensures View() == Limits(map[], map[])
    {
      cooldowns, counters := map[], map[];
    }

    method SecondsUntilPhoneAllowed(phone: Phone, cooldown: int, now: Time) returns (left: int)
      ensures left == CooldownLeft(View(), phone, cooldown, now)
      ensures left > 0 <==> cooldown > 0 && phone in cooldowns && now < cooldowns[phone]
    {
      if cooldown <= 0 {
        return 0;
      }
      var ttl := -2;
      if phone in cooldowns && now < cooldowns[phone] {
        ttl := cooldowns[phone] - now;
      }
      return if ttl < 0 then 0 else ttl;
    }

    method MarkPhoneSent(phone: Phone, cooldown: int, now: Time)
      modifies this`cooldowns
      ensures View() == MarkSent(old(View()), phone, cooldown, now)
    {
      if cooldown <= 0 {
        return;
      }
      cooldowns := cooldowns[phone := now + cooldown];
    }

    /** INCR: keeps the expiry of a live key. A new key has none until EXPIRE
        gives it one; the value held in between is not read. */
    method Incr(ip: string, now: Time) returns (count: Positive)
      modifies this`counters
      ensures count == Bumped(old(View()), ip, now).count
      ensures ip in counters && counters[ip].count == count
      ensures count > 1 ==> counters[ip].expiresAt == old(counters)[ip].expiresAt
      ensures count > 1 ==> ip in old(counters) && now < old(counters)[ip].expiresAt
      ensures counters == old(counters)[ip := counters[ip]]
    {
      if ip in counters && now < counters[ip].expiresAt {
        counters := counters[ip := counters[ip].(count := counters[ip].count + 1)];
      } else {
        counters := counters[ip := Counter(1, now)];
      }
      count := counters[ip].count;
    }

    method Expire(ip: string, now: Time, ttl: nat)
      requires ip in counters
      modifies this`counters
      ensures counters == old(counters)[ip := Counter(old(counters)[ip].count, now + ttl)]
    {
      counters := counters[ip := counters[ip].(expiresAt := now + ttl)];
    }

    /** Counts one request; false when over the allowance. */
    method Hit(ip: string, now: Time) returns (ok: bool)
      modifies this`counters
      ensures View() == HitIp(old(View()), ip, now)
      ensures ok <==> Allowed(old(View()), ip, now)
    {
      if ip == "" {
        return true;
      }
      var count := Incr(ip, now);
      if count == 1 {
        Expire(ip, now, IP_WINDOW_SECONDS);
      }
      return count <= IP_REQUESTS_PER_WINDOW;
    }
  }

  // ---------------------------------------------------------------------
  // The per-address bound

  datatype Request = Request(ip: string, at: Time)

  /** The limiter after a pattern of requests from any addresses. */
  function After(l: Limits, requests: seq<Request>): Limits {
    if requests == [] then l
    else HitIp(After(l, requests[..|requests| - 1]), requests[|requests| - 1].ip, requests[|requests| - 1].at)
  }

  /** The requests of `ip` that were let through, tagged with the window that
      counted them; windows are numbered by their opening second. */
  function Passed(l: Limits, requests: seq<Request>, ip: string): seq<Item> {
    if requests == [] then []
    else
      var before := requests[..|requests| - 1];
      var last := requests[|requests| - 1];
      var passed := Passed(l, before, ip);
      if last.ip == ip && Allowed(After(l, before), ip, last.at)
      then passed + [Item(Bumped(After(l, before), ip, last.at).expiresAt, last.at)]
      else passed
  }

  ghost predicate Ordered(requests: seq<Request>) {
    forall i, j :: 0 <= i <= j < |requests| ==> requests[i].at <= requests[j].at
  }

  /** The windows opened for `ip` so far: expiry |-> opening second. */
  function Windows(l: Limits, requests: seq<Request>, ip: string): map<int, Time> {
    if requests == [] then map[]
    else
      var before := requests[..|requests| - 1];
      var last := requests[|requests| - 1];
      var windows := Windows(l, before, ip);
      if last.ip == ip
      then var e := Bumped(After(l, before), ip, last.at).expiresAt; windows[e := e - IP_WINDOW_SECONDS]
      else windows
  }

  /** What ties the requests let through (`items`) and the windows opened to
      the key `c` that Redis holds for the address at time `now`. */
  ghost predicate Tally(items: seq<Item>, windows: map<int, Time>, c: Option<Counter>, now: Time) {
    && Spaced(windows, IP_WINDOW_SECONDS)
    && Alive(items, windows, IP_WINDOW_SECONDS)
    && (forall w :: w in windows ==> OfGroups(items, {w}) <= IP_REQUESTS_PER_WINDOW)
    && (forall w :: w in windows ==> windows[w] == w - IP_WINDOW_SECONDS)
    && (c.None? ==> windows == map[])
    && (c.Some? ==>
          && c.value.expiresAt in windows
          && c.value.expiresAt <= now + IP_WINDOW_SECONDS
          && (forall w :: w in windows ==> w <= c.value.expiresAt)
          && OfGroups(items, {c.value.expiresAt}) <= c.value.count)
  }

  function KeyOf(l: Limits, ip: string): Option<Counter> {
    if ip in l.counters then Some(l.counters[ip]) else None
  }

  lemma {:induction false} NoneYet(items: seq<Item>, g: int)
    requires forall i :: 0 <= i < |items| ==> items[i].group != g
    ensures OfGroups(items, {g}) == 0
  {
    if items != [] {
      NoneYet(items[..|items| - 1], g);
    }
  }

  lemma OneItemMore(items: seq<Item>, item: Item)
    ensures forall w :: OfGroups(items + [item], {w}) ==
                        OfGroups(items, {w}) + if w == item.group then 1 else 0
  {
    assert (items + [item])[..|items|] == items;
  }

  lemma SameWindow(items: seq<Item>, windows: map<int, Time>, c: Counter, now: Time)
    requires Tally(items, windows, Some(c), now) && c.expiresAt - IP_WINDOW_SECONDS <= now < c.expiresAt
    ensures var c' := c.(count := c.count + 1);
            var items' := if c'.count <= IP_REQUESTS_PER_WINDOW then items + [Item(c.expiresAt, now)] else items;
            Tally(items', windows, Some(c'), now)
  {
    OneItemMore(items, Item(c.expiresAt, now));
  }

  lemma NewWindow(items: seq<Item>, windows: map<int, Time>, c: Option<Counter>, now: Time)
    requires Tally(items, windows, c, now) && (c.Some? ==> c.value.expiresAt <= now)
    ensures var e := now + IP_WINDOW_SECONDS;
            Tally(items + [Item(e, now)], windows[e := now], Some(Counter(1, e)), now)
  {
    var e := now + IP_WINDOW_SECONDS;
    assert forall w :: w in windows ==> w <= now;
    NoneYet(items, e);
    OneItemMore(items, Item(e, now));
  }

  lemma TallyLater(items: seq<Item>, windows: map<int, Time>, c: Option<Counter>, now: Time, later: Time)
    requires Tally(items, windows, c, now) && now <= later
    ensures Tally(items, windows, c, later)
  {
  }

  lemma NextTally(l: Limits, requests: seq<Request>, ip: string)
    requires ip != "" && requests != [] && requests[|requests| - 1].ip == ip
    requires var before := requests[..|requests| - 1];
             Tally(Passed(l, before, ip), Windows(l, before, ip), KeyOf(After(l, before), ip),
                 requests[|requests| - 1].at)
    ensures Tally(Passed(l, requests, ip), Windows(l, requests, ip), KeyOf(After(l, requests), ip),
            requests[|requests| - 1].at)
  {
    var before := requests[..|requests| - 1];
    var now := requests[|requests| - 1].at;
    var items, windows, c := Passed(l, before, ip), Windows(l, before, ip), KeyOf(After(l, before), ip);
    if c.Some? && now < c.value.expiresAt {
      assert Windows(l, requests, ip) == windows;
      SameWindow(items, windows, c.value, now);
    } else {
      assert Windows(l, requests, ip) == windows[now + IP_WINDOW_SECONDS := now];
      NewWindow(items, windows, c, now);
    }
  }

  lemma {:induction false} CountWindows(l: Limits, requests: seq<Request>, ip: string, now: Time)
    requires ip != "" && ip !in l.counters && Ordered(requests)
    requires forall i :: 0 <= i < |requests| ==> requests[i].at <= now
    ensures Tally(Passed(l, requests, ip), Windows(l, requests, ip), KeyOf(After(l, requests), ip), now)
  {
    if requests != [] {
      var before := requests[..|requests| - 1];
      var last := requests[|requests| - 1];
      CountWindows(l, before, ip, last.at);
      if last.ip == ip {
        NextTally(l, requests, ip);
      }
      TallyLater(Passed(l, requests, ip), Windows(l, requests, ip), KeyOf(After(l, requests), ip), last.at, now);
    }
  }

  /** No interval of `k` window lengths lets more than `(k + 1) * 10` requests
      of one address through, whatever the pattern of requests. */
  lemma IpBound(l: Limits, requests: seq<Request>, ip: string, lo: Time, k: nat)
    requires ip != "" && ip !in l.counters && Ordered(requests)
    ensures InWindow(Passed(l, requests, ip), lo, lo + k * 600) <= (k + 1) * 10
  {
    CountWindows(l, requests, ip, if requests == [] then 0 else requests[|requests| - 1].at);
    BurstBound(Passed(l, requests, ip), Windows(l, requests, ip), IP_REQUESTS_PER_WINDOW,
               IP_WINDOW_SECONDS, IP_WINDOW_SECONDS, lo, k * IP_WINDOW_SECONDS);
    assert CeilDiv(k * IP_WINDOW_SECONDS + IP_WINDOW_SECONDS, IP_WINDOW_SECONDS) == k + 1;
  }
}

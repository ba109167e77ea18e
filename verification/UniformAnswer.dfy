/** What `POST /auth/otp/request` lets a caller learn: nothing about accounts. */
module UniformAnswer {
  import opened Domain
  import opened Counting
  import opened RateLimiter
  import opened IdentityStore
  import opened Footprint
  import Outcomes

  datatype Asked = Asked(phone: Phone, ip: string, at: Time)

  function AskedBy(c: Command): Asked
    requires c.RequestOtp?
  {
    Asked(c.phone, c.ip, c.now)
  }

  /** The code requests of a run, as a caller makes them. */
  function Requests(run: seq<Command>): seq<Asked> {
    if run == [] then []
    else
      var past, c := Requests(run[..|run| - 1]), run[|run| - 1];
      if c.RequestOtp? then past + [AskedBy(c)] else past
  }

  /** The limits after one request, by the limits alone. */
  function Limited(cfg: Settings, l: Limits, a: Asked): Limits {
    var hit := HitIp(l, a.ip, a.at);
    if !Allowed(l, a.ip, a.at) || CooldownLeft(hit, a.phone, cfg.otpCooldown, a.at) > 0 then hit
    else MarkSent(hit, a.phone, cfg.otpCooldown, a.at)
  }

  function LimitsAfter(cfg: Settings, l: Limits, asked: seq<Asked>): Limits {
    if asked == [] then l else Limited(cfg, LimitsAfter(cfg, l, asked[..|asked| - 1]), asked[|asked| - 1])
  }

  lemma RequestLimits(s: Store, c: Command)
    requires c.RequestOtp?
    ensures var s' := DoRequestOtp(s, c).store; s'.cfg == s.cfg && s'.limits == Limited(s.cfg, s.limits, AskedBy(c))
  {
  }

  lemma StepLimits(s: Store, c: Command)
    ensures var s' := Step(s, c).store;
            s'.cfg == s.cfg && s'.limits == if c.RequestOtp? then Limited(s.cfg, s.limits, AskedBy(c)) else s.limits
  {
    StepWithin(s, c);
    if c.RequestOtp? { RequestLimits(s.(clock := c.now), c); }
  }

  lemma {:induction false} RunLimits(s: Store, run: seq<Command>)
    ensures Exec(s, run).cfg == s.cfg && Exec(s, run).limits == LimitsAfter(s.cfg, s.limits, Requests(run))
  {
    if run != [] {
      var past, c := run[..|run| - 1], run[|run| - 1];
      RunLimits(s, past);
      StepLimits(Exec(s, past), c);
      if c.RequestOtp? { assert Requests(run)[..|Requests(run)| - 1] == Requests(past); }
    }
  }

  lemma ReplyByLimits(s: Store, t: Store, c: Command, d: Command)
    requires c.RequestOtp? && d.RequestOtp? && AskedBy(c) == AskedBy(d) && s.cfg == t.cfg && s.limits == t.limits
    ensures Step(s, c).response == Step(t, d).response
  {
  }

  /** Two services that started with the same limits and saw the same requests
      answer the next one alike, whatever accounts they hold and whatever else
      happened to them. */
  lemma AccountsStayHidden(s: Store, t: Store, run: seq<Command>, run': seq<Command>, c: Command, d: Command)
    requires s.cfg == t.cfg && s.limits == t.limits && Requests(run) == Requests(run')
    requires c.RequestOtp? && d.RequestOtp? && AskedBy(c) == AskedBy(d)
    ensures Step(Exec(s, run), c).response == Step(Exec(t, run'), d).response
  {
    RunLimits(s, run);
    RunLimits(t, run');
    ReplyByLimits(Exec(s, run), Exec(t, run'), c, d);
  }

  // ---------------------------------------------------------------------
  // The address limit over runs

  /** The requests of a run as hits on the address counters. */
  function Hits(run: seq<Command>): seq<RateLimiter.Request> {
    if run == [] then []
    else
      var past, c := Hits(run[..|run| - 1]), run[|run| - 1];
      if c.RequestOtp? then past + [RateLimiter.Request(c.ip, c.now)] else past
  }

  lemma HitsAfter(l: Limits, past: seq<Command>, c: Command)
    requires c.RequestOtp?
    ensures RateLimiter.After(l, Hits(past) + [RateLimiter.Request(c.ip, c.now)]) ==
            HitIp(RateLimiter.After(l, Hits(past)), c.ip, c.now)
  {
    var hits := Hits(past) + [RateLimiter.Request(c.ip, c.now)];
    assert hits[..|hits| - 1] == Hits(past);
  }

  lemma LimitedCounters(cfg: Settings, l: Limits, l': Limits, a: Asked)
    requires l.counters == l'.counters
    ensures Limited(cfg, l, a).counters == HitIp(l', a.ip, a.at).counters
    ensures Allowed(l, a.ip, a.at) == Allowed(l', a.ip, a.at)
  {
  }

  lemma {:induction false} CountersFollow(s: Store, run: seq<Command>)
    ensures Exec(s, run).limits.counters == RateLimiter.After(s.limits, Hits(run)).counters
  {
    if run != [] {
      var past, c := run[..|run| - 1], run[|run| - 1];
      CountersFollow(s, past);
      StepLimits(Exec(s, past), c);
      if c.RequestOtp? {
        LimitedCounters(Exec(s, past).cfg, Exec(s, past).limits, RateLimiter.After(s.limits, Hits(past)), AskedBy(c));
        HitsAfter(s.limits, past, c);
      }
    }
  }

  lemma {:induction false} HitsOrdered(s: Store, run: seq<Command>)
    requires ValidRun(s, run)
    ensures RateLimiter.Ordered(Hits(run))
    ensures forall i :: 0 <= i < |Hits(run)| ==> Hits(run)[i].at <= Exec(s, run).clock
  {
    if run != [] {
      HitsOrdered(s, run[..|run| - 1]);
      StepWithin(Exec(s, run[..|run| - 1]), run[|run| - 1]);
    }
  }

  predicate SentFrom(c: Command, ip: string, lo: Time, hi: Time) {
    c.RequestOtp? && c.ip == ip && lo <= c.now < hi
  }

  /** Requests from `ip` in [lo, hi) that the address limit let through. */
  ghost function PastLimit(s0: Store, run: seq<Command>, ip: string, lo: Time, hi: Time): nat {
    if run == [] then 0
    else
      var past, c := run[..|run| - 1], run[|run| - 1];
      PastLimit(s0, past, ip, lo, hi) +
      if SentFrom(c, ip, lo, hi) && Allowed(Exec(s0, past).limits, ip, c.now) then 1 else 0
  }

  /** Requests from `ip` in [lo, hi) that were answered with a code on its way. */
  ghost function Answered(s0: Store, run: seq<Command>, ip: string, lo: Time, hi: Time): nat {
    if run == [] then 0
    else
      var past, c := run[..|run| - 1], run[|run| - 1];
      Answered(s0, past, ip, lo, hi) +
      if SentFrom(c, ip, lo, hi) && Step(Exec(s0, past), c).response.OtpRequested? then 1 else 0
  }

  lemma AnsweredWasAllowed(s: Store, c: Command)
    requires c.RequestOtp? && Step(s, c).response.OtpRequested?
    ensures Allowed(s.limits, c.ip, c.now)
  {
  }

  lemma {:induction false} PastLimitIsPassed(s0: Store, run: seq<Command>, ip: string, lo: Time, hi: Time)
    ensures PastLimit(s0, run, ip, lo, hi) == InWindow(RateLimiter.Passed(s0.limits, Hits(run), ip), lo, hi)
  {
    if run != [] {
      var past, c := run[..|run| - 1], run[|run| - 1];
      PastLimitIsPassed(s0, past, ip, lo, hi);
      CountersFollow(s0, past);
      if c.RequestOtp? {
        LimitedCounters(s0.cfg, Exec(s0, past).limits, RateLimiter.After(s0.limits, Hits(past)), AskedBy(c));
        PassedOneMore(s0.limits, Hits(past), RateLimiter.Request(c.ip, c.now), ip, lo, hi);
      }
    }
  }

  lemma PassedOneMore(l: Limits, hits: seq<RateLimiter.Request>, last: RateLimiter.Request, ip: string, lo: Time,
                      hi: Time)
    ensures InWindow(RateLimiter.Passed(l, hits + [last], ip), lo, hi) ==
            InWindow(RateLimiter.Passed(l, hits, ip), lo, hi) +
              if last.ip == ip && Allowed(RateLimiter.After(l, hits), ip, last.at) && lo <= last.at < hi then 1 else 0
  {
    var more, before := RateLimiter.Passed(l, hits + [last], ip), RateLimiter.Passed(l, hits, ip);
    assert (hits + [last])[..|hits|] == hits;
    if more != before { assert more[..|more| - 1] == before; }
  }

  lemma {:induction false} AnsweredBelow(s0: Store, run: seq<Command>, ip: string, lo: Time, hi: Time)
    ensures Answered(s0, run, ip, lo, hi) <= PastLimit(s0, run, ip, lo, hi)
  {
    if run != [] {
      var past, c := run[..|run| - 1], run[|run| - 1];
      AnsweredBelow(s0, past, ip, lo, hi);
      if c.RequestOtp? && Step(Exec(s0, past), c).response.OtpRequested? { AnsweredWasAllowed(Exec(s0, past), c); }
    }
  }

  /** In every run, an interval of `k` windows lets at most `(k + 1) * 10` of
      the requests from one address through, and no more get a code. */
  lemma AddressBound(s0: Store, run: seq<Command>, ip: string, lo: Time, k: nat)
    requires Genesis(s0) && ValidRun(s0, run) && ip != ""
    ensures var hi := lo + k * 600;
            Answered(s0, run, ip, lo, hi) <= PastLimit(s0, run, ip, lo, hi) <= (k + 1) * 10
  {
    var hi := lo + k * IP_WINDOW_SECONDS;
    AnsweredBelow(s0, run, ip, lo, hi);
    PastLimitIsPassed(s0, run, ip, lo, hi);
    HitsOrdered(s0, run);
    IpBound(s0.limits, Hits(run), ip, lo, k);
  }

  // ---------------------------------------------------------------------
  // The answer, from the requests and answers before it

  /** When the latest window of an address opened: a request opens one unless
      the last one opened less than 600 seconds before it. */
  function Opened(run: seq<Command>, ip: string): Option<Time> {
    if run == [] then None
    else
      var o, c := Opened(run[..|run| - 1], ip), run[|run| - 1];
      if !(c.RequestOtp? && c.ip == ip) then o
      else if o.Some? && c.now < o.value + 600 then o
      else Some(c.now)
  }

  function SentSince(run: seq<Command>, ip: string, since: Time): nat {
    if run == [] then 0
    else
      var c := run[|run| - 1];
      SentSince(run[..|run| - 1], ip, since) + if c.RequestOtp? && c.ip == ip && since <= c.now then 1 else 0
  }

  /** When a request for this phone was last answered with a code on its way. */
  ghost function LastAnswered(s0: Store, run: seq<Command>, phone: Phone): Option<Time> {
    if run == [] then None
    else
      var past, c := run[..|run| - 1], run[|run| - 1];
      if c.RequestOtp? && c.phone == phone && Step(Exec(s0, past), c).response.OtpRequested? then Some(c.now)
      else LastAnswered(s0, past, phone)
  }

  lemma {:induction false} NoneSince(run: seq<Command>, ip: string, since: Time)
    requires AllBefore(run, ip, since)
    ensures SentSince(run, ip, since) == 0
  {
    if run != [] { NoneSince(run[..|run| - 1], ip, since); }
  }

  /** The key of an address is its window, and counts its requests since. */
  ghost predicate KeyIsWindow(l: Limits, run: seq<Command>, ip: string) {
    var o := Opened(run, ip);
    && (ip in l.counters <==> o.Some?)
    && (o.Some? ==>
          && l.counters[ip].expiresAt == o.value + 600 && l.counters[ip].count == SentSince(run, ip, o.value)
          && AllBefore(run, ip, o.value + 600))
    && (o.None? ==> forall i :: 0 <= i < |run| && run[i].RequestOtp? ==> run[i].ip != ip)
  }

  /** What one command does to the key of an address. */
  ghost predicate KeyMoves(l: Limits, l': Limits, c: Command, ip: string) {
    if c.RequestOtp? && c.ip == ip then
      l'.counters == l.counters[ip := if ip in l.counters && c.now < l.counters[ip].expiresAt
                                      then Counter(l.counters[ip].count + 1, l.counters[ip].expiresAt)
                                      else Counter(1, c.now + 600)]
    else (ip in l'.counters <==> ip in l.counters) && (ip in l.counters ==> l'.counters[ip] == l.counters[ip])
  }

  lemma StepMovesKey(s: Store, c: Command, ip: string)
    requires ip != ""
    ensures KeyMoves(s.limits, Step(s, c).store.limits, c, ip)
  {
    StepWithin(s, c);
    if c.RequestOtp? { Outcomes.RequestCounts(s, c); }
  }

  lemma WindowStep(l: Limits, l': Limits, run: seq<Command>, c: Command, ip: string)
    requires ip != "" && KeyIsWindow(l, run, ip) && KeyMoves(l, l', c, ip)
    requires forall i :: 0 <= i < |run| ==> run[i].now <= c.now
    ensures KeyIsWindow(l', run + [c], ip)
  {
    var o := Opened(run, ip);
    OneMoreSent(run, c, ip);
    if !(c.RequestOtp? && c.ip == ip) {
      SameWindow(l, l', run, c, ip);
    } else if o.Some? && c.now < o.value + 600 {
      OpenedBefore(run, ip, c.now);
      SameWindow(l, l', run, c, ip);
    } else {
      NoneSince(run, ip, c.now);
      NewWindow(l', run, c, ip);
    }
  }

  lemma OneMoreSent(run: seq<Command>, c: Command, ip: string)
    ensures var o := Opened(run, ip);
            Opened(run + [c], ip) == if !(c.RequestOtp? && c.ip == ip) then o
                                     else if o.Some? && c.now < o.value + 600 then o else Some(c.now)
    ensures forall since :: SentSince(run + [c], ip, since) ==
              SentSince(run, ip, since) + if c.RequestOtp? && c.ip == ip && since <= c.now then 1 else 0
  {
    assert (run + [c])[..|run|] == run;
  }

  /** The requests of an address all came before `until`. */
  ghost predicate AllBefore(run: seq<Command>, ip: string, until: Time) {
    forall i :: 0 <= i < |run| && run[i].RequestOtp? && run[i].ip == ip ==> run[i].now < until
  }

  lemma SameWindow(l: Limits, l': Limits, run: seq<Command>, c: Command, ip: string)
    requires KeyIsWindow(l, run, ip) && KeyMoves(l, l', c, ip) && Opened(run + [c], ip) == Opened(run, ip)
    requires forall since :: SentSince(run + [c], ip, since) ==
               SentSince(run, ip, since) + if c.RequestOtp? && c.ip == ip && since <= c.now then 1 else 0
    requires c.RequestOtp? && c.ip == ip ==>
               Opened(run, ip).Some? && Opened(run, ip).value <= c.now < Opened(run, ip).value + 600
    ensures KeyIsWindow(l', run + [c], ip)
  {
    var more := run + [c];
    forall i | 0 <= i < |more| ensures i < |run| ==> more[i] == run[i] {
    }
  }

  lemma NewWindow(l': Limits, run: seq<Command>, c: Command, ip: string)
    requires c.RequestOtp? && c.ip == ip && Opened(run + [c], ip) == Some(c.now)
    requires SentSince(run + [c], ip, c.now) == 1 && AllBefore(run, ip, c.now)
    requires ip in l'.counters && l'.counters[ip] == Counter(1, c.now + 600)
    ensures KeyIsWindow(l', run + [c], ip)
  {
    var more := run + [c];
    forall i | 0 <= i < |more| ensures i < |run| ==> more[i] == run[i] {
    }
  }

  lemma {:induction false} OpenedBefore(run: seq<Command>, ip: string, now: Time)
    requires forall i :: 0 <= i < |run| ==> run[i].now <= now
    ensures Opened(run, ip).Some? ==> Opened(run, ip).value <= now
  {
    if run != [] { OpenedBefore(run[..|run| - 1], ip, now); }
  }

  lemma {:induction false} TimesBefore(s: Store, run: seq<Command>)
    requires ValidRun(s, run)
    ensures forall i :: 0 <= i < |run| ==> run[i].now <= Exec(s, run).clock
  {
    if run != [] {
      TimesBefore(s, run[..|run| - 1]);
      StepWithin(Exec(s, run[..|run| - 1]), run[|run| - 1]);
    }
  }

  lemma {:induction false} AlwaysWindow(s0: Store, run: seq<Command>, ip: string)
    requires Genesis(s0) && ValidRun(s0, run) && ip != ""
    ensures KeyIsWindow(Exec(s0, run).limits, run, ip)
  {
    if run != [] {
      var past, c := run[..|run| - 1], run[|run| - 1];
      AlwaysWindow(s0, past, ip);
      TimesBefore(s0, past);
      StepMovesKey(Exec(s0, past), c, ip);
      WindowStep(Exec(s0, past).limits, Exec(s0, run).limits, past, c, ip);
      assert past + [c] == run;
    }
  }

  ghost predicate KeyIsCooldown(s0: Store, run: seq<Command>, phone: Phone) {
    var cooldowns, t := Exec(s0, run).limits.cooldowns, LastAnswered(s0, run, phone);
    (phone in cooldowns <==> t.Some?) && (t.Some? ==> cooldowns[phone] == t.value + s0.cfg.otpCooldown)
  }

  lemma {:induction false} AlwaysCooldown(s0: Store, run: seq<Command>, phone: Phone)
    requires Genesis(s0) && ValidRun(s0, run) && s0.cfg.otpCooldown > 0
    ensures KeyIsCooldown(s0, run, phone) && Exec(s0, run).cfg == s0.cfg
  {
    if run != [] {
      var past, c := run[..|run| - 1], run[|run| - 1];
      AlwaysCooldown(s0, past, phone);
      StepWithin(Exec(s0, past), c);
      if c.RequestOtp? { Outcomes.RequestCounts(Exec(s0, past), c); }
    }
  }

  lemma BusyIff(l: Limits, run: seq<Command>, ip: string, now: Time)
    requires ip != "" ==> KeyIsWindow(l, run, ip)
    ensures Outcomes.AddressBusy(l, ip, now) <==>
            ip != "" && Opened(run, ip).Some? && now < Opened(run, ip).value + 600
                && SentSince(run, ip, Opened(run, ip).value) >= 10
  {
  }

  lemma WaitsIff(s0: Store, run: seq<Command>, phone: Phone, now: Time)
    requires s0.cfg.otpCooldown > 0 ==> KeyIsCooldown(s0, run, phone)
    ensures var l, t, cooldown := Exec(s0, run).limits, LastAnswered(s0, run, phone), s0.cfg.otpCooldown;
            && (Outcomes.PhoneWaits(l, phone, cooldown, now) <==> cooldown > 0 && t.Some? && now < t.value + cooldown)
            && (Outcomes.PhoneWaits(l, phone, cooldown, now) ==> l.cooldowns[phone] == t.value + cooldown)
  {
  }

  ghost predicate Busy(run: seq<Command>, ip: string, now: Time) {
    var o := Opened(run, ip);
    ip != "" && o.Some? && now < o.value + 600 && SentSince(run, ip, o.value) >= 10
  }

  ghost predicate Waits(s0: Store, run: seq<Command>, phone: Phone, now: Time) {
    var t, cooldown := LastAnswered(s0, run, phone), s0.cfg.otpCooldown;
    cooldown > 0 && t.Some? && now < t.value + cooldown
  }

  lemma HistoryTells(s0: Store, run: seq<Command>, ip: string, phone: Phone, now: Time)
    requires Genesis(s0) && ValidRun(s0, run)
    ensures var l, cooldown := Exec(s0, run).limits, s0.cfg.otpCooldown;
            && Exec(s0, run).cfg == s0.cfg
            && (Outcomes.AddressBusy(l, ip, now) <==> Busy(run, ip, now))
            && (Outcomes.PhoneWaits(l, phone, cooldown, now) <==> Waits(s0, run, phone, now))
            && LeftByKey(l, phone, cooldown, now) == LeftToWait(s0, run, phone, now)
  {
    RunLimits(s0, run);
    if ip != "" { AlwaysWindow(s0, run, ip); }
    if s0.cfg.otpCooldown > 0 { AlwaysCooldown(s0, run, phone); }
    BusyIff(Exec(s0, run).limits, run, ip, now);
    WaitsIff(s0, run, phone, now);
  }

  /** The three answers to a request. */
  function Reply(busy: bool, waits: bool, left: int, cfg: Settings): Response {
    if busy then Failed(RateLimited(cfg.otpCooldown))
    else if waits then Failed(RateLimited(left))
    else OtpRequested(cfg.otpLifetime, cfg.otpCooldown)
  }

  /** In every run a code request is answered by what was asked and answered
      before: refused while ten requests of its address fall in the window that
      is open, then while the last answered request for the phone is less than
      a cooldown ago, for exactly the seconds left; and otherwise accepted. */
  lemma AnswerFollowsRequests(s0: Store, run: seq<Command>, c: Command)
    requires Genesis(s0) && ValidRun(s0, run) && c.RequestOtp?
    ensures Step(Exec(s0, run), c).response ==
            Reply(Busy(run, c.ip, c.now), Waits(s0, run, c.phone, c.now), LeftToWait(s0, run, c.phone, c.now), s0.cfg)
  {
    AnswerByLimits(Exec(s0, run), c);
    HistoryTells(s0, run, c.ip, c.phone, c.now);
  }

  /** Seconds to the end of the phone's cooldown. */
  ghost function LeftToWait(s0: Store, run: seq<Command>, phone: Phone, now: Time): int {
    if Waits(s0, run, phone, now) then LastAnswered(s0, run, phone).value + s0.cfg.otpCooldown - now else 0
  }

  function LeftByKey(l: Limits, phone: Phone, cooldown: int, now: Time): int {
    if Outcomes.PhoneWaits(l, phone, cooldown, now) then l.cooldowns[phone] - now else 0
  }

  lemma AnswerByLimits(s: Store, c: Command)
    requires c.RequestOtp?
    ensures Step(s, c).response ==
            Reply(Outcomes.AddressBusy(s.limits, c.ip, c.now),
                Outcomes.PhoneWaits(s.limits, c.phone, s.cfg.otpCooldown, c.now),
                   LeftByKey(s.limits, c.phone, s.cfg.otpCooldown, c.now), s.cfg)
  {
    Outcomes.RequestIff(s, c);
  }
}

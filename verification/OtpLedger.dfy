/** One-time codes: what became of every code ever compared, and how many wrong
    guesses a phone can receive. */
module OtpLedger {
  import opened Domain
  import opened Counting
  import opened RateLimiter
  import opened IdentityStore
  import opened Footprint

  function Wrong(ledger: seq<Verdict>, o: OtpId): nat {
    if ledger == [] then 0
    else
      var v := ledger[|ledger| - 1];
      Wrong(ledger[..|ledger| - 1], o) + if v.otp == o && !v.right then 1 else 0
  }

  function Right(ledger: seq<Verdict>, o: OtpId): nat {
    if ledger == [] then 0
    else
      var v := ledger[|ledger| - 1];
      Right(ledger[..|ledger| - 1], o) + if v.otp == o && v.right then 1 else 0
  }

  /** A code is open, or opened one session, or burned at the ceiling. */
  ghost predicate CodeAccounted(cfg: Settings, ledger: seq<Verdict>, o: OtpId, code: OtpCode) {
    && code.attempts == Wrong(ledger, o) <= cfg.otpMaxAttempts
    && Right(ledger, o) <= 1
    && code.expiresAt == code.createdAt + cfg.otpLifetime
    && (code.consumedAt.None? <==> Right(ledger, o) == 0 && code.attempts < cfg.otpMaxAttempts)
    && !(Right(ledger, o) == 1 && code.attempts == cfg.otpMaxAttempts)
  }

  ghost predicate VerdictPlaced(otps: map<OtpId, OtpCode>, v: Verdict) {
    && v.otp in otps && otps[v.otp].phone == v.phone
    && otps[v.otp].createdAt <= v.at < otps[v.otp].expiresAt
  }

  ghost predicate Accounted(cfg: Settings, otps: map<OtpId, OtpCode>, ledger: seq<Verdict>) {
    && (forall o :: o in otps ==> CodeAccounted(cfg, ledger, o, otps[o]))
    && (forall i :: 0 <= i < |ledger| ==> VerdictPlaced(otps, ledger[i]))
  }

  /** Codes of one phone are at least a cooldown apart, and the limiter still
      remembers the last one. */
  ghost predicate Paced(cfg: Settings, otps: map<OtpId, OtpCode>, cooldowns: map<Phone, Time>) {
    && (forall o, p {:trigger otps[o].createdAt, otps[p].createdAt} ::
          o in otps && p in otps && o != p && otps[o].phone == otps[p].phone ==>
            otps[o].createdAt + cfg.otpCooldown <= otps[p].createdAt
                || otps[p].createdAt + cfg.otpCooldown <= otps[o].createdAt)
    && (forall o :: o in otps ==>
          otps[o].phone in cooldowns && otps[o].createdAt + cfg.otpCooldown <= cooldowns[otps[o].phone])
  }

  ghost predicate Sound(s: Store) {
    && s.cfg.otpMaxAttempts >= 1
    && Accounted(s.cfg, s.db.otps, s.ledger)
    && (forall o :: o in s.db.otps ==> s.db.otps[o].createdAt <= s.clock)
    && (s.cfg.otpCooldown > 0 ==> Paced(s.cfg, s.db.otps, s.limits.cooldowns))
  }

  lemma {:induction false} Absent(ledger: seq<Verdict>, o: OtpId)
    requires forall i :: 0 <= i < |ledger| ==> ledger[i].otp != o
    ensures Wrong(ledger, o) == 0 && Right(ledger, o) == 0
  {
    if ledger != [] {
      Absent(ledger[..|ledger| - 1], o);
    }
  }

  lemma OneMoreVerdict(ledger: seq<Verdict>, v: Verdict, o: OtpId)
    ensures Wrong(ledger + [v], o) == Wrong(ledger, o) + if v.otp == o && !v.right then 1 else 0
    ensures Right(ledger + [v], o) == Right(ledger, o) + if v.otp == o && v.right then 1 else 0
  {
    assert (ledger + [v])[..|ledger|] == ledger;
  }

  lemma Judge(cfg: Settings, otps: map<OtpId, OtpCode>, ledger: seq<Verdict>, v: Verdict, code: OtpCode)
    requires cfg.otpMaxAttempts >= 1 && Accounted(cfg, otps, ledger) && VerdictPlaced(otps, v)
    requires otps[v.otp].consumedAt.None?
    requires code == otps[v.otp].(consumedAt := code.consumedAt, attempts := code.attempts)
    requires code.attempts == otps[v.otp].attempts + (if v.right then 0 else 1)
    requires code.consumedAt.Some? <==> v.right || code.attempts >= cfg.otpMaxAttempts
    ensures Accounted(cfg, otps[v.otp := code], ledger + [v])
  {
    var after := otps[v.otp := code];
    forall o | o in after
      ensures CodeAccounted(cfg, ledger + [v], o, after[o])
    {
      assert CodeAccounted(cfg, ledger, o, otps[o]);
      JudgedCode(cfg, ledger, v, o, otps[o], after[o]);
    }
    forall i | 0 <= i < |ledger + [v]|
      ensures VerdictPlaced(after, (ledger + [v])[i])
    {
      StillPlaced(otps, v.otp, code, if i < |ledger| then ledger[i] else v);
    }
  }

  lemma JudgedCode(cfg: Settings, ledger: seq<Verdict>, v: Verdict, o: OtpId, was: OtpCode, code: OtpCode)
    requires cfg.otpMaxAttempts >= 1 && CodeAccounted(cfg, ledger, o, was)
    requires code == was.(consumedAt := code.consumedAt, attempts := code.attempts)
    requires if v.otp != o then code == was
             else
               && was.consumedAt.None? && code.attempts == was.attempts + (if v.right then 0 else 1)
               && (code.consumedAt.Some? <==> v.right || code.attempts >= cfg.otpMaxAttempts)
    ensures CodeAccounted(cfg, ledger + [v], o, code)
  {
    OneMoreVerdict(ledger, v, o);
  }

  lemma StillPlaced(otps: map<OtpId, OtpCode>, o: OtpId, code: OtpCode, v: Verdict)
    requires VerdictPlaced(otps, v) && o in otps
    requires code == otps[o].(consumedAt := code.consumedAt, attempts := code.attempts)
    ensures VerdictPlaced(otps[o := code], v)
  {
  }

  lemma Mint(cfg: Settings, otps: map<OtpId, OtpCode>, ledger: seq<Verdict>, o: OtpId, code: OtpCode)
    requires cfg.otpMaxAttempts >= 1 && Accounted(cfg, otps, ledger) && o !in otps
    requires code.attempts == 0 && code.consumedAt.None? && code.expiresAt == code.createdAt + cfg.otpLifetime
    ensures Accounted(cfg, otps[o := code], ledger)
  {
    forall i | 0 <= i < |ledger|
      ensures VerdictPlaced(otps[o := code], ledger[i]) && ledger[i].otp != o
    {
      assert VerdictPlaced(otps, ledger[i]);
    }
    Absent(ledger, o);
    forall p | p in otps
      ensures CodeAccounted(cfg, ledger, p, otps[o := code][p])
    {
      assert CodeAccounted(cfg, ledger, p, otps[p]);
    }
  }

  /** A code is only minted once the cooldown of the phone has run out. */
  lemma MintPaced(cfg: Settings, otps: map<OtpId, OtpCode>, cooldowns: map<Phone, Time>, o: OtpId, code: OtpCode)
    requires cfg.otpCooldown > 0 && Paced(cfg, otps, cooldowns) && o !in otps
    requires code.phone in cooldowns ==> cooldowns[code.phone] <= code.createdAt
    ensures Paced(cfg, otps[o := code], cooldowns[code.phone := code.createdAt + cfg.otpCooldown])
  {
  }

  lemma ArmPaced(cfg: Settings, otps: map<OtpId, OtpCode>, cooldowns: map<Phone, Time>, phone: Phone, now: Time)
    requires cfg.otpCooldown > 0 && Paced(cfg, otps, cooldowns)
    requires phone in cooldowns ==> cooldowns[phone] <= now
    ensures Paced(cfg, otps, cooldowns[phone := now + cfg.otpCooldown])
  {
  }

  lemma JudgePaced(cfg: Settings, otps: map<OtpId, OtpCode>, cooldowns: map<Phone, Time>, o: OtpId, code: OtpCode)
    requires Paced(cfg, otps, cooldowns) && o in otps
    requires code.phone == otps[o].phone && code.createdAt == otps[o].createdAt
    ensures Paced(cfg, otps[o := code], cooldowns)
  {
  }

  ghost predicate RequestEffect(s: Store, c: Command, otps': map<OtpId, OtpCode>, limits': Limits)
    requires c.RequestOtp?
  {
    var code := OtpCode(c.phone, Digest(c.code), c.now + s.cfg.otpLifetime, c.now, None, 0);
    || (otps' == s.db.otps && limits'.cooldowns == s.limits.cooldowns)
    || (&& (otps' == s.db.otps || otps' == s.db.otps[c.newOtp := code])
        && limits'.cooldowns == MarkSent(s.limits, c.phone, s.cfg.otpCooldown, c.now).cooldowns
        && CooldownLeft(s.limits, c.phone, s.cfg.otpCooldown, c.now) <= 0)
  }

  /** Nothing about codes, or a cooldown that had run out and is armed again,
      with or without a new code. */
  lemma RequestCases(s: Store, c: Command)
    requires c.RequestOtp?
    ensures var s' := DoRequestOtp(s, c).store;
            && s'.cfg == s.cfg && s'.ledger == s.ledger && s'.clock == s.clock
            && RequestEffect(s, c, s'.db.otps, s'.limits)
  {
  }

  lemma RequestPaces(s: Store, c: Command, otps': map<OtpId, OtpCode>, limits': Limits)
    requires c.RequestOtp? && c.newOtp !in s.db.otps && s.cfg.otpCooldown > 0
    requires Paced(s.cfg, s.db.otps, s.limits.cooldowns) && RequestEffect(s, c, otps', limits')
    ensures Paced(s.cfg, otps', limits'.cooldowns)
  {
    if otps' != s.db.otps {
      MintPaced(s.cfg, s.db.otps, s.limits.cooldowns, c.newOtp, otps'[c.newOtp]);
    } else if limits'.cooldowns != s.limits.cooldowns {
      ArmPaced(s.cfg, s.db.otps, s.limits.cooldowns, c.phone, c.now);
    }
  }

  lemma RequestKeeps(s: Store, c: Command)
    requires Sound(s) && c.RequestOtp? && c.newOtp !in s.db.otps && s.clock == c.now
    ensures Sound(DoRequestOtp(s, c).store)
  {
    RequestCases(s, c);
    var s' := DoRequestOtp(s, c).store;
    if s.cfg.otpCooldown > 0 {
      RequestPaces(s, c, s'.db.otps, s'.limits);
    }
    if s'.db.otps != s.db.otps {
      Mint(s.cfg, s.db.otps, s.ledger, c.newOtp, s'.db.otps[c.newOtp]);
    }
  }

  /** What a verification writes about codes is decided by its answer. */
  lemma VerdictRecorded(s: Store, c: Command)
    requires c.VerifyOtp?
    ensures var s' := DoVerifyOtp(s, c).store; var r := DoVerifyOtp(s, c).response;
            && s'.cfg == s.cfg && s'.limits == s.limits && s'.clock == s.clock
            && var judged := r.LoggedIn?
                || (r.Failed?
                    && (r.error.OtpTooManyAttempts? || (r.error.OtpInvalid? && r.error.attemptsRemaining.Some?)));
               if !judged then s'.db.otps == s.db.otps && s'.ledger == s.ledger
               else
                 && IsLatestActive(s.db.otps, c.phone, c.pick) && c.now < s.db.otps[c.pick].expiresAt
                 && c.pick in s'.db.otps
                 && s'.ledger == s.ledger + [Verdict(c.phone, c.pick, c.now, r.LoggedIn?)]
                 && s'.db.otps == s.db.otps[c.pick := s'.db.otps[c.pick]]
                 && var was, code := s.db.otps[c.pick], s'.db.otps[c.pick];
                    && code == was.(attempts := code.attempts, consumedAt := code.consumedAt)
                    && code.attempts == was.attempts + (if r.LoggedIn? then 0 else 1)
                    && (code.consumedAt.Some? <==> r.LoggedIn? || code.attempts >= s.cfg.otpMaxAttempts)
                    && (r.LoggedIn? <==> was.codeHash == Digest(c.code))
                    && (r.Failed? ==> r.error == if code.attempts >= s.cfg.otpMaxAttempts
                          then OtpTooManyAttempts(code.attempts)
                          else OtpInvalid(Some(s.cfg.otpMaxAttempts - code.attempts)))
  {
  }

  lemma VerifyKeeps(s: Store, c: Command)
    requires Sound(s) && c.VerifyOtp? && s.clock == c.now
    ensures Sound(DoVerifyOtp(s, c).store)
  {
    VerdictRecorded(s, c);
    var s' := DoVerifyOtp(s, c).store;
    if s'.ledger != s.ledger {
      var v := Verdict(c.phone, c.pick, c.now, DoVerifyOtp(s, c).response.LoggedIn?);
      Judge(s.cfg, s.db.otps, s.ledger, v, s'.db.otps[c.pick]);
      if s.cfg.otpCooldown > 0 {
        JudgePaced(s.cfg, s.db.otps, s.limits.cooldowns, c.pick, s'.db.otps[c.pick]);
      }
    }
  }

  lemma StepKeeps(s: Store, c: Command)
    requires Sound(s) && Admissible(s, c)
    ensures Sound(Step(s, c).store) && Step(s, c).store.cfg == s.cfg
  {
    var t := s.(clock := c.now);
    if c.RequestOtp? {
      RequestKeeps(t, c);
    } else if c.VerifyOtp? {
      VerifyKeeps(t, c);
    }
    StepWithin(s, c);
  }

  lemma {:induction false} AlwaysSound(s0: Store, run: seq<Command>)
    requires Genesis(s0) && ValidRun(s0, run) && s0.cfg.otpMaxAttempts >= 1
    ensures Sound(Exec(s0, run)) && Exec(s0, run).cfg == s0.cfg
  {
    if run != [] {
      AlwaysSound(s0, run[..|run| - 1]);
      StepKeeps(Exec(s0, run[..|run| - 1]), run[|run| - 1]);
    }
  }

  // ---------------------------------------------------------------------
  // Conservation

  ghost function ConsumedCodes(otps: map<OtpId, OtpCode>, phone: Phone): set<OtpId> {
    set o | o in otps && otps[o].phone == phone && otps[o].consumedAt.Some?
  }

  ghost function BurnedCodes(cfg: Settings, otps: map<OtpId, OtpCode>, phone: Phone): set<OtpId> {
    set o | o in otps && otps[o].phone == phone && otps[o].attempts == cfg.otpMaxAttempts
  }

  function Logins(ledger: seq<Verdict>, phone: Phone): nat {
    if ledger == [] then 0
    else
      var v := ledger[|ledger| - 1];
      Logins(ledger[..|ledger| - 1], phone) + if v.right && v.phone == phone then 1 else 0
  }

  function UsedCodes(ledger: seq<Verdict>, phone: Phone): set<OtpId> {
    if ledger == [] then {}
    else
      var v := ledger[|ledger| - 1];
      UsedCodes(ledger[..|ledger| - 1], phone) + if v.right && v.phone == phone then {v.otp} else {}
  }

  lemma {:induction false} UsedWasRight(ledger: seq<Verdict>, phone: Phone, o: OtpId)
    requires forall i :: 0 <= i < |ledger| && ledger[i].otp == o ==> ledger[i].phone == phone
    ensures o in UsedCodes(ledger, phone) <==> Right(ledger, o) > 0
  {
    if ledger != [] {
      UsedWasRight(ledger[..|ledger| - 1], phone, o);
    }
  }

  lemma {:induction false} EachUsedOnce(ledger: seq<Verdict>, phone: Phone)
    requires forall i, j :: 0 <= i < j < |ledger| && ledger[i].right && ledger[j].right ==>
             ledger[i].otp != ledger[j].otp
    ensures |UsedCodes(ledger, phone)| == Logins(ledger, phone)
    ensures forall o :: o in UsedCodes(ledger, phone) ==> exists i ::
            0 <= i < |ledger| && ledger[i].right && ledger[i].otp == o
  {
    if ledger != [] {
      EachUsedOnce(ledger[..|ledger| - 1], phone);
    }
  }

  lemma {:induction false} RightTwice(ledger: seq<Verdict>, i: nat, j: nat)
    requires i < j < |ledger| && ledger[i].right && ledger[j].right && ledger[i].otp == ledger[j].otp
    ensures Right(ledger, ledger[i].otp) >= 2
  {
    var before := ledger[..|ledger| - 1];
    if j < |before| {
      RightTwice(before, i, j);
    } else {
      RightOnce(before, i);
    }
  }

  lemma {:induction false} RightOnce(ledger: seq<Verdict>, i: nat)
    requires i < |ledger| && ledger[i].right
    ensures Right(ledger, ledger[i].otp) >= 1
  {
    if i < |ledger| - 1 {
      RightOnce(ledger[..|ledger| - 1], i);
    }
  }

  /** In every reachable state the consumed codes of a phone are the logins made
      with it plus the codes burned at the ceiling. */
  lemma Conservation(s0: Store, run: seq<Command>, phone: Phone)
    requires Genesis(s0) && ValidRun(s0, run) && s0.cfg.otpMaxAttempts >= 1
    ensures var s := Exec(s0, run);
            |ConsumedCodes(s.db.otps, phone)| == Logins(s.ledger, phone) + |BurnedCodes(s.cfg, s.db.otps, phone)|
  {
    AlwaysSound(s0, run);
    CodesBalance(Exec(s0, run), phone);
  }

  lemma RightAtMostOnce(cfg: Settings, otps: map<OtpId, OtpCode>, ledger: seq<Verdict>)
    requires Accounted(cfg, otps, ledger)
    ensures forall i, j :: 0 <= i < j < |ledger| && ledger[i].right && ledger[j].right ==>
            ledger[i].otp != ledger[j].otp
  {
    forall i, j | 0 <= i < j < |ledger| && ledger[i].right && ledger[j].right
      ensures ledger[i].otp != ledger[j].otp
    {
      assert VerdictPlaced(otps, ledger[i]);
      assert CodeAccounted(cfg, ledger, ledger[i].otp, otps[ledger[i].otp]);
      if ledger[i].otp == ledger[j].otp { RightTwice(ledger, i, j); }
    }
  }

  lemma UsedOrBurned(cfg: Settings, otps: map<OtpId, OtpCode>, ledger: seq<Verdict>, phone: Phone, o: OtpId)
    requires Accounted(cfg, otps, ledger)
    ensures o in ConsumedCodes(otps, phone) <==> o in UsedCodes(ledger, phone) || o in BurnedCodes(cfg, otps, phone)
    ensures !(o in UsedCodes(ledger, phone) && o in BurnedCodes(cfg, otps, phone))
  {
    UsedPlaced(otps, ledger, phone);
    if o in otps && otps[o].phone == phone {
      assert CodeAccounted(cfg, ledger, o, otps[o]);
      forall i | 0 <= i < |ledger| && ledger[i].otp == o ensures ledger[i].phone == phone {
        assert VerdictPlaced(otps, ledger[i]);
      }
      UsedWasRight(ledger, phone, o);
    }
  }

  lemma CodesBalance(s: Store, phone: Phone)
    requires Sound(s)
    ensures |ConsumedCodes(s.db.otps, phone)| == Logins(s.ledger, phone) + |BurnedCodes(s.cfg, s.db.otps, phone)|
  {
    var used, burned := UsedCodes(s.ledger, phone), BurnedCodes(s.cfg, s.db.otps, phone);
    RightAtMostOnce(s.cfg, s.db.otps, s.ledger);
    EachUsedOnce(s.ledger, phone);
    forall o ensures o in ConsumedCodes(s.db.otps, phone) <==> o in used || o in burned
             ensures !(o in used && o in burned)
    {
      UsedOrBurned(s.cfg, s.db.otps, s.ledger, phone, o);
    }
    assert ConsumedCodes(s.db.otps, phone) == used + burned && used !! burned;
  }

  lemma {:induction false} UsedPlaced(otps: map<OtpId, OtpCode>, ledger: seq<Verdict>, phone: Phone)
    requires forall i :: 0 <= i < |ledger| ==> VerdictPlaced(otps, ledger[i])
    ensures forall o :: o in UsedCodes(ledger, phone) ==> o in otps && otps[o].phone == phone
  {
    if ledger != [] {
      UsedPlaced(otps, ledger[..|ledger| - 1], phone);
      assert VerdictPlaced(otps, ledger[|ledger| - 1]);
    }
  }

  /** A code opens at most one session, an unconsumed one has attempts left, and
      every refusal that counts an attempt says how many remain: at least one. */
  lemma AttemptsRemaining(s0: Store, run: seq<Command>, o: OtpId)
    requires Genesis(s0) && ValidRun(s0, run) && s0.cfg.otpMaxAttempts >= 1
    requires o in Exec(s0, run).db.otps
    ensures var s := Exec(s0, run);
            && Right(s.ledger, o) <= 1
            && (s.db.otps[o].consumedAt.None? ==> Right(s.ledger, o) == 0 && Wrong(s.ledger, o) < s.cfg.otpMaxAttempts)
  {
    AlwaysSound(s0, run);
  }

  lemma RefusalIsTruthful(s0: Store, run: seq<Command>, c: Command)
    requires Genesis(s0) && ValidRun(s0, run) && s0.cfg.otpMaxAttempts >= 1 && Admissible(Exec(s0, run), c)
             && c.VerifyOtp?
    ensures var r, s' := Step(Exec(s0, run), c).response, Step(Exec(s0, run), c).store;
            r.Failed? && r.error.OtpInvalid? && r.error.attemptsRemaining.Some? ==>
              && r.error.attemptsRemaining.value == s'.cfg.otpMaxAttempts - Wrong(s'.ledger, c.pick) >= 1
              && IsActive(s'.db.otps, c.phone, c.pick)
  {
    var s := Exec(s0, run);
    AlwaysSound(s0, run);
    VerdictRecorded(s.(clock := c.now), c);
    StepKeeps(s, c);
  }

  // ---------------------------------------------------------------------
  // How many wrong guesses fit in a window

  /** The wrong codes judged for `phone`, each with the code it was tried on. */
  function WrongGuesses(ledger: seq<Verdict>, phone: Phone): seq<Item> {
    if ledger == [] then []
    else
      var v := ledger[|ledger| - 1];
      WrongGuesses(ledger[..|ledger| - 1], phone) + if v.phone == phone && !v.right then [Item(v.otp, v.at)] else []
  }

  lemma {:induction false} GuessesPerCode(otps: map<OtpId, OtpCode>, ledger: seq<Verdict>, phone: Phone, o: OtpId)
    requires forall i :: 0 <= i < |ledger| ==> VerdictPlaced(otps, ledger[i])
    ensures OfGroups(WrongGuesses(ledger, phone), {o}) <= Wrong(ledger, o)
  {
    if ledger != [] {
      var before := ledger[..|ledger| - 1];
      GuessesPerCode(otps, before, phone, o);
      var guesses := WrongGuesses(ledger, phone);
      if guesses != WrongGuesses(before, phone) {
        assert guesses[..|guesses| - 1] == WrongGuesses(before, phone);
      }
    }
  }

  ghost function BornAt(otps: map<OtpId, OtpCode>, phone: Phone): map<int, Time> {
    map o | o in otps && otps[o].phone == phone :: otps[o].createdAt
  }

  lemma {:induction false} GuessesAlive(cfg: Settings, otps: map<OtpId, OtpCode>, ledger: seq<Verdict>, phone: Phone)
    requires forall i :: 0 <= i < |ledger| ==> VerdictPlaced(otps, ledger[i])
    requires forall o :: o in otps ==> otps[o].expiresAt == otps[o].createdAt + cfg.otpLifetime
    ensures Alive(WrongGuesses(ledger, phone), BornAt(otps, phone), cfg.otpLifetime)
  {
    if ledger != [] {
      GuessesAlive(cfg, otps, ledger[..|ledger| - 1], phone);
      assert VerdictPlaced(otps, ledger[|ledger| - 1]);
    }
  }

  /** In every run, the wrong codes judged for one phone in any window of length
      `span` number at most `ceil((span + lifetime) / cooldown) * ceiling`. */
  lemma WrongGuessBound(s0: Store, run: seq<Command>, phone: Phone, lo: Time, span: nat)
    requires Genesis(s0) && ValidRun(s0, run) && s0.cfg.otpMaxAttempts >= 1 && s0.cfg.otpCooldown > 0
    ensures InWindow(WrongGuesses(Exec(s0, run).ledger, phone), lo, lo + span)
         <= CeilDiv(span + s0.cfg.otpLifetime, s0.cfg.otpCooldown) * s0.cfg.otpMaxAttempts
  {
    AlwaysSound(s0, run);
    var s := Exec(s0, run);
    var guesses, born := WrongGuesses(s.ledger, phone), BornAt(s.db.otps, phone);
    assert forall o :: o in s.db.otps ==> CodeAccounted(s.cfg, s.ledger, o, s.db.otps[o]);
    GuessesAlive(s.cfg, s.db.otps, s.ledger, phone);
    forall o | o in born
      ensures OfGroups(guesses, {o}) <= s.cfg.otpMaxAttempts
    {
      GuessesPerCode(s.db.otps, s.ledger, phone, o);
    }
    BurstBound(guesses, born, s.cfg.otpMaxAttempts, s.cfg.otpLifetime, s.cfg.otpCooldown, lo, span);
  }
}

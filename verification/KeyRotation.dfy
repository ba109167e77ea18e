/** Signing keys that rotate, the service that verifies with its own ring, and
    the consumers that verify with a cached copy of the published keys. */
module KeyRotation {
  import opened Domain

  /** An RSA key pair: a signature verifies under the key that made it and no other. */
  type Key = nat

  datatype PublicKey = PublicKey(kid: string, key: Key)

  datatype KeyRing = KeyRing(activeKid: string, signing: Key, published: seq<PublicKey>)

  /** `previousKey` is the content of the configured file, if one is configured. */
  datatype KeySettings = KeySettings(
    activeKid: string, privateKey: Key, publicKey: Key, previousKid: Option<string>, previousKey: Option<Key>)

  datatype Subject = Uuid(id: UserId) | Unparsable(text: string)

  datatype TokenClaims = TokenClaims(
    sub: Option<Subject>, role: Option<string>, status: Option<string>, issuer: Option<string>,
    iat: Option<Time>, exp: Option<Time>)

  datatype Token = Garbled | Token(kid: Option<string>, signer: Key, claims: TokenClaims)

  datatype Verdict = Accepted(claims: TokenClaims) | Expired | Invalid

  datatype Identity =
    | Verified(user: UserId, role: string)
    | TokenExpired
    | TokenInvalid
    | UserNotActive(status: string)
    | Unreachable

  // ---------------------------------------------------------------------
  // The service side

  /** A half-configured previous key stops the service from starting. */
  function LoadRing(c: KeySettings): Option<KeyRing> {
    var named := c.previousKid.Some? && c.previousKid.value != "";
    var active := PublicKey(c.activeKid, c.publicKey);
    if named && c.previousKey.Some? then
      Some(KeyRing(c.activeKid, c.privateKey, [active, PublicKey(c.previousKid.value, c.previousKey.value)]))
    else if named || c.previousKey.Some? then None
    else Some(KeyRing(c.activeKid, c.privateKey, [active]))
  }

  /** The service takes the first published key of that id. */
  function ServiceKey(keys: seq<PublicKey>, kid: string): Option<Key> {
    if keys == [] then None
    else if keys[0].kid == kid then Some(keys[0].key)
    else ServiceKey(keys[1..], kid)
  }

  function Issue(ring: KeyRing, user: UserId, role: string, status: string, issuer: string, now: Time,
                 life: nat): Token {
    Token(Some(ring.activeKid), ring.signing,
          TokenClaims(Some(Uuid(user)), Some(role), Some(status), Some(issuer), Some(now), Some(now + life)))
  }

  /** The checks both sides delegate to the same JWT library call. */
  function Decode(token: Token, key: Key, issuer: string, now: Time): Verdict
    requires token.Token?
  {
    var c := token.claims;
    if token.signer != key then Invalid
    else if c.exp.None? || c.iat.None? || c.sub.None? || c.role.None? then Invalid
    else if c.iat.value > now then Invalid
    else if c.exp.value <= now then Expired
    else if c.issuer != Some(issuer) then Invalid
    else Accepted(c)
  }

  function ServiceVerdict(ring: KeyRing, token: Token, issuer: string, now: Time): Verdict {
    if token.Garbled? || token.kid.None? then Invalid
    else
      var key := ServiceKey(ring.published, token.kid.value);
      if key.None? then Invalid else Decode(token, key.value, issuer, now)
  }

  // ---------------------------------------------------------------------
  // The consumer side

  /** What a consumer remembers: the published keys by id, the last of a
      repeated id winning, and when they were fetched. */
  datatype Cache = Cache(keys: map<string, Key>, fetchedAt: Time)

  function KeyMap(keys: seq<PublicKey>): map<string, Key> {
    if keys == [] then map[]
    else KeyMap(keys[..|keys| - 1])[keys[|keys| - 1].kid := keys[|keys| - 1].key]
  }

  function Get(keys: map<string, Key>, kid: string): Option<Key> {
    if kid in keys then Some(keys[kid]) else None
  }

  predicate Fresh(c: Cache, ttl: nat, now: Time) {
    c.keys != map[] && now - c.fetchedAt <= ttl
  }

  /** A fresh enough cache that knows the id: no fetch is made. */
  predicate FreshHit(c: Cache, kid: string, ttl: nat, now: Time) {
    Fresh(c, ttl, now) && kid in c.keys
  }

  /** A fetch; None stands for a document that could not be had. */
  function Fetched(c: Cache, served: Option<seq<PublicKey>>, now: Time): Cache {
    if served.None? then c else Cache(KeyMap(served.value), now)
  }

  datatype Lookup = Found(key: Key) | Unknown | FetchFailed

  /** `_key_for`: up to two fetches, answered by `first` and `second`. */
  function KeyFor(c: Cache, kid: string, ttl: nat, first: Option<seq<PublicKey>>, second: Option<seq<PublicKey>>,
                  now: Time): (Cache, Lookup, nat)
  {
    if !Fresh(c, ttl, now) && first.None? then (c, FetchFailed, 1)
    else
      var once := if Fresh(c, ttl, now) then c else Fetched(c, first, now);
      var made := if Fresh(c, ttl, now) then 0 else 1;
      if kid in once.keys then (once, Found(once.keys[kid]), made)
      else
        var answer := if made == 0 then first else second;
        if answer.None? then (once, FetchFailed, made + 1)
        else
          var twice := Fetched(once, answer, now);
          (twice, if kid in twice.keys then Found(twice.keys[kid]) else Unknown, made + 1)
  }

  /** The further conditions a consumer sets on a token the library accepts. */
  function Narrowed(v: Verdict): Identity {
    match v
    case Expired => TokenExpired
    case Invalid => TokenInvalid
    case Accepted(c) =>
      var status := if c.status.None? then "active" else c.status.value;
      if status != "active" then UserNotActive(status)
      else if c.sub.None? || c.sub.value.Unparsable? || c.role.None? then TokenInvalid
      else Verified(c.sub.value.id, c.role.value)
  }

  predicate HasKid(token: Token) {
    token.Token? && token.kid.Some? && token.kid.value != ""
  }

  function Verify(c: Cache, token: Token, issuer: string, ttl: nat, first: Option<seq<PublicKey>>,
                  second: Option<seq<PublicKey>>, now: Time): (Cache, Identity, nat)
  {
    if !HasKid(token) then (c, TokenInvalid, 0)
    else
      var (after, key, fetches) := KeyFor(c, token.kid.value, ttl, first, second, now);
      match key
      case FetchFailed => (after, Unreachable, fetches)
      case Unknown => (after, TokenInvalid, fetches)
      case Found(k) => (after, Narrowed(Decode(token, k, issuer, now)), fetches)
  }

  class JwksIdentityVerifier {
    const issuer: string
    const ttl: nat
    var keys: map<string, Key>
    var fetchedAt: Time

    ghost function View(): Cache
      reads this
    {
      Cache(keys, fetchedAt)
    }

    constructor (issuer: string, ttl: nat)
      ensures View() == Cache(map[], 0) && this.issuer == issuer && this.ttl == ttl
    {
      this.issuer, this.ttl := issuer, ttl;
      keys, fetchedAt := map[], 0;
    }

    method Refresh(served: Option<seq<PublicKey>>, now: Time) returns (ok: bool)
      modifies this
      ensures ok == served.Some?
      ensures View() == Fetched(old(View()), served, now)
    {
      ok := served.Some?;
      if ok {
        keys := KeyMap(served.value);
        fetchedAt := now;
      }
    }

    method KeyOf(kid: string, first: Option<seq<PublicKey>>, second: Option<seq<PublicKey>>, now: Time)
      returns (r: Lookup, fetches: nat)
      modifies this
      ensures (View(), r, fetches) == KeyFor(old(View()), kid, ttl, first, second, now)
    {
      fetches := 0;
      var stale := now - fetchedAt > ttl;
      if keys == map[] || stale {
        fetches := 1;
        var ok := Refresh(first, now);
        if !ok { return FetchFailed, fetches; }
      }
      if kid !in keys {
        var ok := Refresh(if fetches == 0 then first else second, now);
        fetches := fetches + 1;
        if !ok { return FetchFailed, fetches; }
      }
      r := if kid in keys then Found(keys[kid]) else Unknown;
    }

    method VerifyToken(token: Token, first: Option<seq<PublicKey>>, second: Option<seq<PublicKey>>, now: Time)
      returns (r: Identity, fetches: nat)
      modifies this
      ensures (View(), r, fetches) == Verify(old(View()), token, issuer, ttl, first, second, now)
    {
      if token.Garbled? { return TokenInvalid, 0; }
      if token.kid.None? || token.kid.value == "" { return TokenInvalid, 0; }
      var key;
      key, fetches := KeyOf(token.kid.value, first, second, now);
      if key.FetchFailed? { return Unreachable, fetches; }
      if key.Unknown? { return TokenInvalid, fetches; }
      var verdict := Decode(token, key.key, issuer, now);
      r := Narrowed(verdict);
    }
  }

  /** When a consumer fetches, and what it then finds: nothing is fetched on a
      fresh hit, a second document only when a stale cache was replaced by one
      without the id; the last document asked for decides. */
  lemma KeyForIff(c: Cache, kid: string, ttl: nat, first: Option<seq<PublicKey>>, second: Option<seq<PublicKey>>,
                  now: Time)
    ensures var (after, r, n) := KeyFor(c, kid, ttl, first, second, now);
            var kept := c.keys != map[] && now - c.fetchedAt <= ttl;
            var answer := if n == 1 then first else second;
            && (n == 0 <==> kept && kid in c.keys) && (n == 0 ==> r == Found(c.keys[kid]) && after == c)
            && (n == 2 <==> !kept && first != None && kid !in KeyMap(first.value)) && n <= 2
            && (n > 0 && answer == None ==> r == FetchFailed)
            && (n > 0 && answer != None ==>
                  && after == Cache(KeyMap(answer.value), now)
                  && r == if kid in after.keys then Found(after.keys[kid]) else Unknown)
  {
  }

  /** Exactly which tokens the service takes, and which it calls expired. */
  lemma ServiceVerdictIff(ring: KeyRing, token: Token, issuer: string, now: Time)
    ensures var signed := token.Token? && token.kid != None
            && ServiceKey(ring.published, token.kid.value) == Some(token.signer)
                          && token.claims.exp != None && token.claims.iat != None && token.claims.sub != None
                          && token.claims.role != None && token.claims.iat.value <= now;
            var v := ServiceVerdict(ring, token, issuer, now);
            && (v.Accepted? <==> signed && now < token.claims.exp.value && token.claims.issuer == Some(issuer))
            && (v.Expired? <==> signed && token.claims.exp.value <= now)
            && (v.Accepted? ==> v.claims == token.claims)
  {
  }

  /** A consumer lets through what the library takes, if the status is active or
      not given and the subject is an account id. */
  lemma NarrowedIff(v: Verdict)
    ensures var id := Narrowed(v);
            && (id.Verified? <==>
                v.Accepted? && v.claims.role != None && (v.claims.status == None || v.claims.status == Some("active"))
                                  && v.claims.sub != None && v.claims.sub.value.Uuid?)
            && (id.UserNotActive? <==> v.Accepted? && v.claims.status != None && v.claims.status.value != "active")
            && (id.TokenExpired? <==> v.Expired?)
            && (id.Verified? ==> id.user == v.claims.sub.value.id && id.role == v.claims.role.value)
  {
  }

  // ---------------------------------------------------------------------
  // Rotations

  /** The ring is fixed for a process lifetime; a rotation is a restart. */
  datatype Release = Release(at: Time, ring: KeyRing)

  ghost predicate Timeline(h: seq<Release>) {
    |h| > 0 && forall i, j :: 0 <= i < j < |h| ==> h[i].at < h[j].at
  }

  ghost function Current(h: seq<Release>, t: Time): (i: nat)
    requires Timeline(h) && h[0].at <= t
    ensures i < |h| && h[i].at <= t && (i + 1 < |h| ==> t < h[i + 1].at)
  {
    if h[|h| - 1].at <= t then |h| - 1 else Current(h[..|h| - 1], t)
  }

  ghost function RingAt(h: seq<Release>, t: Time): KeyRing
    requires Timeline(h) && h[0].at <= t
  {
    h[Current(h, t)].ring
  }

  lemma CurrentIs(h: seq<Release>, t: Time, i: nat)
    requires Timeline(h) && i < |h| && h[i].at <= t && (i + 1 < |h| ==> t < h[i + 1].at)
    ensures h[0].at <= t && Current(h, t) == i
  {
    var j := Current(h, t);
    assert !(i < j) && !(j < i);
  }

  /** Under `ring`, the service verifies the tokens that `signer` signs. */
  predicate Publishes(ring: KeyRing, signer: KeyRing) {
    ServiceKey(ring.published, signer.activeKid) == Some(signer.signing)
  }

  /** Every token keeps its key published, at every instant until it expires. */
  ghost predicate NobodyLoggedOut(h: seq<Release>, life: nat)
    requires Timeline(h)
  {
    forall issued: Time, now: Time {:trigger RingAt(h, issued), RingAt(h, now)} ::
      h[0].at <= issued <= now < issued + life ==> Publishes(RingAt(h, now), RingAt(h, issued))
  }

  /** A token of release `i` can still be alive when release `j` starts. */
  predicate Outlives(h: seq<Release>, life: nat, i: nat, j: nat)
    requires i <= j < |h|
  {
    life > 0 && (i == j || h[j].at < h[i + 1].at - 1 + life)
  }

  ghost predicate KeptWhileNeeded(h: seq<Release>, life: nat) {
    forall i, j {:trigger h[i], h[j]} :: 0 <= i <= j < |h| && Outlives(h, life, i, j) ==>
        Publishes(h[j].ring, h[i].ring)
  }

  /** Exactly which rotation schedules log nobody out. */
  lemma RotationSafeIff(h: seq<Release>, life: nat)
    requires Timeline(h)
    ensures NobodyLoggedOut(h, life) <==> KeptWhileNeeded(h, life)
  {
    if NobodyLoggedOut(h, life) {
      forall i, j {:trigger h[i], h[j]} | 0 <= i <= j < |h| && Outlives(h, life, i, j)
        ensures Publishes(h[j].ring, h[i].ring)
      {
        NeededIsKept(h, life, i, j);
      }
    }
    if KeptWhileNeeded(h, life) {
      forall issued: Time, now: Time {:trigger RingAt(h, issued), RingAt(h, now)}
        | h[0].at <= issued <= now < issued + life
        ensures Publishes(RingAt(h, now), RingAt(h, issued))
      {
        KeptIsSafe(h, life, issued, now);
      }
    }
  }

  lemma NeededIsKept(h: seq<Release>, life: nat, i: nat, j: nat)
    requires Timeline(h) && NobodyLoggedOut(h, life) && i <= j < |h| && Outlives(h, life, i, j)
    ensures Publishes(h[j].ring, h[i].ring)
  {
    var issued := if i == j then h[i].at else h[i + 1].at - 1;
    CurrentIs(h, issued, i);
    CurrentIs(h, h[j].at, j);
    assert Publishes(RingAt(h, h[j].at), RingAt(h, issued));
  }

  lemma KeptIsSafe(h: seq<Release>, life: nat, issued: Time, now: Time)
    requires Timeline(h) && KeptWhileNeeded(h, life) && h[0].at <= issued <= now < issued + life
    ensures Publishes(RingAt(h, now), RingAt(h, issued))
  {
    var i, j := Current(h, issued), Current(h, now);
    assert i <= j;
    assert Outlives(h, life, i, j);
    assert Publishes(h[j].ring, h[i].ring);
  }

  ghost predicate Loadable(ring: KeyRing) {
    exists c :: LoadRing(c) == Some(ring)
  }

  /** With the two keys a ring can hold and a new id at every rotation, a
      schedule is safe exactly when every ring holds the right public key, each
      release keeps publishing the key it replaces, and a key that was
      introduced is replaced no sooner than its predecessor's tokens expire. */
  lemma TwoKeyRotationIff(h: seq<Release>, life: nat)
    requires Timeline(h) && life > 1
    requires forall k :: 0 <= k < |h| ==> Loadable(h[k].ring)
    requires forall i, j :: 0 <= i < j < |h| ==> h[i].ring.activeKid != h[j].ring.activeKid
    ensures NobodyLoggedOut(h, life) <==>
            && (forall k :: 0 <= k < |h| ==> Publishes(h[k].ring, h[k].ring))
            && (forall k :: 0 < k < |h| ==> Publishes(h[k].ring, h[k - 1].ring))
            && (forall k :: 1 < k < |h| ==> h[k].at - h[k - 1].at >= life - 1)
  {
    RotationSafeIff(h, life);
    if KeptWhileNeeded(h, life) {
      forall k | 0 < k < |h| ensures Publishes(h[k].ring, h[k - 1].ring) {
        assert Outlives(h, life, k - 1, k);
      }
      forall k | 0 <= k < |h| ensures Publishes(h[k].ring, h[k].ring) {
        assert Outlives(h, life, k, k);
      }
      forall k | 1 < k < |h| ensures h[k].at - h[k - 1].at >= life - 1 {
        NoThirdKey(h, life, k);
      }
    }
    if (forall k :: 1 < k < |h| ==> h[k].at - h[k - 1].at >= life - 1) {
      forall i, j {:trigger h[i], h[j]} | 0 <= i <= j < |h| && Outlives(h, life, i, j) ensures j <= i + 1 {
        OnlyTheNext(h, life, i, j);
      }
    }
  }

  lemma NoThirdKey(h: seq<Release>, life: nat, k: nat)
    requires Timeline(h) && life > 1 && KeptWhileNeeded(h, life) && 1 < k < |h|
    requires Loadable(h[k].ring)
    requires forall i, j :: 0 <= i < j < |h| ==> h[i].ring.activeKid != h[j].ring.activeKid
    ensures h[k].at - h[k - 1].at >= life - 1
  {
    if h[k].at - h[k - 1].at < life - 1 {
      assert Outlives(h, life, k - 2, k) && Outlives(h, life, k - 1, k);
      assert Publishes(h[k].ring, h[k - 2].ring) && Publishes(h[k].ring, h[k - 1].ring);
      ThreeKidsNeedThreeKeys(h[k].ring, h[k - 2].ring.activeKid, h[k - 1].ring.activeKid);
    }
  }

  lemma OnlyTheNext(h: seq<Release>, life: nat, i: nat, j: nat)
    requires Timeline(h) && life > 1 && i <= j < |h| && Outlives(h, life, i, j)
    requires forall k :: 1 < k < |h| ==> h[k].at - h[k - 1].at >= life - 1
    ensures j <= i + 1
  {
    var k := i + 2;
    assert k < |h| ==> h[k].at - h[k - 1].at >= life - 1;
  }

  lemma ThreeKidsNeedThreeKeys(ring: KeyRing, a: string, b: string)
    requires Loadable(ring)
    requires a != b && a != ring.activeKid && b != ring.activeKid
    ensures ServiceKey(ring.published, a).None? || ServiceKey(ring.published, b).None?
  {
    var keys := ring.published;
    assert keys[0].kid == ring.activeKid;
    assert forall kid :: ServiceKey(keys[1..], kid).Some? ==> |keys| == 2 && kid == keys[1].kid by {
      if |keys| == 2 { assert keys[1..] == [keys[1]] && keys[1..][1..] == []; }
    }
  }

  // ---------------------------------------------------------------------
  // Two lookups, one document

  ghost predicate OneKeyPerKid(keys: seq<PublicKey>) {
    forall i, j {:trigger keys[i], keys[j]} :: 0 <= i < |keys| && 0 <= j < |keys| && keys[i].kid == keys[j].kid ==>
        keys[i].key == keys[j].key
  }

  /** A ring the service starts with is read the same way on both sides,
      except when the previous key carries the active id and differs. */
  lemma SameLookupIff(c: KeySettings)
    requires LoadRing(c).Some?
    ensures var keys := LoadRing(c).value.published;
            (forall kid {:trigger ServiceKey(keys, kid)} :: ServiceKey(keys, kid) == Get(KeyMap(keys), kid)) <==>
            !(c.previousKid == Some(c.activeKid) && c.previousKey.Some? && c.previousKey.value != c.publicKey)
  {
    var keys := LoadRing(c).value.published;
    if |keys| == 1 {
      assert keys[..0] == [] && keys[1..] == [];
      assert KeyMap(keys) == map[c.activeKid := c.publicKey];
    } else {
      assert keys[..1][..0] == [] && keys[1..][1..] == [];
      assert KeyMap(keys[..1]) == map[c.activeKid := c.publicKey];
      assert KeyMap(keys) == map[c.activeKid := c.publicKey][c.previousKid.value := c.previousKey.value];
      assert keys[1..] == [PublicKey(c.previousKid.value, c.previousKey.value)];
      assert ServiceKey(keys, c.activeKid) == Some(c.publicKey);
      assert forall kid :: ServiceKey(keys[1..], kid) == if kid == c.previousKid.value then c.previousKey else None;
    }
  }

  lemma {:induction false} ServiceKeySpec(keys: seq<PublicKey>, kid: string)
    ensures ServiceKey(keys, kid).None? ==> forall i :: 0 <= i < |keys| ==> keys[i].kid != kid
    ensures ServiceKey(keys, kid).Some? ==> PublicKey(kid, ServiceKey(keys, kid).value) in keys
  {
    if keys != [] && keys[0].kid != kid { ServiceKeySpec(keys[1..], kid); }
  }

  lemma {:induction false} KeyMapSpec(keys: seq<PublicKey>, kid: string)
    ensures kid in KeyMap(keys) ==> PublicKey(kid, KeyMap(keys)[kid]) in keys
    ensures kid !in KeyMap(keys) ==> forall i :: 0 <= i < |keys| ==> keys[i].kid != kid
  {
    if keys != [] && keys[|keys| - 1].kid != kid { KeyMapSpec(keys[..|keys| - 1], kid); }
  }

  lemma SameLookup(keys: seq<PublicKey>, kid: string)
    requires OneKeyPerKid(keys)
    ensures ServiceKey(keys, kid) == Get(KeyMap(keys), kid)
  {
    ServiceKeySpec(keys, kid);
    KeyMapSpec(keys, kid);
  }

  // ---------------------------------------------------------------------
  // Consumers of a rotating service

  /** No id ever names two keys, within a ring or across the history. */
  ghost predicate KidsNeverReused(h: seq<Release>) {
    forall i, j, a, b {:trigger a in h[i].ring.published, b in h[j].ring.published} ::
      0 <= i < |h| && 0 <= j < |h| && a in h[i].ring.published && b in h[j].ring.published && a.kid == b.kid ==>
          a.key == b.key
  }

  /** A verification attempt at `now`; the endpoint serves the current ring
      unless the fetch fails. */
  datatype Call = Call(token: Token, now: Time, firstUp: bool, secondUp: bool)

  ghost function Served(h: seq<Release>, up: bool, now: Time): Option<seq<PublicKey>>
    requires Timeline(h) && h[0].at <= now
  {
    if up then Some(RingAt(h, now).published) else None
  }

  ghost predicate InOrder(h: seq<Release>, calls: seq<Call>, now: Time)
    requires Timeline(h)
  {
    if calls == [] then h[0].at <= now
    else
      var last := calls[|calls| - 1];
      last.now <= now && InOrder(h, calls[..|calls| - 1], last.now)
  }

  lemma {:induction false} Started(h: seq<Release>, calls: seq<Call>, now: Time)
    requires Timeline(h) && InOrder(h, calls, now)
    ensures h[0].at <= now
  {
    if calls != [] { Started(h, calls[..|calls| - 1], calls[|calls| - 1].now); }
  }

  /** The cache of a consumer that starts empty and has made these calls. */
  ghost function CacheAfter(h: seq<Release>, issuer: string, ttl: nat, calls: seq<Call>, now: Time): Cache
    requires Timeline(h) && InOrder(h, calls, now)
    decreases |calls|
  {
    if calls == [] then Cache(map[], 0)
    else
      var c := calls[|calls| - 1];
      Started(h, calls[..|calls| - 1], c.now);
      Verify(CacheAfter(h, issuer, ttl, calls[..|calls| - 1], c.now), c.token, issuer, ttl,
             Served(h, c.firstUp, c.now), Served(h, c.secondUp, c.now), c.now).0
  }

  ghost predicate Earlier(h: seq<Release>, c: Cache, now: Time)
    requires Timeline(h)
  {
    c.keys == map[] || (h[0].at <= c.fetchedAt <= now && c.keys == KeyMap(RingAt(h, c.fetchedAt).published))
  }

  lemma FetchIsEarlier(h: seq<Release>, issuer: string, ttl: nat, cache: Cache, c: Call)
    requires Timeline(h) && h[0].at <= c.now && Earlier(h, cache, c.now)
    ensures var first, second := Served(h, c.firstUp, c.now), Served(h, c.secondUp, c.now);
            Earlier(h, Verify(cache, c.token, issuer, ttl, first, second, c.now).0, c.now)
  {
    var first, second := Served(h, c.firstUp, c.now), Served(h, c.secondUp, c.now);
    var after := Verify(cache, c.token, issuer, ttl, first, second, c.now).0;
    assert after == cache || after == Cache(KeyMap(RingAt(h, c.now).published), c.now);
  }

  lemma {:induction false} CacheIsEarlier(h: seq<Release>, issuer: string, ttl: nat, calls: seq<Call>, now: Time)
    requires Timeline(h) && InOrder(h, calls, now)
    ensures Earlier(h, CacheAfter(h, issuer, ttl, calls, now), now)
    decreases |calls|
  {
    if calls != [] {
      var c := calls[|calls| - 1];
      Started(h, calls[..|calls| - 1], c.now);
      CacheIsEarlier(h, issuer, ttl, calls[..|calls| - 1], c.now);
      FetchIsEarlier(h, issuer, ttl, CacheAfter(h, issuer, ttl, calls[..|calls| - 1], c.now), c);
    }
  }

  lemma RingSeparates(h: seq<Release>, now: Time)
    requires Timeline(h) && KidsNeverReused(h) && h[0].at <= now
    ensures OneKeyPerKid(RingAt(h, now).published)
  {
    var keys := RingAt(h, now).published;
    forall i, j {:trigger keys[i], keys[j]} | 0 <= i < |keys| && 0 <= j < |keys| && keys[i].kid == keys[j].kid
      ensures keys[i].key == keys[j].key
    {
      assert keys[i] in h[Current(h, now)].ring.published && keys[j] in h[Current(h, now)].ring.published;
    }
  }

  /** An older copy of the keys is right about every id still published. */
  lemma OldCopyRight(h: seq<Release>, seen: Time, now: Time, kid: string)
    requires Timeline(h) && KidsNeverReused(h) && h[0].at <= seen && h[0].at <= now
    requires kid in KeyMap(RingAt(h, seen).published)
    ensures var key := ServiceKey(RingAt(h, now).published, kid);
            key.Some? ==> key.value == KeyMap(RingAt(h, seen).published)[kid]
  {
    KeyMapSpec(RingAt(h, seen).published, kid);
    ServiceKeySpec(RingAt(h, now).published, kid);
    var key := ServiceKey(RingAt(h, now).published, kid);
    if key.Some? {
      assert PublicKey(kid, KeyMap(RingAt(h, seen).published)[kid]) in h[Current(h, seen)].ring.published;
      assert PublicKey(kid, key.value) in h[Current(h, now)].ring.published;
    }
  }

  /** No rotation logs anyone out of a consumer: whatever it did before, it
      gives an unexpired token the service's own verdict, with the key that
      signed it, in at most two fetches and in none on a fresh hit. */
  lemma NoRotationLogsOut(h: seq<Release>, issuer: string, ttl: nat, life: nat, calls: seq<Call>,
                          user: UserId, role: string, status: string, issued: Time, now: Time)
    requires Timeline(h) && KidsNeverReused(h) && NobodyLoggedOut(h, life)
    requires h[0].at <= issued <= now < issued + life && InOrder(h, calls, now)
    requires RingAt(h, issued).activeKid != ""
    ensures var ring := RingAt(h, issued);
            var token := Issue(ring, user, role, status, issuer, issued, life);
            var cache := CacheAfter(h, issuer, ttl, calls, now);
            var up := Served(h, true, now);
            var (after, key, fetches) := KeyFor(cache, ring.activeKid, ttl, up, up, now);
            var (_, identity, spent) := Verify(cache, token, issuer, ttl, up, up, now);
            && key == Found(ring.signing)
            && fetches == spent <= 2 && (FreshHit(cache, ring.activeKid, ttl, now) ==> fetches == 0)
            && identity == Narrowed(ServiceVerdict(RingAt(h, now), token, issuer, now))
            && identity == if status == "active" then Verified(user, role) else UserNotActive(status)
  {
    var ring := RingAt(h, issued);
    var cache := CacheAfter(h, issuer, ttl, calls, now);
    CacheIsEarlier(h, issuer, ttl, calls, now);
    assert Publishes(RingAt(h, now), ring);
    RingSeparates(h, now);
    SameLookup(RingAt(h, now).published, ring.activeKid);
    if FreshHit(cache, ring.activeKid, ttl, now) {
      OldCopyRight(h, cache.fetchedAt, now, ring.activeKid);
    }
  }

  /** The token is whole, signed by `key`, not from the future, and either
      expired or one that a consumer has something to say about. */
  predicate Telling(token: Token, key: Key, issuer: string, now: Time)
    requires token.Token?
  {
    var c := token.claims;
    && token.signer == key
    && c.exp.Some? && c.iat.Some? && c.sub.Some? && c.role.Some? && c.iat.value <= now
    && (c.exp.value <= now
        || (c.issuer == Some(issuer) && ((c.status.Some? && c.status.value != "active") || c.sub.value.Uuid?)))
  }

  /** Exactly when a consumer and the service answer one token differently. */
  lemma DivergesIff(h: seq<Release>, issuer: string, ttl: nat, calls: seq<Call>, token: Token, now: Time)
    requires Timeline(h) && KidsNeverReused(h) && InOrder(h, calls, now) && h[0].at <= now
    requires HasKid(token)
    ensures var cache := CacheAfter(h, issuer, ttl, calls, now);
            var up := Served(h, true, now);
            var kid := token.kid.value;
            var (_, answer, _) := Verify(cache, token, issuer, ttl, up, up, now);
            answer != Narrowed(ServiceVerdict(RingAt(h, now), token, issuer, now)) <==>
            && FreshHit(cache, kid, ttl, now) && ServiceKey(RingAt(h, now).published, kid).None?
            && Telling(token, cache.keys[kid], issuer, now)
  {
    var cache := CacheAfter(h, issuer, ttl, calls, now);
    var kid := token.kid.value;
    CacheIsEarlier(h, issuer, ttl, calls, now);
    RingSeparates(h, now);
    SameLookup(RingAt(h, now).published, kid);
    if FreshHit(cache, kid, ttl, now) {
      OldCopyRight(h, cache.fetchedAt, now, kid);
    }
  }

  /** A withdrawn key is believed for one cache lifetime and no longer. */
  lemma WithdrawnKeyForgotten(h: seq<Release>, issuer: string, ttl: nat, calls: seq<Call>, token: Token,
                              withdrawn: Time, now: Time)
    requires Timeline(h) && InOrder(h, calls, now) && h[0].at <= withdrawn && withdrawn + ttl < now
    requires HasKid(token)
    requires forall t: Time {:trigger RingAt(h, t)} :: withdrawn <= t <= now ==>
               forall k :: 0 <= k < |RingAt(h, t).published| ==> RingAt(h, t).published[k].kid != token.kid.value
    ensures forall first: bool, second: bool ::
              var cache := CacheAfter(h, issuer, ttl, calls, now);
              var id := Verify(cache, token, issuer, ttl, Served(h, first, now), Served(h, second, now), now).1;
              id == TokenInvalid || id == Unreachable
  {
    var cache := CacheAfter(h, issuer, ttl, calls, now);
    var kid := token.kid.value;
    CacheIsEarlier(h, issuer, ttl, calls, now);
    KeyMapSpec(RingAt(h, now).published, kid);
    if cache.keys != map[] && withdrawn <= cache.fetchedAt {
      KeyMapSpec(RingAt(h, cache.fetchedAt).published, kid);
    }
  }
}

# DiddiFreeID: a verified model

DiddiFreeID keeps the accounts of an ecosystem of modules. It registers phones,
sends and checks one-time codes, hands out access and refresh tokens, lets
accounts ask for roles that need a KYC decision, and tells the other modules
what changed through an event stream. This project models that behaviour in
Dafny and proves what holds over every run, not only what one command does.

## How it is organised

| files | what they hold |
|---|---|
| `Domain`, `IdentityStore` | the tables, each command as one committed step on them, and runs (`Step`, `ValidRun`, `Exec`) |
| `IdentityService`, `RateLimiter` | the service as mutable objects: an open transaction over committed tables, Redis keys, repository calls in the source's order. Every command is proved equal to its step |
| `RoleAudit`, `StatusAudit` | the two audit tables determine the accounts |
| `Outcomes`, `Journeys` | one condition per answer of each command, on the tables and inputs alone; what a person gets done over whole runs |
| `Footprint`, `Accounts` | what each command may write, proved once and reused by the invariants; what no command does to an account |
| `Answers` | refused commands leave no trace in a run; what access claims are worth later |
| `Sessions`, `OtpLedger`, `Provenance`, `UniformAnswer`, `Counting` | refresh tokens, one-time codes, where sessions come from, the limits |
| `EventStream`, `Subscriber`, `PendingRequests` | the stream refines the store, and a crashing subscriber still learns it; pending requests are invisible |
| `StreamConsumer`, `ProfileCache`, `KeyRotation` | protocols with finer steps than a command: crashes, readers overlapping with commands, rotating keys |
| `Backfill`, `Migration`, `Base64Url` | paginated walks, the one-shot migration, RSA parameters as text |

A store carries a little history that the service does not keep: the codes that
were compared (`ledger`), the login each refresh token descends from (`family`),
the cache keys dropped, whether a publish was ever lost, and the clock. No
command reads it to decide anything.

An error answer leaves the tables as they were, except on the paths that commit
before raising: a wrong code, a burned code, a reused refresh token. The limiter
keeps what it counted. Generated ids, random codes and tokens, the time and
whether the bus is up are inputs of a command; that ids and tokens are new is
part of `Admissible`. When two active codes share a creation time, SQL may return
either, so the row found is an input too.

## Where the code and its documentation part

* `infra/models.py:109` says a NULL `to_role` marks a refused KYC. The code
  writes the same columns for a request. `RoleAudit.KindOf` tells the two apart
  by what is pending at that point, and the replay theorem shows that this is
  always enough.
* `infra/cache.py:7-9` says that explicit invalidation on every write path gives
  correctness. Every write path does invalidate (`ProfileCache.EveryWriteInvalidates`),
  and yet a reader overtaken by a command leaves an old profile behind until its
  expiry (`ProfileCache.OvertakenReader`). An entry is current exactly when no
  command wrote the row after the read behind it (`ProfileCache.CurrentIff`);
  once all invalidations have succeeded, what is left is exactly a write between
  that read and its fill (`ProfileCache.SettledIff`).
* A cached profile never carries `requested_role`, so it equals the row's profile
  exactly when nothing is pending (`ProfileCache.CachedProfileIff`).
* `infra/token_service.py:78-82` says the service verifies the way every module
  does. The service takes the first published key of an id and a consumer's
  dictionary keeps the last; a previous key configured under the active id makes
  them differ (`KeyRotation.SameLookupIff`).
* `infra/read_repository.py:78-80` relies on `id` to make pages deterministic. It
  does for one snapshot. Between two fetches, a registration in the same instant
  with a smaller id lands on a page already read (`Backfill.SameInstantSkips`).
* `infra/read_repository.py:82-84` says that resuming from the last `created_at`
  skips nobody. That account is skipped for good once the walk has gone on to a
  later date (`Backfill.SameInstantNotResumed`); `Backfill.ResumedBackfillIff`
  says exactly whom a resumed walk misses.
* `queries/list_users.py:68` counts pages by the size asked for while
  `read_repository.py:68` serves at most 100 rows a page. The routes only let
  sizes from 1 to 100 through, which is exactly where the count is right
  (`Backfill.PageCountIff`).
* `core/keys.py:34-38` cites section 6.3 of RFC 7518. Zero comes out as the empty
  text, where section 2 of that standard asks for "AA"; every other number
  conforms (`Base64Url.ConformsIff`).

## Model

| member | source | states |
|---|---|---|
| `IdentityService.Service.RegisterUser` | identity_app/modules/identity/application/commands/register_user.py:18-45 | the new state and the answer are the register step: refused on a known phone, otherwise a plain user waiting for verification; phones stay unique |
| `IdentityService.Service.RequestOtp` | identity_app/modules/identity/application/commands/request_otp.py:29-82 | the request step: address limit, then phone cooldown, then a code only for a known phone, cooldown armed either way; a refusal keeps the counted hit |
| `IdentityService.Service.VerifyOtp` | identity_app/modules/identity/application/commands/verify_otp.py:50-148 | the verify step on whichever latest active code the database returned: missing, expired, wrong, burned, unknown account, suspended, or admitted; wrong and burned codes are committed, other errors roll back |
| `IdentityService.Service.RefreshAccessToken` | identity_app/modules/identity/application/commands/refresh_token.py:29-90 | the refresh step: rotation, or revocation of all the owner's tokens when a revoked one is presented, committed before the refusal |
| `IdentityService.Service.Logout` | identity_app/modules/identity/application/commands/logout.py:15-31 | the logout step: one token or all of the owner's, and the same answer for an unknown token |
| `IdentityService.Service.ChangeRole` | identity_app/modules/identity/application/commands/change_role.py:40-135 | the role step: request, idempotent repeat, or direct grant that clears the request and leaves the status alone |
| `IdentityService.Service.DecideKyc` | identity_app/modules/identity/application/commands/decide_kyc.py:39-127 | the decision step: request settled, role granted only on approval, `pending_kyc` released either way, both audits written |
| `IdentityService.Service.ChangeStatus` | identity_app/modules/identity/application/commands/change_status.py:33-114 | the status step, with or without a named admin: settable statuses and allowed transitions only, and a suspension revokes every session in the same transaction |
| `IdentityService.Service.UpdateProfile` | identity_app/modules/identity/application/commands/update_profile.py:29-56 | the profile step: only the name changes, and nothing at all when it is the same |
| `IdentityService.Service.SaveUser` | identity_app/modules/identity/infra/write_repository.py:51-76 | an update keeps phone and creation date, an unknown id inserts the row |
| `IdentityService.Service.LookupLatestActive` | identity_app/modules/identity/infra/write_repository.py:153-175 | returns an unconsumed code of the phone than which none is newer, and None only when there is none |
| `IdentityService.Service.RevokeAllForUser` | identity_app/modules/identity/infra/write_repository.py:251-261 | every live token of that owner is revoked now, every other row is untouched, and the number of rows revoked is returned |
| `OtpLedger.VerdictRecorded` | identity_app/modules/identity/application/commands/verify_otp.py:54-79 | the answer decides what is written about codes: a login or a counted refusal records one comparison on the latest active, unexpired code, burns it exactly at the ceiling and reports the exact remainder; any other answer writes nothing about codes |
| `Outcomes.VerifyIff` | identity_app/modules/identity/application/commands/verify_otp.py:54-92 | a login exactly for the newest unused code of the phone, alive and matching, of an account that is not suspended; and exactly when each of OTP_INVALID without a count, OTP_EXPIRED, USER_NOT_FOUND and USER_SUSPENDED is answered |
| `Outcomes.WrongCodeIff` | identity_app/modules/identity/application/commands/verify_otp.py:60-79 | a try is counted exactly when the code of the newest live code does not match, with the exact error at and below the ceiling |
| `Outcomes.WrongCodeCounts` | identity_app/modules/identity/application/commands/verify_otp.py:60-73 | a counted try adds one attempt and burns the code, now, exactly at the ceiling |
| `Outcomes.LoginEnters` | identity_app/modules/identity/application/commands/verify_otp.py:94-139 | the first login leaves the account in `pending_kyc` exactly when a role is pending and active otherwise, with one audit row and one `user.registered`; a later one changes none of it |
| `Outcomes.LoginOpens` | identity_app/modules/identity/application/commands/verify_otp.py:114-148 | a login spends the code, stores exactly one token with its device and lifetime, and answers the account's role, status and profile as committed |
| `Outcomes.RefreshIff` | identity_app/modules/identity/application/commands/refresh_token.py:31-68 | a refresh succeeds exactly for a known, live, unexpired token of an account that is active or in `pending_kyc`; and exactly when each of the three refusals is answered |
| `Outcomes.RefreshRotates` | identity_app/modules/identity/application/commands/refresh_token.py:70-90 | the successor has the same owner and login, the device given or else the old one, and a new lifetime; the presented token dies now and no other moves |
| `Outcomes.RequestIff` | identity_app/modules/identity/application/commands/request_otp.py:32-82 | refused exactly while ten requests of the address are counted in its live window, then while the phone's cooldown stands, for the seconds left; otherwise answered |
| `Outcomes.CodeStoredIff` | identity_app/modules/identity/application/commands/request_otp.py:51-74 | a code is stored exactly for an answered request on a phone that has an account, with its hash and lifetime |
| `Outcomes.RequestCounts` | identity_app/modules/identity/infra/rate_limiter.py:49-69 | every request with an address counts in a window of 600 seconds from its first; the cooldown is armed exactly by an answered request |
| `Outcomes.KycRoleAsked` | identity_app/modules/identity/application/commands/change_role.py:64-101 | asking for driver or merchant never changes the role and leaves the request pending when the role differs, with one audit row and one event, and nothing when already asked or held |
| `Outcomes.OtherRoleGranted` | identity_app/modules/identity/application/commands/change_role.py:103-135 | user and admin are granted at once and settle what was pending; nothing happens when already held |
| `Outcomes.ChangeRoleErrors` | identity_app/modules/identity/application/commands/change_role.py:58-60 | the only refusal is an unknown account |
| `Outcomes.ChangeRoleShows` | identity_app/modules/identity/application/commands/change_role.py:101-135 | the answer is the account as it now is, column by column |
| `Outcomes.DecideKycIff` | identity_app/modules/identity/application/commands/decide_kyc.py:47-127 | an approval gives the requested role and a refusal keeps the old one, nothing stays pending, `pending_kyc` becomes active; the audit row and the event tell which; each error exactly for its cause |
| `Outcomes.DecisionReleases` | identity_app/modules/identity/application/commands/decide_kyc.py:76-87 | a released account has one status row with the reason given, or a standard one that names the decision |
| `Outcomes.ChangeStatusIff` | identity_app/modules/identity/application/commands/change_status.py:42-76 | an admin can suspend any account that is not suspended and make active any that is not active, and each error has exactly one cause |
| `Outcomes.StatusMoves` | identity_app/modules/identity/application/commands/change_status.py:78-114 | the new status, its audit row and event, and exactly the live tokens of a suspended account revoked now |
| `Outcomes.UpdateProfileIff` | identity_app/modules/identity/application/commands/update_profile.py:30-56 | a profile changes exactly when a name is given that differs, and then announces the field |
| `Outcomes.WireNames` | identity_app/modules/identity/domain/events/user_events.py:39-90 | the four names on the wire, each for exactly its kind of event |
| `Journeys.FreshCodeLogsIn` | identity_app/modules/identity/application/commands/verify_otp.py:50-148 | whatever else happens in between, fewer wrong tries than the ceiling included, the code of an answered request for a known phone logs its account in before it expires, and makes a new account usable |
| `Journeys.SessionGoesOn` | identity_app/modules/identity/application/commands/refresh_token.py:59-90 | the refresh token of a login works to the end of its lifetime unless the account is suspended or one of its tokens presented first, `pending_kyc` accounts included, and answers the current role and status |
| `Journeys.RequestEndsAsDecided` | identity_app/modules/identity/application/commands/decide_kyc.py:51-87 | whoever asks for driver or merchant keeps the old role until the next decision on the account, and then has the role asked for exactly on an approval |
| `Footprint.StepWithin` | identity_app/modules/identity/application/commands/__init__.py:1-37 | no command writes a column, table or key outside its own: rows keep phone and creation date, a changed row is dated and its cache key dropped, only a registration adds one |
| `Answers.RolledBackIsInvisible` | identity_app/core/database.py:76-82 | leaving every rolled-back command out of a run gives a valid run that ends in the same store |
| `Answers.RefusalLeavesNoTrace` | identity_app/core/database.py:76-82 | an error answer leaves users, audits, stream and sessions as they were; only a counted attempt, a reused token and a counted request are kept |
| `Answers.ClaimsAreRecent` | identity_app/modules/identity/infra/token_service.py:56-73 | claims used before their lifetime ends equal the owner's role and status in a committed state of that lifetime, and the status allows a session |
| `Answers.VerifiedIsRecent` | identity_app/modules/identity/infra/token_service.py:56-73 | a consumer that lets a request through acts on an account that was active, with that very role, in a committed state of the last token lifetime |
| `Answers.NoClaimsWhileSuspended` | identity_app/modules/identity/application/commands/refresh_token.py:62-68 | from a suspension to the next reinstatement no answer carries claims naming the account, whatever is presented |
| `Answers.SuspensionReachesConsumers` | identity_app/modules/identity/application/commands/change_status.py:92-100 | one token lifetime after a suspension, no token of the run lets the account through at any consumer, whatever its key |
| `Accounts.RegistrationIff` | identity_app/modules/identity/application/commands/register_user.py:18-45 | a registration succeeds exactly for a phone nobody has, adds one plain unverified account and changes no other |
| `Accounts.NameIsLastGiven` | identity_app/modules/identity/application/commands/update_profile.py:29-56 | in every run an account bears the last name it was given, at registration or by an update |
| `Answers.SessionIsCommitted` | identity_app/modules/identity/application/commands/verify_otp.py:114-148 | a token handed out is stored by hash, expiring after its lifetime and owned by the account in the claims, which are that row's role and status and allow a session |
| `RoleAudit.AuditDeterminesAccounts` | identity_app/modules/identity/application/commands/change_role.py:64-122 | in every run, replaying a user's rows from the original role gives exactly the current role and pending request, and every pending role is a KYC role other than the current one |
| `RoleAudit.EveryRowFits` | identity_app/modules/identity/application/commands/decide_kyc.py:51-101 | every row's `from_role` is the role at that point; every approval or refusal directly follows that user's request for that very role; requests are for driver or merchant, direct grants for user or admin |
| `RoleAudit.KycGate` | identity_app/modules/identity/domain/entities.py:113-114 | an account that did not start as driver or merchant holds such a role only through an approval row, its last granting row |
| `StatusAudit.AuditIsAPath` | identity_app/modules/identity/domain/entities.py:63-90 | in every run, each account's rows form a gapless path of allowed transitions from its origin to its current status |
| `StatusAudit.EdgeIff` | identity_app/modules/identity/domain/entities.py:63-90 | the transition table is exactly: to another status, never to `pending_verification`, and to `pending_kyc` only from there |
| `StatusAudit.EnteredOnce` | identity_app/modules/identity/application/commands/verify_otp.py:94-112 | over any run, `pending_verification` is never entered and `pending_kyc` at most once |
| `StatusAudit.VerifiedForever` | identity_app/modules/identity/domain/entities.py:63-73 | a verified account is never back in `pending_verification`, in any continuation |
| `Sessions.AlwaysSound` | identity_app/modules/identity/application/commands/refresh_token.py:62-83 | in every reachable state live tokens belong to accounts that may hold a session, and a login has at most one live token |
| `Sessions.NoSession` | identity_app/modules/identity/application/commands/change_status.py:92-100 | a suspended account has no live token and a never-verified one has no token at all |
| `Sessions.RevokedForever` | identity_app/modules/identity/infra/write_repository.py:240-261 | a revoked token keeps its owner, hash and revocation date in every continuation |
| `Sessions.ReuseClosesEverySession` | identity_app/modules/identity/application/commands/refresh_token.py:36-54 | after a revoked token is presented, no token its owner had then is accepted again, whatever follows |
| `Sessions.SuspensionIsFinal` | identity_app/modules/identity/application/commands/change_status.py:92-100 | no token held before a suspension is accepted again, even after reinstatement |
| `Sessions.AcceptedOnce` | identity_app/modules/identity/application/commands/refresh_token.py:70-83 | a refresh token is accepted at most once; presenting it later is always refused as revoked |
| `Sessions.LogoutRevokes` | identity_app/modules/identity/application/commands/logout.py:16-31 | exactly the presented token, or exactly its owner's tokens, are revoked now if they were live; every other row is unchanged; an unknown token gets the same answer and ends nothing |
| `Provenance.EarnedByACode` | identity_app/modules/identity/application/commands/verify_otp.py:54-130 | every refresh token ever issued goes back to a correct code of its owner's phone, entered while it was alive |
| `Provenance.OneSessionPerCode` | identity_app/modules/identity/application/commands/verify_otp.py:81-130 | two live tokens that go back to the same code are the same token |
| `OtpLedger.AlwaysSound` | identity_app/modules/identity/infra/write_repository.py:177-196 | in every reachable state each code's attempts are its wrong comparisons, it was right at most once, and it is unconsumed exactly while neither used nor burned |
| `OtpLedger.Conservation` | identity_app/modules/identity/application/commands/verify_otp.py:60-130 | consumed codes of a phone = logins with it + codes burned at exactly the ceiling |
| `OtpLedger.AttemptsRemaining` | identity_app/modules/identity/infra/write_repository.py:177-196 | in every reachable state a code opened at most one session, and an unconsumed one opened none and has attempts left |
| `OtpLedger.RefusalIsTruthful` | identity_app/modules/identity/application/commands/verify_otp.py:73-79 | a counted refusal reports the ceiling minus the wrong comparisons, at least 1, and the code is still active |
| `OtpLedger.WrongGuessBound` | identity_app/modules/identity/application/commands/request_otp.py:40-77 | wrong codes judged for one phone in a window of length W number at most M * ceil((W + L) / C), in every run |
| `UniformAnswer.AccountsStayHidden` | identity_app/modules/identity/application/commands/request_otp.py:53-82 | the answers to code requests depend only on earlier requests: services with different accounts and different other traffic answer alike |
| `UniformAnswer.AnswerFollowsRequests` | identity_app/modules/identity/infra/rate_limiter.py:33-69 | in every run the answer to a code request is determined by the requests and answers before it: ten of the address in the window that is open, or an answered request for the phone less than a cooldown ago |
| `RateLimiter.IpBound` | identity_app/modules/identity/infra/rate_limiter.py:57-69 | any interval of k windows lets at most (k + 1) * 10 requests of one address through, for every pattern of requests |
| `UniformAnswer.AddressBound` | identity_app/modules/identity/application/commands/request_otp.py:32-38 | the same over the code requests of any run of the service, and no more of them are answered with a code on its way |
| `RateLimiter.RedisOtpRateLimiter.Hit` | identity_app/modules/identity/infra/rate_limiter.py:57-69 | INCR then EXPIRE on the first hit is the fixed-window step, and the answer is whether the count is within the allowance |
| `RateLimiter.RedisOtpRateLimiter.SecondsUntilPhoneAllowed` | identity_app/modules/identity/infra/rate_limiter.py:33-47 | the remaining cooldown, positive exactly while a live key stands |
| `EventStream.StreamRefinesStore` | identity_app/modules/identity/domain/events/user_events.py:72-97 | in every run without a lost publish, folding the stream gives each role (each old role the previous new one, never equal to its own new one), the suspended bit by wire name, and one `user.registered` per system-made exit; with losses, never more |
| `EventStream.RegisteredOnce` | identity_app/modules/identity/application/commands/verify_otp.py:134-139 | `user.registered` is never announced twice for an account, whatever was lost |
| `EventStream.CommandSays` | identity_app/modules/identity/application/commands/decide_kyc.py:105-125 | every command changes nothing a subscriber follows, or publishes (or loses) one event that says exactly what it did to one account |
| `Subscriber.CaughtUpKnowsAll` | identity_app/shared_kernel/events/bus.py:95-112 | after any run without a lost publish, a module that runs the documented loop on its stream, crashing anywhere, holds every account's current role and suspended bit once it has caught up |
| `PendingRequests.ExtraRequestsInvisible` | identity_app/modules/identity/application/commands/change_role.py:64-111 | runs that differ only by extra driver or merchant requests on verified accounts, with nothing decided, keep the same roles, statuses, codes, sessions and status audit |
| `PendingRequests.SameAnswers` | identity_app/modules/identity/application/commands/refresh_token.py:59-90 | and they give the same answer, claims included, to every later command, apart from the pending request itself |
| `StreamConsumer.HandledInOrder` | identity_app/shared_kernel/events/bus.py:95-184 | with crashes anywhere, handled events are the published ones in order with only adjacent repeats, provided the stream fits |
| `StreamConsumer.ExactlyTheFold` | identity_app/shared_kernel/events/bus.py:108-111 | a handler with f(f(s, e), e) = f(s, e) that has caught up is in exactly the state of one clean fold over the stream |
| `StreamConsumer.SafeIffFits` | identity_app/shared_kernel/events/bus.py:145-168 | a stream is safe under every crash pattern exactly when no decodable entry has more than 90 undecodable ones among the entries over nine places ahead of it |
| `StreamConsumer.NinetyFit` | identity_app/shared_kernel/events/bus.py:156-168 | up to 90 undecodable entries in all are always tolerated |
| `StreamConsumer.RedisEventConsumer.Read` | identity_app/shared_kernel/events/bus.py:145-154 | delivers the next entries, makes them pending, and returns the decodable ones in order |
| `StreamConsumer.RedisEventConsumer.ReadPending` | identity_app/shared_kernel/events/bus.py:156-168 | returns the decodable ones among the oldest pending entries and changes nothing |
| `StreamConsumer.RedisEventConsumer.Decode` | identity_app/shared_kernel/events/bus.py:174-184 | keeps exactly the decodable entries, in order, each with its own event |
| `ProfileCache.BoundedStaleness` | identity_app/modules/identity/application/queries/get_user.py:25-35 | beside any run of commands, every hit carries the stored fields of the account as it stood at a read made later than now - TTL - reader gap, whatever failed or overlapped |
| `ProfileCache.HitIff` | identity_app/modules/identity/infra/cache.py:37-80 | a read hits exactly during the 300 seconds after a fill that stored an entry, unless an invalidation took it out |
| `ProfileCache.EveryWriteInvalidates` | identity_app/modules/identity/infra/cache.py:82-88 | every command drops the key of every account whose row it changed |
| `ProfileCache.CurrentIff` | identity_app/modules/identity/infra/cache.py:1-10 | in every reachable state an entry is of the current version of the row exactly when no command wrote the row after the read of the fill that put it there |
| `ProfileCache.ShownCurrentIff` | identity_app/modules/identity/infra/cache.py:65-80 | when no two writes share an instant, the stored fields equal the row's exactly when nothing was written since that read |
| `ProfileCache.SettledIff` | identity_app/modules/identity/infra/cache.py:82-88 | once every owed invalidation was made and succeeded, an entry is old exactly when a command wrote the row between the read and the fill |
| `ProfileCache.OvertakenReader` | identity_app/modules/identity/infra/cache.py:1-10 | a run with one profile update, no failure and its invalidation made, that still serves the old name |
| `ProfileCache.CachedProfileIff` | identity_app/modules/identity/infra/cache.py:37-80 | a profile from the cache equals the row's exactly when nothing is pending; the claims always agree |
| `ProfileCache.RedisProfileCache.GetUserById` | identity_app/modules/identity/application/queries/get_user.py:25-35 | a hit answers from the key and changes nothing; a miss answers from the row and fills only that key; an unknown id is an error |
| `KeyRotation.RotationSafeIff` | identity_app/core/keys.py:90-123 | every token keeps its key published until it expires exactly when each ring publishes the signing keys of all rings whose tokens can still be alive |
| `KeyRotation.TwoKeyRotationIff` | identity_app/core/keys.py:98-123 | with two-key rings and fresh ids that means: rings hold their own public key, publish the key they replace, and a key is replaced no sooner than its predecessor's tokens expire |
| `KeyRotation.NoRotationLogsOut` | identity_app/shared_kernel/contracts/identity_provider.py:94-151 | after any history of calls a consumer finds the signing key of every unexpired token in at most two fetches, none on a fresh hit, and gives the service's verdict |
| `KeyRotation.DivergesIff` | identity_app/modules/identity/infra/token_service.py:75-104 | consumer and service answer a token differently exactly when a withdrawn key is still in a fresh cache, the token is whole, signed by it and not from the future, and it is expired or of the right issuer with a usable subject or a status that is not active |
| `KeyRotation.KeyForIff` | identity_app/shared_kernel/contracts/identity_provider.py:102-116 | no fetch exactly on a fresh hit, a second one exactly when a replaced cache still lacks the id, and the last document asked for decides what is found |
| `KeyRotation.ServiceVerdictIff` | identity_app/modules/identity/infra/token_service.py:75-104 | the service takes a token exactly when its signer is the first published key of its id, it is whole, not from the future, unexpired and of the issuer; and calls it expired exactly when only time has run out |
| `KeyRotation.NarrowedIff` | identity_app/shared_kernel/contracts/identity_provider.py:130-151 | a consumer lets through exactly what the library takes with an active or absent status and an account id as subject |
| `KeyRotation.WithdrawnKeyForgotten` | identity_app/shared_kernel/contracts/identity_provider.py:102-116 | a withdrawn key is believed for at most one cache lifetime |
| `KeyRotation.SameLookupIff` | identity_app/modules/identity/infra/token_service.py:89-92 | on a ring the service accepts, first-match and last-wins lookups agree on every id unless the previous key has the active id and differs |
| `KeyRotation.JwksIdentityVerifier.VerifyToken` | identity_app/shared_kernel/contracts/identity_provider.py:118-151 | the verifier's new cache, verdict and number of fetches, for every cache and every pair of endpoint answers |
| `Backfill.BackfillIff` | identity_app/modules/identity/infra/read_repository.py:66-104 | whatever runs between fetches, walking pages up to the first short one gives the full sorted listing of the last fetch exactly when no registration lands before a boundary already fetched |
| `Backfill.BackfillComplete` | identity_app/modules/identity/infra/read_repository.py:82-94 | when registrations never share or precede an existing creation time, nobody is skipped and nobody repeated |
| `Backfill.ResumedBackfillIff` | identity_app/modules/identity/infra/read_repository.py:82-84 | over any run, an interrupted walk resumed from the last `created_at` seen shows everybody exactly when no account of an earlier date was behind the walk at every fetch |
| `Backfill.ResumedBackfillComplete` | identity_app/modules/identity/presentation/users_router.py:74-84 | when registrations never share an instant, a walk can be interrupted after any page and resumed at any time: nobody is missed |
| `Backfill.SameInstantNotResumed` | identity_app/modules/identity/infra/read_repository.py:82-84 | a run of three registrations in which a resumed walk misses one account |
| `Backfill.SameInstantSkips` | identity_app/modules/identity/infra/read_repository.py:78-80 | a run of two registrations in one instant and a walk over it that repeats one account and misses the other |
| `Backfill.ListUsers` | identity_app/modules/identity/infra/read_repository.py:57-104 | the statement built selects exactly the matching rows and returns that page of the ordered listing, for every table |
| `Backfill.ListingMeans` | identity_app/modules/identity/infra/read_repository.py:70-101 | the listing holds exactly the accounts that meet every filter given, each once, oldest first with a date and newest first without, ties by id |
| `Backfill.PageCountIff` | identity_app/modules/identity/application/queries/list_users.py:53-70 | the reported page count tells which pages hold rows exactly for sizes 1 to 100 |
| `Accounts.StepGrows` | identity_app/modules/identity/infra/write_repository.py:51-76 | no command removes an account or changes its phone or creation date; only a registration adds one, dated now |
| `Migration.Target.Migrate` | scripts/migrate_from_diddigo.py:75-138 | the loop's report and the committed table are those of the row-by-row judgement; a dry run commits nothing; phones stay unique |
| `Migration.TargetOnlyGrows` | scripts/migrate_from_diddigo.py:95-130 | existing rows are untouched, new ones are source rows under their own id, translated, as many as reported, and phones stay unique |
| `Migration.NewcomersMean` | scripts/migrate_from_diddigo.py:40-50 | an account that came in is its source row column by column: a passenger is a plain user, every other role and status keeps its meaning, nothing is pending |
| `Migration.OneBucketEach` | scripts/migrate_from_diddigo.py:85-130 | the source rows are, as a multiset, the migrated ones plus the four lists |
| `Migration.ReportIsTruthful` | scripts/migrate_from_diddigo.py:86-114 | the two unknown lists hold exactly the untranslatable rows, and every skipped row's id or phone is in the target |
| `Migration.SecondRunIsIdle` | scripts/migrate_from_diddigo.py:97-114 | a second run migrates nothing and changes nothing |
| `Migration.DryRunIff` | scripts/migrate_from_diddigo.py:116-135 | the dry run's report is the real one exactly when no translatable new row repeats the id or phone of an earlier row that is free to migrate |
| `Migration.DistinctRowsForetold` | scripts/migrate_from_diddigo.py:75-138 | with distinct source ids and phones the dry run's report is the real one |
| `Migration.NoIssuesIff` | scripts/migrate_from_diddigo.py:70-72 | with distinct ids, there is no blocking issue exactly when every source row has a known role and status and its id is in the target |
| `Migration.MigratedIsGenesis` | scripts/migrate_from_diddigo.py:116-130 | the migrated table is a state from which all the run theorems start |
| `Base64Url.RoundTrip` | identity_app/core/keys.py:34-38 | decoding the text gives the number back, for every number |
| `Base64Url.Injective` | identity_app/core/keys.py:34-38 | different numbers have different texts |
| `Base64Url.MinimalOctets` | identity_app/core/keys.py:37-37 | the octets are big-endian, exact, without a leading zero octet, and no shorter string has that value |
| `Base64Url.PaddingRestored` | identity_app/core/keys.py:38-38 | stripping `=` loses nothing and leaves only alphabet symbols |
| `Base64Url.SymbolTable` | identity_app/core/keys.py:38-38 | the symbols are the URL-safe alphabet of section 5 of RFC 4648, in its order |
| `Base64Url.ExponentText` | identity_app/core/keys.py:63-70 | the usual exponent 65537 is shown as "AQAB" |
| `Base64Url.ConformsIff` | identity_app/core/keys.py:34-38 | the text is Base64urlUInt as section 2 of RFC 7518 defines it exactly for positive numbers |

## Left out

- The HTTP layer: routers, schemas, dependency wiring, authentication of admins and services, error rendering and messages.
- Phone format checks and the parsing of role and status strings: commands take values that already passed them (`INVALID_PHONE_FORMAT`, `INVALID_ROLE`, `INVALID_STATUS`).
- Password hashes, which no route uses; SMS sending, logging and settings loading.
- RSA, HMAC, SHA-256 and the JWT encoding: a key verifies its own signatures and no others, a digest is injective, and both sides of a token check call one decoding function.
- Isolation inside one command: a command is one committed step, and the code takes no row locks.
- Limiter outages, where the source lets requests through, and a process that dies between INCR and EXPIRE: the two rate bounds hold while Redis answers.
- Redis time below a second: keys expire at whole seconds.
- A cache operation that takes effect but reports a failure, and entries in an older shape: a failed operation does nothing.
- Stream trimming, `ensure_group` at the tail, and several consumers in one group.
- Status changes without a named admin in runs: the command accepts them, as its signature does, but the only route passes the admin's id, and `Admissible` says so; the stream's count of exits made by the system relies on it.
- A handler that dies half-way: handling an entry is one step, and a crash comes before or after it.
- Listings other than the backfill's under concurrent change: the walk theorems are for ascending listings from a date.
- Migration.ReportIsTruthful: does not render the lines printed to the operator; the lists hold the rows themselves.
- Counting.BurstBound: the bound is the promised one; the model does not say that it is attained.

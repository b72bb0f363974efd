# Muxivo Console: verified model

A Dafny model of the parts of the Muxivo Console backend (and two files of its
web client) that carry properties over whole runs, with proofs of those
properties.

| files | what they model |
|---|---|
| `Resp.dfy`, `Decimal.dfy` | the RESP2 codec: the command encoder, the recursive reply reader over a byte stream |
| `TokenStore.dfy`, `RedisTokenStore.dfy`, `FlowStores.dfy`, `FlowRuns.dfy` | the one-time token store in memory and over Redis, and its use by the flows below, call by call and over whole runs |
| `RateLimit.dfy` | the two fixed-window rate limiters |
| `Roles.dfy`, `Organizations.dfy`, `OrganizationEffects.dfy`, `OrganizationLedger.dfy`, `OrganizationRanks.dfy`, `OrganizationUseCases.dfy` | roles and scopes, the membership and invitation machine, what its writes store, its audit log, authority at the moment of writing, the use cases |
| `Registration.dfy`, `RegistrationAttempts.dfy`, `RegistrationOverlap.dfy` | e-mail registration: start, resend, verify |
| `Recovery.dfy`, `RecoveryUseCases.dfy` | password recovery: request and completion |
| `Connections.dfy`, `ConnectionOperations.dfy`, `ConnectionOverlap.dfy` | platform connections: transitions, idempotent commands, reconciliation, overlapping requests |
| `Metrics.dfy`, `Base64Url.dfy`, `Slug.dfy`, `Uuid7.dfy` | encoders and the metrics recorder |
| `Common.dfy`, `Text.dfy` | shared values and trimming |

A protocol is a `State` of stored rows (`Db`) and requests in flight, an `Event`
per single store or database call, and `Step` and `Run` over them, so a theorem
about `Run` speaks of every interleaving. The use cases as their `execute`
bodies perform them are classes whose methods are proved equal to the lone run
of their own calls. `dafny verify dfyconfig.toml` checks everything.

## What the code does where more is expected of it

- The Redis `replace` is a plain SET EX and writes absent keys, unlike the
  in-memory one. The two stores differ in exactly that case, and through it one
  registration token can be consumed twice (`TokenStore.StoresAgreeExactly`,
  `Registration.AtMostOneClaimExactly`); which runs do so is stated exactly
  (`Registration.ConsumedOnceExactly`). What then keeps a second registration
  from completing is the unique e-mail lookup hash of the account tables, over
  either store (`Registration.AtMostOneRegistration`).
- A resend writes back the attempt count it read, so overlapping resends undo
  recorded wrong codes and the limit of five no longer holds
  (`RegistrationAttempts.OverlappingResendsLiftTheBound`); which overlaps lose
  count is stated exactly (`RegistrationOverlap.CounterTellsExactly`), and the
  runs without them keep the limit.
- `update_status` addresses a connection by id and organization only, so a save
  decided before a disconnect and landing after it reopens the connection, and
  two overlapping saves of one status are audited twice
  (`ConnectionOverlap.AbsorbingExactly`, `ConnectionOverlap.AuditsExactly`).
- Member and invitation management checks the actor's and the target's roles
  when it reads and not again when it writes. A promotion of the target in
  between lets an admin demote a peer, and an actor demoted or removed in between
  still writes (`OrganizationRanks.AdminDemotesPeer`,
  `OrganizationRanks.ViewerDemotesModerator`). When the checks would still pass at
  the write is stated exactly (`OrganizationRanks.AuthorizedExactly`); an owner's
  always would (`OrganizationRanks.OwnersStayAuthorized`).
- A replayed lifecycle result carries no capabilities; a command that finds its
  target status already reached records no key.
- A DEGRADED connection may carry the reason healthy: the decision table admits it
  and such a row is reached (`Connections.EveryPairIsReached`).
- Completing a recovery for a user without a credential commits the claim of
  the row before it reports failure, so that link is spent.
- The span bound is one sharper than (k+1)*limit, because the request that opens
  a window lies outside any span that begins inside that window.

## Assumptions

- Every step is one store or database call, and such a call is atomic. A unique
  or primary key violation rolls the whole call back.
- Issued tokens and generated identifiers are new; clocks do not go back.
  Hashers are injective, and the rate limiter's digest has 64 characters and
  tells the subjects in use apart.
- A store operation reads the clock once. A Redis key is absent from its expiry
  instant on.
- `to_json` and `from_json` are inverse, so a stored registration is its record.
  Decryption inverts encryption and e-mail normalization is idempotent, so the
  lookup hash computed at registration is the one computed at the start. Account
  e-mail rows are never deleted.
- Scopes are sets of (resource, action) pairs; their row identifiers, which no
  decision reads, are left away. An invitation is identified with its token.
- Audit events of the model also carry the role or status that was written; no
  decision reads them.
- Values that come from elsewhere are parameters: account and user status,
  e-mail ownership, delivery results, outages, probe answers, random bits.

## Model

| member | source | states |
|---|---|---|
| `Resp.ParseReply` | apps/api/src/muxivo_console/infrastructure/redis_one_time_token_store.py:99-120 | for every well-formed RESP2 reply, arrays nested to any depth, and any bytes after it, the reader returns exactly the value the reply means (or its first error) and leaves exactly those bytes |
| `Resp.ParseReplies` | apps/api/src/muxivo_console/infrastructure/redis_one_time_token_store.py:115-119 | the items of an array are read in order, each ending where the next begins |
| `Resp.ParseBulk` | apps/api/src/muxivo_console/infrastructure/redis_one_time_token_store.py:108-114 | a bulk string gives its payload back whatever bytes it holds, CR LF included |
| `Resp.ParseCommand` | apps/api/src/muxivo_console/infrastructure/redis_one_time_token_store.py:90-120 | reading an encoded command returns exactly its parts and leaves exactly the bytes after it |
| `Resp.CommandsArePrefixFree` | apps/api/src/muxivo_console/infrastructure/redis_fixed_window_counter.py:76-106 | two commands followed by anything have equal bytes only if the commands and what follows are equal |
| `Resp.PipelineIsUnique` | apps/api/src/muxivo_console/infrastructure/redis_one_time_token_store.py:90-96 | every concatenation of commands splits in one way only |
| `Resp.SimpleStringExactly` | apps/api/src/muxivo_console/infrastructure/redis_one_time_token_store.py:101-102 | a simple string comes back if and only if it holds no LF and does not end in CR, because the reader takes one line and strips CR and LF from its end |
| `Resp.WireFormat` | apps/api/src/muxivo_console/infrastructure/redis_one_time_token_store.py:90-120 | the bytes of every kind of RESP2 reply and of a command, character by character |
| `Resp.Parse` | apps/api/src/muxivo_console/infrastructure/redis_one_time_token_store.py:99-120 | every value read consumes at least one byte, so the reader terminates on every byte string |
| `Resp.EncodeRedisCommand` | apps/api/src/muxivo_console/infrastructure/redis_one_time_token_store.py:90-96 | the list of chunks built in the loop joins to the printed array of bulk strings |
| `Resp.StreamReader.ReadExactly` | apps/api/src/muxivo_console/infrastructure/redis_one_time_token_store.py:100-113 | the stream loses exactly the bytes returned, or fails for want of bytes |
| `Resp.StreamReader.ReadLine` | apps/api/src/muxivo_console/infrastructure/redis_one_time_token_store.py:102-116 | the stream loses exactly one line, which has no LF before its end and ends in LF unless the stream holds none, and the caller gets it unstripped |
| `Resp.StreamReader.ReadValue` | apps/api/src/muxivo_console/infrastructure/redis_one_time_token_store.py:99-120 | the recursive reader over a mutable stream computes the parser and leaves the stream at the parser's rest |
| `Resp.StreamReader.ReadItems` | apps/api/src/muxivo_console/infrastructure/redis_one_time_token_store.py:119-119 | the loop over array items computes the parser of a sequence of values |
| `Decimal.ParsePrint` | apps/api/src/muxivo_console/infrastructure/redis_one_time_token_store.py:107-116 | a printed integer of either sign is read back as itself |
| `Decimal.DigitsExactly` | apps/api/src/muxivo_console/infrastructure/redis_one_time_token_store.py:91-94 | numbers are written in decimal notation, the highest digit first, a minus sign before negative ones |
| `Decimal.ParseIntReads` | apps/api/src/muxivo_console/infrastructure/redis_one_time_token_store.py:107-116 | blanks, a sign or none, digits with single underscores between them and blanks again are read as the number the digits write |
| `Decimal.ParseIntShape` | apps/api/src/muxivo_console/infrastructure/redis_one_time_token_store.py:107-116 | and every text that is read as an integer is of that form |
| `TokenStore.StoresAgreeExactly` | apps/api/src/muxivo_console/infrastructure/in_memory_one_time_token_store.py:14-47 | on every trace with nondecreasing clock the eagerly purging store answers as the lazily expiring one if and only if every replace hits a live key |
| `TokenStore.StepsAgree` | apps/api/src/muxivo_console/infrastructure/in_memory_one_time_token_store.py:14-44 | one operation on stores with equal live entries gives equal answers and equal live entries, unless it is a replace that misses |
| `TokenStore.MissedReplaceDiffers` | apps/api/src/muxivo_console/infrastructure/redis_one_time_token_store.py:45-47 | a replace of an absent key is refused in memory and accepted by Redis |
| `TokenStore.ConsumedOnce` | apps/api/src/muxivo_console/infrastructure/in_memory_one_time_token_store.py:33-39 | after a successful consume every get, replace and consume of that key comes back empty-handed until it is put again |
| `TokenStore.AbsentStays` | apps/api/src/muxivo_console/infrastructure/in_memory_one_time_token_store.py:21-39 | every get, replace and consume of an absent key comes back empty-handed until a put of it |
| `TokenStore.InMemoryOneTimeTokenStore.PurgeExpired` | apps/api/src/muxivo_console/infrastructure/in_memory_one_time_token_store.py:41-44 | what remains is exactly the entries that expire later than now, unchanged |
| `TokenStore.InMemoryOneTimeTokenStore.Put` | apps/api/src/muxivo_console/infrastructure/in_memory_one_time_token_store.py:14-19 | refused exactly when the key holds an entry that expires later than now; otherwise the value is stored for max(1, ttl) seconds; expired entries go and all others stay; the eager step for put |
| `TokenStore.InMemoryOneTimeTokenStore.Get` | apps/api/src/muxivo_console/infrastructure/in_memory_one_time_token_store.py:21-24 | the value exactly when the key holds an entry that expires later than now; expired entries go and all others stay; the eager step for get |
| `TokenStore.InMemoryOneTimeTokenStore.Replace` | apps/api/src/muxivo_console/infrastructure/in_memory_one_time_token_store.py:26-31 | refused exactly when the key holds no entry that expires later than now; otherwise the value is stored for max(1, ttl) seconds; the eager step for replace |
| `TokenStore.InMemoryOneTimeTokenStore.Consume` | apps/api/src/muxivo_console/infrastructure/in_memory_one_time_token_store.py:33-39 | succeeds exactly when the key holds this very value and expires later than now, and then the key is gone; the eager step for consume |
| `RedisTokenStore.CommandIsServe` | apps/api/src/muxivo_console/infrastructure/redis_one_time_token_store.py:53-80 | encoding, the server's decoding, its printing and the adapter's reading cancel out |
| `RedisTokenStore.ServeMeans` | apps/api/src/muxivo_console/infrastructure/redis_one_time_token_store.py:18-51 | each of the four commands, executed as SET NX EX, GET, SET EX or the compare-and-delete script, is the lazy store's operation |
| `RedisTokenStore.CommandsAsSent` | apps/api/src/muxivo_console/infrastructure/redis_one_time_token_store.py:35-51 | the words of the four commands, the order of their arguments, the time to live of at least one second, and OK as the answer of success |
| `RedisTokenStore.AdapterIsLazyStore` | apps/api/src/muxivo_console/infrastructure/redis_one_time_token_store.py:35-51 | for every store, instant, key and value the adapter's operation over the wire has the lazy store's effect and answer |
| `RedisTokenStore.AdapterAnswersLazily` | apps/api/src/muxivo_console/infrastructure/redis_one_time_token_store.py:35-51 | every trace of operations over the wire is answered as the lazy store answers it |
| `RedisTokenStore.InMemoryStandsInExactly` | apps/api/src/muxivo_console/infrastructure/in_memory_one_time_token_store.py:14-47 | the in-memory store stands in for the Redis adapter on exactly the traces whose replaces all hit a live key |
| `FlowStores.StartIsPut` | apps/api/src/muxivo_console/application/start_email_password_registration.py:88-92 | starting a registration is the token store's put, in the store that refuses absent keys and in the one that upserts |
| `FlowStores.ReadIsGet` | apps/api/src/muxivo_console/application/verify_email_password_registration.py:57-57 | reading a pending registration is the token store's get |
| `FlowStores.WriteIsReplace` | apps/api/src/muxivo_console/application/verify_email_password_registration.py:66-70 | recording a wrong code or a new code is the token store's replace, with its answer |
| `FlowStores.ClaimIsConsume` | apps/api/src/muxivo_console/application/verify_email_password_registration.py:79-79 | claiming or discarding a pending registration is the token store's consume, with its answer |
| `FlowStores.WaitingNeedsNoCall` | apps/api/src/muxivo_console/infrastructure/in_memory_one_time_token_store.py:41-47 | time passing alone keeps the token store's live registrations the machine's, in either store |
| `FlowStores.ReferenceIsPut` | apps/api/src/muxivo_console/application/request_password_recovery_use_case.py:82-86 | putting a recovery reference is the token store's put |
| `FlowStores.ReferenceIsGet` | apps/api/src/muxivo_console/application/complete_password_recovery_use_case.py:63-63 | reading it is the token store's get |
| `FlowStores.ReferenceIsConsume` | apps/api/src/muxivo_console/application/complete_password_recovery_use_case.py:95-98 | discarding or consuming it is the token store's consume, with its answer |
| `FlowStores.ReferencesExpire` | apps/api/src/muxivo_console/infrastructure/in_memory_one_time_token_store.py:41-47 | time passing alone keeps the token store's live references the machine's, in either store |
| `FlowRuns.RegistrationRunsOnStore` | apps/api/src/muxivo_console/application/start_email_password_registration.py:58-242 | every run of the registration machine is a run of the token store: the requests it makes come in order of time, the eager or the lazy store answers each as the machine goes on, and the live entries afterwards are the machine's |
| `FlowRuns.RegistrationOverTheWire` | apps/api/src/muxivo_console/infrastructure/redis_one_time_token_store.py:18-120 | over Redis those requests, encoded, served and read back on the wire, get the very answers the machine goes on with |
| `FlowRuns.RecoveryRunsOnStore` | apps/api/src/muxivo_console/application/request_password_recovery_use_case.py:73-190 | the same of every run of the recovery machine, over either store |
| `FlowRuns.RecoveryOverTheWire` | apps/api/src/muxivo_console/application/complete_password_recovery_use_case.py:60-116 | the recovery machine's requests over the wire get the answers it goes on with |
| `RateLimit.RedisKeyInjective` | apps/api/src/muxivo_console/infrastructure/redis_fixed_window_rate_limiter.py:54-56 | two scope and key pairs share a Redis key only if they are the same pair, although scope:key alone is ambiguous |
| `RateLimit.StepSimulates` | apps/api/src/muxivo_console/infrastructure/redis_fixed_window_rate_limiter.py:31-52 | one check keeps the simulation: memory count is the Redis count capped at the limit, reset times coincide, and both decide alike |
| `RateLimit.LimitersDecideAlike` | apps/api/src/muxivo_console/infrastructure/in_memory_fixed_window_rate_limiter.py:21-51 | on every trace of timed checks the two limiters allow and deny the same requests, although Redis keeps counting denied ones |
| `RateLimit.SpanBound` | apps/api/src/muxivo_console/infrastructure/in_memory_fixed_window_rate_limiter.py:26-51 | any half-open span of k windows admits at most (k+1)*limit - 1 requests of one subject |
| `RateLimit.SpanBoundIsTight` | apps/api/src/muxivo_console/infrastructure/in_memory_fixed_window_rate_limiter.py:26-51 | for every rule and every k a trace reaches that number |
| `RateLimit.WorstIsInOrder` | apps/api/src/muxivo_console/infrastructure/in_memory_fixed_window_rate_limiter.py:26-51 | the trace that reaches the bound has a nondecreasing clock |
| `RateLimit.RetryAfterIsAccurate` | apps/api/src/muxivo_console/infrastructure/in_memory_fixed_window_rate_limiter.py:37-46 | after any trace a denial's retry time lies between 1 and the window and strictly within one second of the true remaining time |
| `RateLimit.RedisRetryAfterIsAccurate` | apps/api/src/muxivo_console/infrastructure/redis_fixed_window_rate_limiter.py:31-52 | the same bounds for the Redis limiter, whose remaining time is rounded to whole seconds and at least 1 |
| `RateLimit.InMemoryFixedWindowRateLimiter.Check` | apps/api/src/muxivo_console/infrastructure/in_memory_fixed_window_rate_limiter.py:21-51 | allowed exactly without a rule, outside a running window or below the limit; a new window starts at count 1, a running one counts one more, a denial counts nothing and asks to wait max(1, whole seconds left) |
| `RateLimit.RedisFixedWindowCounter.IncrementWindowed` | apps/api/src/muxivo_console/infrastructure/redis_fixed_window_counter.py:16-73 | a live counter counts one more and keeps its expiry, otherwise it starts at 1 and expires one window later; no other counter changes and the remaining time is at least 1 |
| `RateLimit.RedisFixedWindowRateLimiter.Check` | apps/api/src/muxivo_console/infrastructure/redis_fixed_window_rate_limiter.py:31-52 | the counter under prefix:scope:digest and no other is incremented, and the request is allowed exactly when its count is within the limit or there is no rule |
| `Roles.ClientAgreesExactly` | apps/web/src/features/console/access.ts:28-38 | the client check that ignores the role matrix agrees with the server's `allows` on every resource and action if and only if the membership is an owner's or all its scopes are supported by its role |
| `Roles.ClientOffersWhatServerAccepts` | apps/web/src/utils/memberScopes.ts:12-36 | for every role and list of scopes the client offers exactly those that the server's matrix accepts |
| `Roles.CapabilitiesExactly` | apps/api/src/muxivo_console/domain/organizations.py:78-89 | a member may do, in their own organization only, everything as owner and otherwise exactly what they were granted among the scopes listed for their role |
| `Roles.SupportedExactly` | apps/api/src/muxivo_console/domain/organizations.py:115-134 | the scopes a role can ever use, role by role |
| `Roles.RanksExactly` | apps/api/src/muxivo_console/application/organization_member_management_helpers.py:23-40 | who may give whom a role: owners every other role, admins moderator, analyst and viewer, nobody else any |
| `Organizations.ExactlyOneOwner` | apps/api/src/muxivo_console/domain/organizations.py:23-38 | in every interleaving of all requests' reads and writes, each organization has exactly one OWNER membership and it is its creator's |
| `Organizations.OwnerNeverChanges` | apps/api/src/muxivo_console/application/update_organization_member.py:47-94 | whatever follows, that membership keeps its id, role and user |
| `Organizations.ClientAgreesWhenReachable` | apps/api/src/muxivo_console/domain/organizations.py:78-89 | in every reachable state the client check and the server's `allows` give the same answer for the member and organization of every membership |
| `Organizations.OffersStaySupported` | apps/api/src/muxivo_console/application/invite_organization_member_use_case.py:95-127 | in every reachable state every invitation's scopes are supported by its role and its role is not OWNER |
| `Organizations.StepKeeps` | apps/api/src/muxivo_console/application/accept_organization_invitation_use_case.py:104-139 | every single database call keeps the invariant behind these results, for all states and requests in flight |
| `OrganizationEffects.RequestsAreRecalled` | apps/api/src/muxivo_console/application/update_organization_member.py:36-106 | in every interleaving a request in flight carries the organization, user, role and scopes that its own first call asked for, and an invitation it was shown is still stored on the terms it was shown |
| `OrganizationEffects.AcceptGives` | apps/api/src/muxivo_console/infrastructure/persistence/organization_invitation_writer.py:89-135 | in every interleaving an acceptance is committed exactly when the stored invitation is neither accepted nor revoked nor expired and the user no member; it gives the user exactly the role and scopes of the stored invitation under a new id, marks that invitation and changes no other row |
| `OrganizationEffects.AddGives` | apps/api/src/muxivo_console/infrastructure/persistence/organization_repository.py:258-285 | in every interleaving an addition is committed exactly when the user it found is no member; the new row has the role and scopes that were asked for, and nothing else changes |
| `OrganizationEffects.UpdateGives` | apps/api/src/muxivo_console/infrastructure/persistence/organization_repository.py:287-317 | in every interleaving an update is committed exactly when the row it read is still there under its id; that row then has the role and scopes that were asked for, and no other changes |
| `OrganizationEffects.RemovalTakes` | apps/api/src/muxivo_console/infrastructure/persistence/organization_repository.py:319-335 | in every interleaving a removal is committed exactly when the row it read is still there, and takes away that row only |
| `OrganizationEffects.InviteOffers` | apps/api/src/muxivo_console/infrastructure/persistence/organization_invitation_writer.py:34-68 | in every interleaving an invitation is stored open, under a new id, with the organization, role and scopes that were asked for and the deadline of the write |
| `OrganizationEffects.RevocationMarks` | apps/api/src/muxivo_console/infrastructure/persistence/organization_invitation_writer.py:137-160 | in every interleaving a revocation is committed exactly when the invitation it was asked for is still open, and marks that one only |
| `OrganizationEffects.TermsNeverChange` | apps/api/src/muxivo_console/domain/organization_invitations.py:30-48 | whatever follows, an invitation keeps its id, organization, role, scopes and deadline |
| `OrganizationEffects.StatusMeans` | apps/api/src/muxivo_console/domain/organization_invitations.py:69-80 | an invitation is pending exactly while it is neither accepted nor revoked and its deadline lies ahead; acceptance comes before revocation, and both before expiry |
| `OrganizationLedger.HeadcountMatchesLog` | apps/api/src/muxivo_console/application/remove_organization_member.py:43-77 | in every interleaving the number of members of an organization is its joins minus its departures in the audit log |
| `OrganizationLedger.InvitationSettlesOnce` | apps/api/src/muxivo_console/infrastructure/persistence/organization_invitation_writer.py:89-160 | in every interleaving an invitation is accepted or revoked at most once in all, and is open exactly while it has not been |
| `OrganizationRanks.RolesAreTheLog` | apps/api/src/muxivo_console/infrastructure/persistence/organization_repository.py:258-335 | in every interleaving replaying the audit log gives, for every user and organization, exactly the stored role or none |
| `OrganizationRanks.AuthorizedExactly` | apps/api/src/muxivo_console/application/organization_member_management_helpers.py:28-52 | in every interleaving and for every add, update, removal, invitation or revocation about to be written, the checks of its use case would pass again on the rows as they are now if and only if they pass on the roles that the events committed since its own reads leave its actor and its target, a removed actor failing them |
| `OrganizationRanks.OutranksExactly` | apps/api/src/muxivo_console/application/update_organization_member.py:36-106 | in every interleaving, when an update or removal replaces a membership, its actor is at that moment a member who outranks it if and only if no event since the actor was read left them without a membership and the role last given to them since then outranks the one last given to the target since it was read |
| `OrganizationRanks.UndisturbedIsAuthorized` | apps/api/src/muxivo_console/application/remove_organization_member.py:33-88 | a request whose actor and target have had nothing committed to their memberships since it read them is still authorized when it writes |
| `OrganizationRanks.OwnersStayAuthorized` | apps/api/src/muxivo_console/domain/organizations.py:23-38 | every write of an owner whose target is still there is authorized when it lands, whatever was committed since its reads |
| `OrganizationRanks.AdminDemotesPeer` | apps/api/src/muxivo_console/infrastructure/persistence/organization_repository.py:287-335 | a concrete interleaving in which an admin's update replaces the row of a member who has become an admin |
| `OrganizationRanks.ViewerDemotesModerator` | apps/api/src/muxivo_console/infrastructure/persistence/organization_repository.py:287-335 | a concrete interleaving in which the update of an actor who has become a viewer replaces the row of a moderator |
| `OrganizationUseCases.Directory.CreateOrganization` | apps/api/src/muxivo_console/application/create_organization_use_case.py:38-100 | an organization is created exactly for an active user whose insert is not refused, with that user as its owner without scopes, under new ids; otherwise nothing changes; the tables are those after the machine's step, and every earlier organization keeps its one owner |
| `OrganizationUseCases.Directory.AddMember` | apps/api/src/muxivo_console/application/add_organization_member.py:43-131 | a member is added exactly when the actor may give the role, the role can use the scopes, a user was found who is no member and nothing refuses; the new row has that role and those scopes and nothing else changes; the tables are those after its reads and its write in sequence |
| `OrganizationUseCases.Directory.UpdateMember` | apps/api/src/muxivo_console/application/update_organization_member.py:36-106 | a member is updated exactly when the actor is someone else who may give both the old and the new role and the new role can use the scopes; the row keeps its id and has that role and those scopes, and no other changes; the tables are those after its reads and its write in sequence |
| `OrganizationUseCases.Directory.RemoveMember` | apps/api/src/muxivo_console/application/remove_organization_member.py:33-88 | a member is removed exactly when the actor is someone else who may give the role they have; that row and no other goes; the tables are those after its reads and its delete in sequence |
| `OrganizationUseCases.Directory.InviteMember` | apps/api/src/muxivo_console/application/invite_organization_member_use_case.py:59-230 | an invitation is made exactly when the organization exists, the actor may give the role and the role can use the scopes; it is stored open with that role, those scopes, that deadline and how sending it went; the tables are those after its calls in sequence |
| `OrganizationUseCases.Directory.AcceptInvitation` | apps/api/src/muxivo_console/application/accept_organization_invitation_use_case.py:45-160 | an invitation is accepted exactly when it is open, its deadline lies ahead, the user is eligible and no member; the user gets the role and scopes that the stored invitation offers and nothing else changes but the acceptance; the tables are those after its reads and its guarded claim in sequence |
| `OrganizationUseCases.Directory.RevokeInvitation` | apps/api/src/muxivo_console/application/revoke_organization_invitation_use_case.py:40-107 | an invitation is revoked exactly when it is open, of that organization and of a role the actor may give, and nothing else changes; the tables are those after its reads and its guarded revocation in sequence |
| `Registration.IdentityNeverChanges` | apps/api/src/muxivo_console/application/start_email_password_registration.py:149-202 | in every interleaving every value held under a token, every consume of it and every registration completed for it carries the e-mail ciphertext, password hash, display name and id the token was started with |
| `Registration.AtMostOneClaimExactly` | apps/api/src/muxivo_console/application/verify_email_password_registration.py:56-81 | each started token is consumed successfully at most once in every interleaving if and only if the store's replace refuses absent keys |
| `Registration.ConsumedOnceExactly` | apps/api/src/muxivo_console/application/verify_email_password_registration.py:56-81 | along any one run, over either store, a token is consumed at most once if and only if it is not consumed after a write brought it back that found it absent and already consumed |
| `Registration.HitsMakeStoresAlike` | apps/api/src/muxivo_console/infrastructure/redis_one_time_token_store.py:45-47 | a run in which every replace finds its token is the same run over either store |
| `Registration.HitsConsumeOnce` | apps/api/src/muxivo_console/application/verify_email_password_registration.py:56-81 | over either store such a run consumes each token at most once |
| `Registration.AtMostOneRegistration` | apps/api/src/muxivo_console/infrastructure/persistence/registration_writer.py:33-84 | in every interleaving and over either store at most one registration completes for a token, and at most one for an e-mail lookup hash across all tokens, the account being there exactly when one did |
| `Registration.RegistrationsAreEarned` | apps/api/src/muxivo_console/application/verify_email_password_registration.py:79-91 | every completed registration follows a successful consume of its own token |
| `Registration.AccountsAreStarted` | apps/api/src/muxivo_console/infrastructure/persistence/registration_writer.py:33-84 | in every interleaving and over either store every account is, field by field, the identity with which a registration was completed, with which its token was put and which a start of the run named |
| `Registration.RegistrationsAreStored` | apps/api/src/muxivo_console/infrastructure/persistence/registration_writer.py:33-84 | in every interleaving and over either store every completed registration stands in the account tables as it was started |
| `Registration.UpsertClaimsTwice` | apps/api/src/muxivo_console/infrastructure/redis_one_time_token_store.py:45-51 | with a replace that writes absent keys a concrete interleaving consumes one token twice |
| `RegistrationAttempts.PerformIsScript` | apps/api/src/muxivo_console/application/verify_email_password_registration.py:49-111 | each whole request run alone is the run of its store calls |
| `RegistrationAttempts.FiveWrongCodes` | apps/api/src/muxivo_console/application/verify_email_password_registration.py:61-78 | one at a time, requests compare at most five wrong codes for a token, over either store and across any number of resends |
| `RegistrationAttempts.FifthWrongCodeIsFinal` | apps/api/src/muxivo_console/application/pending_email_password_registration.py:31-47 | after the fifth wrong code no code is accepted, no further code is compared and the stored entry no longer changes |
| `RegistrationAttempts.GoneAfterSixLifetimes` | apps/api/src/muxivo_console/application/verify_email_password_registration.py:61-78 | without resends an entry is gone six lifetimes, each of at least sixty seconds, after its put, although wrong codes renew it |
| `RegistrationAttempts.SecondsExactly` | apps/api/src/muxivo_console/application/start_email_password_registration.py:244-245 | a lifetime is the configured one, or sixty seconds if that is less |
| `RegistrationAttempts.OverlappingResendsLiftTheBound` | apps/api/src/muxivo_console/application/start_email_password_registration.py:154-185 | for every n an interleaving of resends with verifications that each run to their end compares n wrong codes and leaves the token guessable |
| `RegistrationOverlap.CounterTellsExactly` | apps/api/src/muxivo_console/application/verify_email_password_registration.py:61-78 | over either store, along an interleaved run the live entry's counter tells every wrong code compared, but for one being recorded, if and only if no wrong code was compared while another was being recorded and no write landed on a counter that had moved since its own read |
| `RegistrationOverlap.CarefulRunsKeepTheBound` | apps/api/src/muxivo_console/application/verify_email_password_registration.py:61-78 | such runs compare at most five wrong codes for the token |
| `RegistrationOverlap.OverlappingResendsAreStale` | apps/api/src/muxivo_console/application/start_email_password_registration.py:154-185 | the interleavings that exceed the bound contain a write over a counter that moved |
| `RegistrationAttempts.RegistrationDesk.Start` | apps/api/src/muxivo_console/application/start_email_password_registration.py:58-139 | the token is stored with the given identity and code, no attempts and a deadline of one lifetime, or is gone again when sending failed and the store is up; accounts stay as they are |
| `RegistrationAttempts.RegistrationDesk.Resend` | apps/api/src/muxivo_console/application/start_email_password_registration.py:141-242 | an entry with fewer than five attempts gets the new code and a new deadline, keeps its identity and its attempts, and is gone again when sending failed and the store is up; otherwise nothing changes |
| `RegistrationAttempts.RegistrationDesk.Verify` | apps/api/src/muxivo_console/application/verify_email_password_registration.py:49-111 | a registration is reported exactly when the entry has fewer than five attempts, the code is right, the e-mail address is not taken and nothing else refuses; then the account stored is the identity the token was started with; a right code takes the entry, a wrong one counts one attempt more and renews it, and every other case changes nothing |
| `RegistrationAttempts.RegistrationDesk.InsertAccount` | apps/api/src/muxivo_console/infrastructure/persistence/registration_writer.py:33-84 | the account is inserted exactly when its e-mail lookup hash is not there yet, and it is the given identity; no other account changes |
| `Recovery.RotatesAtMostOnce` | apps/api/src/muxivo_console/application/complete_password_recovery_use_case.py:60-116 | in every interleaving no two rotations concern the same token or the same transaction |
| `Recovery.RotationFollowsRead` | apps/api/src/muxivo_console/application/complete_password_recovery_use_case.py:60-116 | in every interleaving each rotation belongs to a completion whose earlier read found the live reference put for that token, and rotates that reference's user |
| `Recovery.DiscardStopsLaterReads` | apps/api/src/muxivo_console/application/request_password_recovery_use_case.py:80-190 | in every interleaving a read after the request's discard finds nothing, so no completion with such a read rotates |
| `Recovery.PasswordsAreTold` | apps/api/src/muxivo_console/infrastructure/persistence/password_recovery_repository.py:61-123 | in every interleaving with registrations, password changes, failed logins and new sessions the stored passwords are the initial ones changed by the logged rotations and choices, in order, and nothing else |
| `Recovery.RotationMeans` | apps/api/src/muxivo_console/infrastructure/persistence/password_recovery_repository.py:61-123 | in every state and whatever is in flight, a rotation is logged exactly when a completion finds its row unclaimed and unexpired and its user with a credential; then that user has the new password, no failed attempts, no lock, and every session they had open is revoked, no other credential or session changes and the row is claimed; no other call of a recovery touches an account |
| `Recovery.RotationLeavesUserClean` | apps/api/src/muxivo_console/infrastructure/persistence/password_recovery_repository.py:87-107 | in every interleaving, right after a step that logs a rotation its user has the logged password, no failed attempts, no lock and no open session |
| `Recovery.AmbientMeans` | apps/api/src/muxivo_console/infrastructure/persistence/identity_repository.py:159-192 | what the flows beside the recovery do: a chosen password clears failures and lock and leaves sessions open, a failed login is recorded, a reference is gone from its deadline on |
| `Recovery.RotationEndsSessions` | apps/api/src/muxivo_console/infrastructure/persistence/password_recovery_repository.py:99-107 | in every interleaving a session that is open was opened after its user's last rotation |
| `RecoveryUseCases.RequestIsRun` | apps/api/src/muxivo_console/application/request_password_recovery_use_case.py:73-170 | a request run alone is the run of its put, insert, send and discard |
| `RecoveryUseCases.CompletionIsRun` | apps/api/src/muxivo_console/application/complete_password_recovery_use_case.py:60-116 | a completion run alone is the run of its read, database transaction and consume |
| `RecoveryUseCases.DeliveredLinkWorks` | apps/api/src/muxivo_console/application/request_password_recovery_use_case.py:73-170 | a delivered link, used at any time within its lifetime, leaves its own user with the new password, no failed attempts, no lock and no session left open, and touches nobody else's credential or session |
| `RecoveryUseCases.LinkWorksOnce` | apps/api/src/muxivo_console/application/complete_password_recovery_use_case.py:60-116 | after a completion that claimed the row nothing that happens later, whatever requests are in flight by then and however they interleave, rotates a password through that link, even if the reference could not be consumed |
| `RecoveryUseCases.DiscardedLinkIsDead` | apps/api/src/muxivo_console/application/request_password_recovery_use_case.py:106-190 | after a discard a completion changes nothing at all |
| `RecoveryUseCases.RecoveryDesk.Request` | apps/api/src/muxivo_console/application/request_password_recovery_use_case.py:73-170 | on every path, failed insert and failed delivery included: a new token gets a redeemable row exactly when the insert succeeds, and its reference stays exactly when the link was also delivered or the store is down; no account changes |
| `RecoveryUseCases.RecoveryDesk.Complete` | apps/api/src/muxivo_console/application/complete_password_recovery_use_case.py:60-116 | a user is returned exactly when the reference is read and the row is there, unclaimed, unexpired and of a user with a credential; then that user, and nobody else, has the new password, no failed attempts, no lock and no open session; otherwise no account changes; the row is claimed also when the credential is missing |
| `Connections.StatusFitsReason` | apps/api/src/muxivo_console/domain/connection_reconciliation.py:20-47 | in every interleaving a connection's status and reason are a pair of a fixed table: PENDING only with initial_pending, ACTIVE only with healthy or reauthorized, and so on |
| `Connections.EveryPairIsReached` | apps/api/src/muxivo_console/domain/connection_reconciliation.py:20-47 | every pair of that table is reached by some run, so the table is exact |
| `Connections.ConnectionsKeepIdentity` | apps/api/src/muxivo_console/domain/connections.py:76-92 | in every interleaving a connection keeps id, organization, platform, resource and capabilities, and never becomes PENDING again |
| `Connections.KeyChangesStateOnce` | apps/api/src/muxivo_console/application/manage_platform_connection_lifecycle_use_case.py:73-189 | in every interleaving an organization's idempotency key commits at most one change, and exactly when it has a stored result |
| `Connections.KeyReplaysForever` | apps/api/src/muxivo_console/application/manage_platform_connection_lifecycle_use_case.py:73-120 | once a key has a result, every later use by the same connection and action returns that status and reason and writes nothing, and every other use is rejected and writes nothing |
| `Connections.AllowedExactly` | apps/api/src/muxivo_console/domain/connections.py:19-46 | which transitions are allowed: from every status but DISCONNECTED to every other but PENDING, except from REAUTH_REQUIRED to DEGRADED |
| `Connections.ReconciledExactly` | apps/api/src/muxivo_console/application/reconcile_platform_connections_use_case.py:118-194 | a decision is refused exactly when it asks for PENDING, for the status the connection has, for DEGRADED from REAUTH_REQUIRED or for anything from DISCONNECTED, and otherwise gives its status and reason; an unavailable probe decides DEGRADED with platform_unreachable, a missing one nothing |
| `Connections.DecisionsExactly` | apps/api/src/muxivo_console/domain/connection_reconciliation.py:20-47 | the nine pairs of status and reason that a probe may decide |
| `Connections.SaveStores` | apps/api/src/muxivo_console/infrastructure/persistence/connection_repository.py:73-131 | in every interleaving a command's save is committed exactly when its row is there and its key unused; the row then has the status and reason that the action asks for, its other columns and all other rows stay, and the key has its receipt |
| `Connections.StaleSaveReopens` | apps/api/src/muxivo_console/application/manage_platform_connection_lifecycle_use_case.py:122-189 | a concrete interleaving in which a stale reauthorization reopens a disconnected connection |
| `ConnectionOperations.NormalizedExactly` | apps/api/src/muxivo_console/application/manage_platform_connection_lifecycle_use_case.py:218-226 | a raw key normalizes to k if and only if k has 1 to 128 characters and is what remains between the white space around it; a blank key is no key |
| `ConnectionOperations.SweepMeans` | apps/api/src/muxivo_console/application/reconcile_platform_connections_use_case.py:55-101 | after a pass each listed connection is where the transition table lets its probe answer put the row as it was, the others are unchanged, and each has one more audit event exactly when its status changed |
| `ConnectionOperations.SecondPassChangesNothing` | apps/api/src/muxivo_console/application/reconcile_platform_connections_use_case.py:118-194 | a second pass over any of the same connections with the same answers changes nothing, audit log included |
| `ConnectionOperations.UncutPassIsIdempotent` | apps/api/src/muxivo_console/infrastructure/persistence/connection_repository.py:234-267 | a pass whose limit did not cut its batch is idempotent although the second pass lists afresh |
| `ConnectionOperations.ListedIsFresh` | apps/api/src/muxivo_console/infrastructure/persistence/connection_repository.py:234-267 | a listed batch holds at most the limit, current rows only, in order of id, none twice and none disconnected |
| `ConnectionOperations.ListedIsComplete` | apps/api/src/muxivo_console/infrastructure/persistence/connection_repository.py:234-267 | a row that is not disconnected is left out only when the batch is full of rows with smaller ids |
| `ConnectionOperations.OrderOutcome` | apps/api/src/muxivo_console/application/manage_platform_connection_lifecycle_use_case.py:122-215 | a rejected command changes nothing; an accepted one answers with the status it commanded, which unless replayed is the stored row |
| `ConnectionOperations.OrderExactly` | apps/api/src/muxivo_console/application/manage_platform_connection_lifecycle_use_case.py:122-215 | a permitted command without a receipt is rejected exactly when its connection is missing, or is disconnected and the command does not ask for that; otherwise the stored row has the status and reason asked for, or is unchanged when it has that status already |
| `ConnectionOperations.ReplayExactly` | apps/api/src/muxivo_console/application/manage_platform_connection_lifecycle_use_case.py:73-120 | a command with a receipt gets the recorded status and reason, without capabilities, exactly when the receipt is for its connection and action |
| `ConnectionOperations.RetryIsSafe` | apps/api/src/muxivo_console/application/manage_platform_connection_lifecycle_use_case.py:73-215 | sending a command again, with a key or without, changes nothing more and is answered alike but for the capabilities a replay leaves out |
| `ConnectionOperations.PerformIsScript` | apps/api/src/muxivo_console/application/reconcile_platform_connections_use_case.py:55-194 | each whole operation, a pass that lists its batch before the first probe included, is the run of its database calls |
| `ConnectionOperations.AuditsAreOnePlusChanges` | apps/api/src/muxivo_console/application/connect_platform_connection_use_case.py:95-117 | one at a time, operations leave for each connection one audit event for its creation and one per status change |
| `ConnectionOperations.DisconnectedIsFinal` | apps/api/src/muxivo_console/domain/connections.py:19-46 | one at a time, no operation takes a connection out of DISCONNECTED |
| `ConnectionOverlap.AbsorbingExactly` | apps/api/src/muxivo_console/infrastructure/persistence/connection_repository.py:73-131 | DISCONNECTED is absorbing along an interleaved run if and only if no save to another status is committed after a disconnect of its connection that was committed since the save's own read |
| `ConnectionOverlap.AuditsExactly` | apps/api/src/muxivo_console/infrastructure/persistence/connection_repository.py:73-131 | in every interleaving a connection's audit events are one for its creation, one per status change and one per doubled save; they are one plus the changes if and only if no save landed when the last save of that connection since its own read was of the same status |
| `ConnectionOverlap.UndisturbedRuns` | apps/api/src/muxivo_console/application/manage_platform_connection_lifecycle_use_case.py:122-189 | when nothing is committed to a connection between another request's read of it and that request's save, DISCONNECTED is absorbing and audit events are one plus the status changes, however else requests interleave |
| `ConnectionOperations.ConnectionDesk.Connect` | apps/api/src/muxivo_console/application/connect_platform_connection_use_case.py:42-141 | a connection is made exactly when allowed, verified, with a trimmed id of 1 to 255 characters and no row of that platform and id; it is pending under a fresh id, and otherwise nothing changes |
| `ConnectionOperations.ConnectionDesk.Manage` | apps/api/src/muxivo_console/application/manage_platform_connection_lifecycle_use_case.py:38-215 | rejected exactly when denied, the key over-long, the key used for something else, the connection missing, or disconnected and not asked to be; otherwise the stored row has the commanded status and reason, or is unchanged when it has that status or the key is replayed; the tables are those after its database calls |
| `ConnectionOperations.ConnectionDesk.Reconcile` | apps/api/src/muxivo_console/application/reconcile_platform_connections_use_case.py:44-116 | every listed connection is where the transition table lets its probe answer put it and every other is unchanged; inspected is the batch size and changed plus skipped, and changed is the number of audit events written |
| `Metrics.ThreeReplacesAreOnePass` | apps/api/src/muxivo_console/infrastructure/metrics.py:114-115 | the three successive replacements equal one pass over the characters |
| `Metrics.ScanReadsLabels` | apps/api/src/muxivo_console/infrastructure/metrics.py:106-115 | a scanner of the exposition format recovers method, route and status code from the label text, whatever the strings hold and whatever follows |
| `Metrics.SeriesAreDistinct` | apps/api/src/muxivo_console/infrastructure/metrics.py:106-115 | label texts, each followed by anything, are equal only for equal keys |
| `Metrics.BucketSeriesAreDistinct` | apps/api/src/muxivo_console/infrastructure/metrics.py:91-102 | distinct pairs of key and bucket bound render to distinct series |
| `Metrics.ScanReadsBucket` | apps/api/src/muxivo_console/infrastructure/metrics.py:91-102 | a scanner recovers the key and the bound text from every bucket series, and that text writes the very bound the recorder counts against, the last one being +Inf |
| `Metrics.PlainLabels` | apps/api/src/muxivo_console/infrastructure/metrics.py:106-115 | the label names and their order, for values that need no escape |
| `Metrics.LabelsStayOnOneLine` | apps/api/src/muxivo_console/infrastructure/metrics.py:106-115 | label text never contains a line break |
| `Metrics.HistogramIsCumulative` | apps/api/src/muxivo_console/infrastructure/metrics.py:91-102 | bucket counts never fall from one bound to the next and never exceed the +Inf count |
| `Metrics.InMemoryHttpMetricsRecorder.RecordHttpRequest` | apps/api/src/muxivo_console/infrastructure/metrics.py:23-38 | one request more counts one more for its key, adds its duration, not below zero, to its sum and counts in every bucket whose bound is at least that duration and in no other; after any requests the three dictionaries hold what the log of requests says |
| `Base64Url.RoundTripExactly` | apps/api/src/muxivo_console/infrastructure/telegram_oauth.py:202-208 | a byte string comes back from its unpadded base64url text if and only if it has 1 to 12288 bytes, which is a text of at most 16384 characters; otherwise the text is refused |
| `Base64Url.EncodeStrips` | apps/api/src/muxivo_console/infrastructure/discord_control_api.py:1288-1289 | stripping removes exactly the padding that (-len mod 4) restores, every character is A-Z, a-z, 0-9, '-' or '_', and the length is ceil(4n/3) |
| `Base64Url.EncodeSpells` | apps/api/src/muxivo_console/infrastructure/discord_control_api.py:1288-1289 | the i-th character stands, in the table of section 5 of RFC 4648, for the i-th six bits of the bytes |
| `Base64Url.EncodeIsInjective` | apps/api/src/muxivo_console/infrastructure/discord_control_api.py:1288-1289 | equal texts come from equal bytes |
| `Base64Url.TextDecodesExactly` | apps/api/src/muxivo_console/infrastructure/telegram_oauth.py:202-208 | a text over the alphabet decodes if and only if it has 1 to 16384 characters and its length is not one more than a multiple of four |
| `Base64Url.ScanReadsCanonical` | apps/api/src/muxivo_console/infrastructure/telegram_oauth.py:202-208 | the decoder takes '+' and '/' for '-' and '_' and skips every other character outside the alphabet |
| `Base64Url.PaddingEnds` | apps/api/src/muxivo_console/infrastructure/telegram_oauth.py:202-208 | where padding counts: two letters need two signs and three letters one to end the text, whatever follows them; a sign after fewer letters, or a single one between two letters, is skipped |
| `Base64Url.DecodeRefuses` | apps/api/src/muxivo_console/infrastructure/telegram_oauth.py:202-208 | a segment that is empty, longer than 16384 characters or not ASCII is refused |
| `Base64Url.SplitJoin` | apps/api/src/muxivo_console/infrastructure/telegram_oauth.py:137-139 | splitting on dots undoes joining with dots for parts without a dot |
| `Base64Url.IssuedTokenOpens` | apps/api/src/muxivo_console/infrastructure/discord_control_api.py:99-103 | an issued token splits into exactly its three segments, and opening it gives header, claims, signature and the signed text back if and only if each of the three has an acceptable size |
| `Slug.StemIsRuns` | apps/api/src/muxivo_console/infrastructure/naming.py:11-14 | the stem is the alphanumeric runs of the lower-cased ASCII part of the name joined by single hyphens, or the default when there is none |
| `Slug.StemKeepsLetters` | apps/api/src/muxivo_console/infrastructure/naming.py:11-14 | the letters and digits of the stem are those of the lower-cased ASCII part of the name, none lost and none added |
| `Slug.AsciiLowerExactly` | apps/api/src/muxivo_console/infrastructure/naming.py:12-12 | what each character of a name becomes: nothing outside ASCII, the lower-case letter for an upper-case one, otherwise itself |
| `Slug.SlugIsWellFormed` | apps/api/src/muxivo_console/infrastructure/naming.py:11-16 | every slug is runs of a-z and 0-9 joined by single hyphens, ends in a hyphen and its eight hexadecimal digits, holds its stem whole up to 87 characters and otherwise its first 87 without a hyphen at the end, and passes the 1 to 96 character check of `Organization` |
| `Slug.SuffixesSeparate` | apps/api/src/muxivo_console/infrastructure/naming.py:15-16 | two slugs coincide only if they drew the same suffix |
| `Text.TrimExactly` | apps/api/src/muxivo_console/infrastructure/naming.py:14-14 | stripping is the one way to cut a text so that only stripped characters go and none is left at either end |
| `Text.SpacesExactly` | apps/api/src/muxivo_console/application/manage_platform_connection_lifecycle_use_case.py:218-226 | the code points that stripping takes for white space |
| `Uuid7.AssembleIsLayout` | apps/api/src/muxivo_console/infrastructure/uuid7_identifier_generator.py:11-16 | the shifts, masks and ors build timestamp, version, twelve random bits, variant and 62 random bits, in that order |
| `Uuid7.IdentifierFields` | apps/api/src/muxivo_console/infrastructure/uuid7_identifier_generator.py:11-16 | every identifier carries version 7 and variant 10, gives its timestamp back by shifting by 80, and holds the random bits other than numbers 62 and 63 |
| `Uuid7.IdentifierIs` | apps/api/src/muxivo_console/infrastructure/uuid7_identifier_generator.py:11-16 | the identifier as a number: timestamp times 2^80, version 7 times 2^76, twelve random bits times 2^64, variant 2 times 2^62 and 62 random bits |
| `Uuid7.ShiftsExactly` | apps/api/src/muxivo_console/infrastructure/uuid7_identifier_generator.py:11-16 | shifts and masks are products, quotients and remainders by powers of two |
| `Uuid7.FitsExactly` | apps/api/src/muxivo_console/infrastructure/uuid7_identifier_generator.py:11-16 | an identifier of 128 bits is made if and only if the timestamp is below 2^48 |
| `Uuid7.LaterIsLarger` | apps/api/src/muxivo_console/infrastructure/uuid7_identifier_generator.py:11-16 | identifiers of a later millisecond are strictly larger, whatever the random bits |
| `Uuid7.CoincideExactly` | apps/api/src/muxivo_console/infrastructure/uuid7_identifier_generator.py:11-16 | with 74 random bits two identifiers coincide if and only if their timestamps and their 72 surviving random bits do |

## Left out

- Sockets, timeouts, AUTH and SELECT in the Redis adapters: I/O around the codec.
- The 64 KiB line limit of the asyncio reader and Python's 4300-digit limit on integers: longer lines are read by the model and refused by the library.
- UTF-8: keys, values and replies are bytes; a reply that is not UTF-8 is an outage in the code and a value here.
- The limiter's answer when Redis is unavailable (deny for one window): one branch without state.
- Redis reports a key's remaining time in whole seconds, rounded half up; only the remaining time shown to denied clients depends on it.
- Shapes of tokens, passwords, display names and e-mail addresses, and the white-space or length checks on them: pure input validation in front of the modelled steps.
- The probes that produce reconciliation decisions, and database outages in the middle of a pass: answers are arbitrary decisions that the decision's own check accepts.
- Login, logout, failed-login counting and the checks of the password change: they appear only as events that change a credential or open a session.
- The periodic removal of expired security records: it deletes only rows that no longer take part.
- JSON of headers and claims, HMAC and RSA: the signing function is a parameter, the verification of signatures and claims is not modelled.
- Metrics: `method.upper()`, floating-point rounding of duration sums and the sorted rendering of the other lines; durations are real numbers.
- Unicode NFKD normalization in the slug generator: the model starts from the normalized name.
- OAuth clients, HTTP adapters, SMTP, settings, logging, workers and the user interface: calls into other systems and configuration.

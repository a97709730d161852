# Verified models of the backend's stateful core

This project models the parts of the Express/Prisma backend whose correctness rests on state kept over many calls, and
proves what they promise. Postgres tables and Redis keys are maps, sets and sequences; SHA-256, MD5, HMAC, the language
model, the tools, the embedding provider and the paging of project lists are function parameters, so every result holds
for all of them. Clocks, fresh ids and random tokens are arguments.

Where the source works by changing things step by step, the model is a class or a loop proved against a specification
function; the theorems over whole runs are lemmas about that function. So each method of the organization, session and project
services is proved to do what the transition of its name does, and the rows below are about the transitions. What a transition
does is told once more from the tables alone, without the model's own helpers and constants, in the rows that end in `Effect`,
`Outcome`, `Is`, `Are` or `Iff`.

| file | what it models |
|---|---|
| `AuditLog.dfy` | the hash-chained activity log: append, verification walk, interleaved appends |
| `Base32.dfy`, `Totp.dfy` | the streaming Base32 coder of RFC 4648 section 6, HOTP of RFC 4226 section 5.3, TOTP of RFC 6238 section 5.2 |
| `Bloom.dfy`, `Revocation.dfy` | the Bloom filter over a byte array, and token revocation and logout on several instances over one denylist |
| `RateLimit.dfy` | the fixed-window limiter with INCR, TTL and EXPIRE as separate steps |
| `Agent.dfy` | the tool-calling loop with its policy and registry |
| `Organizations.dfy`, `OrganizationService.dfy` | memberships and invitations: transitions with their invariants, and the service that refines them |
| `OrganizationEffects.dfy` | what each of these operations answers and leaves, told from the tables |
| `InterleavedInvitations.dfy` | inviting as two database calls with others between them |
| `Sessions.dfy`, `Cleanup.dfy` | refresh-session rotation, and the batched deletion jobs |
| `InterleavedSessions.dfy` | refreshing as two database calls with others between them |
| `Chunker.dfy`, `RagIndex.dfy` | text chunking and the chunk store kept in step with it |
| `CacheKeys.dfy`, `ProjectKeys.dfy`, `Projects.dfy`, `ProjectService.dfy` | cache keys and patterns, project keys, the cached project service |
| `InterleavedProjects.dfy` | cached reads as fetch and set, and writes as change and deletions, with other steps between them |
| `Vectors.dfy` | cosine similarity and the dot product over the reals |
| `Common.dfy` | options, roles, delimited strings, decimal numerals and division |

Assumptions, each stated as a `requires` where it is used: collision-freedom of SHA-256 is asked for only on the payloads
that occur in the two logs compared; ids are UUIDs and so hold no colon and no pattern character; newly made refresh tokens
differ from all earlier ones; access-token ids are random, so that a token that verifies and has an id is the token of that id; SCAN returns every matching key that is there throughout; Redis and Postgres carry out the
commands they answer.

Results that differ from what the source's comments lead one to expect:

- The comment of `verifyAuditChainIntegrity` says that inserted, modified or deleted records are found. The code passes over
  rows without a stored hash, does not hash ids, times or metadata, reads only the oldest 500 rows, and accepts a log whose
  newest chained rows were removed. `AuditLog.AlterationIsReported` and `AuditLog.KnownHeadMeansTruncation` say exactly what
  is found and what is not; `AuditLog.InterleavedLogsVerifyIff` says exactly which concurrent appends make a log fail.
- A token is refused for good exactly when it has expired or its denylist key reaches its exp (`Revocation.NeverAcceptedIff`),
  and every revoke of an id overwrites the key's lifetime. After a logout with the token, what counts is therefore the last write
  of the key (`Revocation.LogoutStaysFinalIff`): a later logout or password change by id alone, with its default of 900 seconds,
  ends the key early when more than these are left of the token, and so does a later logout with a token that does not verify but
  claims the id and an earlier exp, since the code revokes by the claims it decodes (`Revocation.EarlierClaimEndsFinality`).
- The limiter bounds what is let through by the time at which requests are counted. By the time of the answer nothing is bounded
  (`RateLimit.LateAnswersBunch`) unless the delay between the two is (`RateLimit.LetThroughBound`).
- The chunking loop ends on every text exactly when `maxChunkSize > overlap + 100` (`Chunker.LoopEndsIff`); the defaults are such.
- A read that fetches before a write and sets the cache after the write's deletions leaves an entry that stays stale until it
  expires (`InterleavedProjects.ReadAcrossUpdateIff`); nothing else does, short of a deletion that Redis refuses
  (`InterleavedProjects.AlwaysSettledIff`).
- Indexing blank content reports success and leaves earlier rows in place (`RagIndex.BlankContentIsExactIff`).
- The rotation of a refresh does not look at `revokedAt` again. A token is accepted twice exactly when two of its accepted
  refreshes had both looked up before either rotated (`InterleavedSessions.SingleUseIff`), and a refresh that looked up before a logout or a password change
  still opens a new session after it (`InterleavedSessions.RotatesLiveRowIff`, `InterleavedSessions.RotationAddsSessionIff`). A
  replay is recognised exactly while the row is stored (`Sessions.ReplayIsDetectedIff`).
- Nothing in the tables keeps an address to one PENDING invitation an organization: two calls that invite it at the same time may
  leave two (`InterleavedInvitations.OnePendingIff`). And a call whose look-up found an invitation that is then accepted, revoked or
  expired makes it PENDING again (`InterleavedInvitations.ClosedAlwaysStayIff`).
- Batched cleanup with a batch size of zero deletes nothing.

## Model

| member | source | states |
|---|---|---|
| `AuditLog.PayloadInjective` | src/modules/activity/activity.service.ts:29-29 | the colon-joined payload determines all six fields although the entity id may hold colons |
| `AuditLog.HeadPinsChain` | src/modules/activity/activity.service.ts:68-120 | two chains that verify and end in the same hash are equal in number, order and every hashed field |
| `AuditLog.AlterationIsReported` | src/modules/activity/activity.service.ts:68-120 | another log with the head hash of a log that verifies is accepted if and only if its chained rows are the same |
| `AuditLog.KnownHeadMeansTruncation` | src/modules/activity/activity.service.ts:68-120 | a log that verifies ends in a hash the original once had if and only if it is a prefix of it |
| `AuditLog.ActivityService.LogActivity` | src/modules/activity/activity.service.ts:23-62 | appends one row that names the hash of the organization's newest row, or 64 zeros, and stores the digest of that and its five fields joined by colons |
| `AuditLog.ActivityService.VerifyAuditChainIntegrity` | src/modules/activity/activity.service.ts:68-120 | accepts if and only if each of the organization's oldest 500 rows passes: it stores no hash, or names the last stored hash before it, else 64 zeros, and stores the digest of that and its fields; a refusal names the first row that fails |
| `AuditLog.ChainIff` | src/modules/activity/activity.service.ts:80-116 | the chained rows form a hash chain if and only if every row passes |
| `AuditLog.OfOrganizationPicks` | src/modules/activity/activity.repository.ts:97-101 | the rows read are exactly the organization's, in the order of the log |
| `AuditLog.RunKeepsReachable` | src/modules/activity/activity.service.ts:23-62 | in every interleaving of the read and the append of logActivity calls, each appended row names the head hash its call saw |
| `AuditLog.FreshLogsVerify` | src/modules/activity/activity.service.ts:68-120 | a log without an append from a stale read verifies, whatever the hash function |
| `AuditLog.InterleavedLogsVerifyIff` | src/modules/activity/activity.service.ts:23-120 | in every interleaving each of an organization's first 500 rows passes if and only if none of them came from a stale read |
| `AuditLog.OneByOneIsLogAll` | src/modules/activity/activity.service.ts:23-62 | calls that run one after another are the sequential log |
| `AuditLog.HonestLogsVerify` | src/modules/activity/activity.service.ts:23-120 | calls one after another over any organizations, after any unchained rows, leave logs of which every row passes |
| `Base32.WordOperators` | src/utils/totp.ts:11-42 | the shifts of words are products modulo 2^32 and quotients, or-ing a group into cleared low bits adds it, and masks are remainders |
| `Base32.LeftShifts` | src/utils/totp.ts:11-37 | every shift to the left that occurs is a product of words |
| `Base32.RightShifts` | src/utils/totp.ts:15-41 | every unsigned shift to the right that occurs is a quotient |
| `Base32.ShiftWord` | src/utils/totp.ts:11-11 | shifting the wrapped 32-bit word and filling in a group is exact on the low 32 bits of the whole bit string's value |
| `Base32.ReadWindow` | src/utils/totp.ts:15-15 | a window of the bit string is read off the wrapped word |
| `Base32.RoundTrip` | src/utils/totp.ts:5-47 | decoding the encoding of any byte buffer gives the buffer |
| `Base32.EncodedIsNumeral` | src/utils/totp.ts:3-25 | the encoding writes in base 32, with the digits A to Z and 2 to 7, the number that the bytes write in base 256, times the power of two that fills the last group |
| `Base32.DecodedIsNumeral` | src/utils/totp.ts:27-47 | decoding writes in base 256 the number that the characters write in base 32, without the bits that fill no byte |
| `Base32.CleanedSnoc` | src/utils/totp.ts:28-28 | small letters count as capitals and characters outside the alphabet are passed over |
| `Base32.EncodedLength` | src/utils/totp.ts:5-25 | the encoding of n bytes has ceil(8n/5) characters, all of the alphabet |
| `Base32.EncodingIsCanonical` | src/utils/totp.ts:27-47 | an alphabet string is the encoding of what it decodes to if and only if fewer than five bits, all zero, are left after its last byte |
| `Base32.Encode` | src/utils/totp.ts:5-25 | the streaming encoder, whose word is never masked, gives the encoding of the whole bit string in groups of five |
| `Base32.Flush` | src/utils/totp.ts:20-22 | the last group is filled with zero bits |
| `Base32.Decode` | src/utils/totp.ts:27-47 | the streaming decoder gives the bytes of the whole bit string and drops leftover bits |
| `Totp.CounterBytesInjective` | src/utils/totp.ts:53-54 | different counters become different messages |
| `Totp.CounterBytesAre` | src/utils/totp.ts:53-54 | the message exists for the signed 64-bit counters and writes the counter modulo 2^64 in eight bytes, the most significant first |
| `Totp.Truncate` | src/utils/totp.ts:57-63 | dynamic truncation stays inside the 20 bytes and is the big-endian number of four of them without the sign bit |
| `Totp.HotpIsSixDigits` | src/utils/totp.ts:52-67 | a code exists for the counters that fit 64 bits, has exactly six digits and writes the truncated number modulo a million |
| `Totp.VerifyTotpCode` | src/utils/totp.ts:84-111 | accepts a token if and only if it is well formed and the code of a counter at most `window` from n, where n is the step that the time lies in |
| `Totp.CodeOfStep` | src/utils/totp.ts:73-82 | the code at a time t is the HOTP value of the n with n * 1000 * step <= t < (n + 1) * 1000 * step |
| `Totp.DriftTolerance` | src/utils/totp.ts:73-111 | a code used within `window` steps of its making is accepted by a six-digit verifier if and only if the secret is not empty and the window about the step of its use begins in the 64-bit range |
| `Totp.OnlySixDigits` | src/utils/totp.ts:86-94 | nothing in the window has another length than six, so a verifier set to other digits accepts nothing |
| `Totp.SecretRoundTrip` | src/utils/totp.ts:121-123 | a generated secret has 32 characters and decodes to its twenty bytes |
| `Bloom.OrSetsOneBit` | src/utils/bloom.ts:63-66 | OR with a mask sets one bit of a byte and no other |
| `Bloom.SetOneBit` | src/utils/bloom.ts:62-67 | the byte update adds exactly one index to the set the array stands for |
| `Bloom.BloomFilter.GetIndexes` | src/utils/bloom.ts:41-54 | hashCount positions by double hashing, each below the size |
| `Bloom.BloomFilter.Add` | src/utils/bloom.ts:59-68 | the set of bits grows by exactly the item's indexes; the array keeps standing for the items added |
| `Bloom.BloomFilter.Has` | src/utils/bloom.ts:75-87 | answers yes if and only if all the item's indexes are set, so never no for an item added |
| `Bloom.BloomFilter.Clear` | src/utils/bloom.ts:92-94 | no bit is left and no item counts as added |
| `Revocation.TokenRevocationBloomService.Revoke` | src/utils/bloom.ts:108-120 | the id joins the local set, and the denylist until the deadline unless the write fails; the same as the step of a cluster |
| `Revocation.TokenRevocationBloomService.IsRevoked` | src/utils/bloom.ts:126-134 | the Bloom fast path never changes the answer: membership in the set |
| `Revocation.TokenRevocationBloomService.IsRevokedDistributed` | src/utils/bloom.ts:140-160 | the answer is that of set and denylist together, unavailable when Redis is needed and down; a hit joins the set, as in the step of a cluster |
| `Revocation.TokenRevocationBloomService.Prune` | src/utils/bloom.ts:173-179 | above 200000 ids set and filter are emptied together, else nothing changes |
| `Revocation.TokenRevocationBloomService.ClearLocalState` | src/utils/bloom.ts:165-168 | set and filter are emptied together |
| `Revocation.LogoutIsFinal` | src/modules/auth/auth.service.ts:257-284 | after a logout with the token, and any later logouts with any tokens or ids, password changes, restarts, prunes and checks, no instance accepts it as long as every later write of its key reaches its exp |
| `Revocation.NeverAcceptedIff` | src/utils/bloom.ts:108-160 | in every state a token is refused for good by every instance if and only if it carries an exp that has passed or that its denylist key reaches |
| `Revocation.LogoutStaysFinalIff` | src/modules/auth/auth.service.ts:257-284 | after a logout with the token and any later calls, it is refused for good if and only if it has expired or the last write of its key reaches its exp |
| `Revocation.WriteReachesIff` | src/modules/auth/auth.service.ts:257-284 | a logout's write reaches the token's exp always with the token itself, with a token that does not verify if and only if it claims no earlier exp, and by id if and only if at most 900 seconds are left |
| `Revocation.EarlierClaimEndsFinality` | src/modules/auth/auth.service.ts:268-281 | for every logout, a later one with a token that does not verify but claims the id and an earlier exp lets some instance accept the token again |
| `Revocation.AuthService.Logout` | src/modules/auth/auth.service.ts:257-284 | a token that verifies is revoked for what is left of it and at least a second, one that does not by its claims if these lie ahead, an id for 900 seconds; the same as the step of a cluster |
| `Revocation.IdLogoutDenies` | src/modules/auth/auth.service.ts:282-317 | after a logout by id or a password change the key's deadline is 900 seconds ahead, and no instance accepts a token with the id before it |
| `Revocation.ClaimLogoutDenies` | src/modules/auth/auth.service.ts:268-281 | after a logout with a token that does not verify the key lives to the exp it claims, and denies the id until then |
| `Revocation.TokenLogoutDenies` | src/modules/auth/auth.service.ts:257-267 | after a logout with a token that verifies the key lives to its exp, or for 900 seconds without one, and denies the id until then |
| `Revocation.AcceptsIff` | src/middlewares/auth.middleware.ts:44-60 | an instance accepts if and only if the token has not expired and its id is in no set or live key that the instance sees |
| `Revocation.RevocationIsFinalIff` | src/utils/bloom.ts:108-160 | a revocation with any TTL is final if and only if the token has an expiry and the key lives to it |
| `Revocation.DefaultRevokeIsFinalIff` | src/modules/auth/auth.service.ts:282-284 | a revocation by id alone, at any moment, leaves the token refused for good if and only if at most 900 seconds are left of it |
| `Revocation.OnlyRevokedTokensAreRefused` | src/utils/bloom.ts:140-160 | in every run only ids that some revoke was called for are answered as revoked |
| `Revocation.EntityCacheBloomService.DefinitelyDoesNotExist` | src/utils/bloom.ts:206-209 | claims exactly of entities with an index not set that they do not exist, so never of a registered one |
| `RateLimit.RedisKey.Handle` | src/middlewares/rate-limit.middleware.ts:28-94 | one request alone is counted, answered by its count with the remaining time or the window, and leaves an expiry behind; Redis errors let it through |
| `RateLimit.WholeRequest` | src/middlewares/rate-limit.middleware.ts:38-86 | a request whose steps follow one another does in the interleaved model what the middleware does alone |
| `RateLimit.EveryRunKeepsInv` | src/middlewares/rate-limit.middleware.ts:38-67 | in every interleaving, lifetimes start a window apart and their counts are 1, 2, and so on, each given to one request |
| `RateLimit.AtMostMaxPerLifetime` | src/middlewares/rate-limit.middleware.ts:28-94 | of the requests counted in a key lifetime at most maxRequests are let through, in every interleaving and with crashes at any step |
| `RateLimit.CountedBound` | src/middlewares/rate-limit.middleware.ts:28-94 | of the requests counted in an interval of a window and d milliseconds at most (2 + ceil(d / window)) * maxRequests are let through |
| `RateLimit.BurstBound` | src/middlewares/rate-limit.middleware.ts:28-94 | of the requests counted in any interval of a window's length at most 2 * maxRequests are let through |
| `RateLimit.LetThroughBound` | src/middlewares/rate-limit.middleware.ts:28-94 | when answers come within d milliseconds of the count, at most (2 + ceil(d / window)) * maxRequests requests are let through in any interval of a window's length |
| `RateLimit.LateAnswersBunch` | src/middlewares/rate-limit.middleware.ts:42-86 | with late answers nothing is bounded: for every n some run lets n requests through in one millisecond |
| `RateLimit.RejectedOnlyWhenFull` | src/middlewares/rate-limit.middleware.ts:76-84 | a request is turned away only when maxRequests others hold the counts up to the limit in its lifetime |
| `RateLimit.AnsweredKeysExpire` | src/middlewares/rate-limit.middleware.ts:64-67 | once a request of the current lifetime was answered, the key expires within a window |
| `Agent.PolicyAllowsIff` | src/modules/ai/guardrails/agent-security.policy.ts:26-88 | a call is allowed if and only if ids are present, the tool is registered and open to the role, neither destructive nor in need of confirmation, and, if it is a mutation, a write or an external side effect, fewer than the limit, by default 3, went before; when a confirmation is asked for; and what is allowed is sanitized |
| `Agent.PolicyImpliesRegistryGuards` | src/modules/ai/tools/tool-registry.ts:63-89 | what the policy lets through passes the registry's own guards |
| `Agent.ExecuteTool` | src/modules/ai/tools/tool-registry.ts:63-127 | a tool runs, once and with the parsed input, if and only if the guards admit it and its schema accepts the input; the result is the tool's, or the error |
| `Agent.ToolRegistry.Register` | src/modules/ai/tools/tool-registry.ts:44-46 | the tool replaces the one of its name, else comes last |
| `Agent.ToolRegistry.GetToolDefinitions` | src/modules/ai/tools/tool-registry.ts:56-61 | the definitions of the offered tools, in the order of registration |
| `Agent.OfferedIff` | src/modules/ai/tools/tool-registry.ts:56-61 | offered are exactly the registered tools that the role may use, each once |
| `Agent.DispatchIsSafe` | src/modules/ai/agent.orchestrator.ts:212-268 | of any requested calls at most 3 dispatched ones are mutations, writes or external side effects, no signature is dispatched twice, and all are permitted |
| `Agent.DispatchIsComplete` | src/modules/ai/agent.orchestrator.ts:212-268 | a permitted request's signature is dispatched unless it mutates and the mutation limit is used up |
| `Agent.RunsAreSafe` | src/modules/ai/agent.orchestrator.ts:212-268 | whatever calls are requested, the tools that run are registered, open to the role, neither destructive nor in need of confirmation, and at most 3 runs are mutations, writes or external side effects |
| `Agent.SignatureIdentifiesCall` | src/modules/ai/agent.orchestrator.ts:241-241 | equal signatures mean the same tool and arguments when no tool name holds a colon |
| `Agent.Judge` | src/modules/ai/agent.orchestrator.ts:216-268 | policy and duplicate count decide dispatch, input and reason as specified, and the counters follow |
| `Agent.HandleCall` | src/modules/ai/agent.orchestrator.ts:212-281 | the tools run the call with its sanitized input if and only if it is dispatched, and one output follows: the sanitized result or refusal |
| `Agent.FinishedWithinSteps` | src/modules/ai/agent.orchestrator.ts:139-308 | a finished run asked the model at most maxSteps times with tools and once without |
| `Agent.LastRequestCountsCalls` | src/modules/ai/agent.orchestrator.ts:139-308 | the last request of a finished run shows exactly one tool message for each call the run took on |
| `Agent.TakesAllWithinLimit` | src/modules/ai/agent.orchestrator.ts:171-180 | a run takes on every requested call unless they are more than maxToolCalls, and stops offering tools only then or after maxSteps requests |
| `Agent.RunKeepsFaith` | src/modules/ai/agent.orchestrator.ts:114-305 | every request begins with the system prompt and the sanitized message, what users and tools said is shown sanitized, and an answer is the sanitized reply, or a sanitized text that is not empty |
| `Agent.DistinctKeepsOrder` | src/modules/ai/agent.orchestrator.ts:164-164 | the tools used are named in the order of their first use |
| `Agent.SourcesAre` | src/modules/ai/agent.orchestrator.ts:86-99 | one source a result, with its own title or else that of the metadata; none when nothing was found |
| `Agent.RunAgent` | src/modules/ai/agent.orchestrator.ts:57-309 | for every model, tools and retrieval: what the model is asked, offered and shown, what the tools are made to run and what the response says are exactly those of a run that may end with a reply, at the limit of calls or at the limit of steps; so at most maxSteps + 1 requests, offering the role's tools, only runnable tools, at most 3 runs that are mutations, writes or external side effects, and counts within the limits, of as many calls as tool messages |
| `Organizations.RegisterKeepsInv` | src/modules/auth/auth.repository.ts:139-203 | registration keeps the invariants |
| `Organizations.AddMemberKeepsInv` | src/modules/organizations/organization.service.ts:242-351 | inviting keeps the invariants, one PENDING invitation an organization and address among them |
| `Organizations.UpdateMemberRoleKeepsInv` | src/modules/organizations/organization.service.ts:353-430 | role changes keep the invariants, the single OWNER among them |
| `Organizations.RemoveMemberKeepsInv` | src/modules/organizations/organization.service.ts:432-471 | removals keep the invariants |
| `Organizations.AcceptTransactionKeepsInv` | src/modules/organizations/organization.repository.ts:348-511 | the acceptance transaction keeps the invariants |
| `Organizations.EveryRunKeepsInv` | src/modules/organizations/organization.service.ts:81-799 | in every run of whole calls each user has at most one membership, each organization exactly one OWNER row and it is ownerId's, each address at most one PENDING invitation an organization, and members who joined by invitation none |
| `OrganizationEffects.RegisterEffect` | src/modules/auth/auth.repository.ts:139-203 | when registration succeeds, and the user, organization and OWNER row it then adds |
| `OrganizationEffects.CreateOrganizationEffect` | src/modules/organizations/organization.service.ts:81-120 | when creating an organization succeeds or is refused, and the OWNER row it then adds |
| `OrganizationEffects.DeleteOrganizationEffect` | src/modules/organizations/organization.service.ts:205-213 | no member or invitation of the organization is left, and all others are |
| `OrganizationEffects.UpdateMemberRoleEffect` | src/modules/organizations/organization.service.ts:353-430 | who may change whose role to what, the answer otherwise, and that the member then has exactly the new role |
| `OrganizationEffects.RemoveMemberEffect` | src/modules/organizations/organization.service.ts:432-471 | who may remove whom, the answer otherwise, and that the user then belongs nowhere and others keep their rows |
| `OrganizationEffects.AddMemberOutcome` | src/modules/organizations/organization.service.ts:242-276 | an address can be invited if and only if the organization exists and the address belongs nowhere, and the answer otherwise |
| `OrganizationEffects.AddMemberEffect` | src/modules/organizations/organization.service.ts:276-304 | exactly one invitation changes: the address's PENDING one, else a new one, PENDING for seven days with the new token and role |
| `OrganizationEffects.ResendInvitationEffect` | src/modules/organizations/organization.service.ts:564-619 | a PENDING invitation of the organization gets the new token and seven days, and the answer otherwise |
| `OrganizationEffects.RevokeInvitationEffect` | src/modules/organizations/organization.service.ts:621-643 | Done if and only if the invitation is the organization's and PENDING; then it is REVOKED and all else unchanged |
| `OrganizationEffects.RevokedForGood` | src/modules/organizations/organization.service.ts:473-799 | after a revoke, in every run that keeps the organization, every look-up and acceptance with the token is refused |
| `OrganizationEffects.ClosedForGood` | src/modules/organizations/organization.service.ts:473-799 | the same for every invitation that is not PENDING |
| `OrganizationEffects.ClosedTokenIsRefused` | src/modules/organizations/organization.service.ts:485-512 | which answer each closed status gets |
| `OrganizationEffects.UnknownTokenIsRefused` | src/modules/organizations/organization.service.ts:473-483 | empty and unknown tokens are refused and change nothing |
| `OrganizationEffects.GetInvitationEffect` | src/modules/organizations/organization.service.ts:514-548 | the look-up of a PENDING invitation: found if and only if in time and the address belongs nowhere, EXPIRED if late, and the answer otherwise |
| `OrganizationEffects.AcceptInvitationEffect` | src/modules/organizations/organization.service.ts:646-740 | the acceptance of a PENDING invitation: done if and only if in time, by the recipient, who belongs nowhere; and the answer otherwise |
| `InterleavedInvitations.OnePendingIff` | src/modules/organizations/organization.service.ts:276-304 | with look-up and write as separate steps, an address never has two PENDING invitations of an organization if and only if no write meets another one written since its look-up |
| `InterleavedInvitations.ClosedAlwaysStayIff` | src/modules/organizations/organization.service.ts:276-304 | in every such run a closed invitation never changes if and only if no write finds the invitation it looked up closed since |
| `InterleavedInvitations.WholeInvite` | src/modules/organizations/organization.service.ts:276-304 | a look-up followed at once by its write is the addMember of one step |
| `InterleavedInvitations.CloseEffect` | src/modules/organizations/organization.service.ts:473-799 | closing takes a PENDING invitation to the status given and changes nothing else |
| `Organizations.ClosedInvitationsStayInRuns` | src/modules/organizations/organization.service.ts:473-799 | an invitation that is no longer PENDING never changes again while its organization exists |
| `Organizations.AcceptanceJoins` | src/modules/organizations/organization.repository.ts:348-511 | a committed acceptance adds exactly one member with the invited role, accepts that invitation, invalidates the address's other PENDING ones and leaves the rest |
| `Organizations.AcceptedOnlyOnce` | src/modules/organizations/organization.service.ts:646-799 | an accepted token is never accepted again, whatever follows short of deleting the organization |
| `Organizations.ResentTokenReplacesOld` | src/modules/organizations/organization.service.ts:564-619 | after a resend the old token is no longer found |
| `Organizations.InvitationRoundTrip` | src/modules/organizations/organization.service.ts:242-799 | the recipient who accepts with the token sent joins with the invited role if and only if the transaction runs within seven days; later the invitation is expired and nobody joins |
| `Organizations.AdminsChangeByOwnerOnly` | src/modules/organizations/organization.service.ts:353-471 | no role change or removal by another caller than an owner changes who is ADMIN |
| `Organizations.RefusalChangesNothing` | src/modules/organizations/organization.service.ts:81-799 | a refused request changes nothing, except that an invitation found past its time becomes EXPIRED |
| `OrganizationServices.OrganizationService.InvalidatePendingInvitationsByEmail` | src/modules/organizations/organization.repository.ts:314-330 | exactly the address's other PENDING invitations become INVALIDATED |
| `Sessions.EveryRunKeepsInv` | src/modules/auth/auth.repository.ts:63-137 | in every run token hashes are unique and every stored accepted token is revoked |
| `Sessions.TokensAreSingleUse` | src/modules/auth/auth.service.ts:179-237 | in every run of sign-ins, refreshes, logouts, password changes and cleanup each token is accepted at most once |
| `Sessions.RevokedStaysRevoked` | src/modules/auth/auth.repository.ts:94-137 | no step un-revokes a session or moves its time of revocation |
| `Sessions.RefreshOutcome` | src/modules/auth/auth.service.ts:179-237 | accepted if and only if the JWT verifies, a stored row has the hash, is unrevoked and has not expired, and the new id and hash are free; when unknown, revoked, expired or a violation |
| `Sessions.RefreshEffect` | src/modules/auth/auth.repository.ts:106-137 | an accepted refresh revokes that row now and stores one new row for the user, a replay revokes all the user's rows, others change nothing |
| `Sessions.RefreshRecorded` | src/modules/auth/auth.service.ts:179-237 | exactly accepted refreshes are recorded as accepted, with the token they hand out |
| `Sessions.SignInEffect` | src/modules/auth/auth.repository.ts:63-83 | a sign-in stores an unrevoked row under a free id and hash |
| `Sessions.RevocationEffect` | src/modules/auth/auth.repository.ts:94-116 | logout revokes the unrevoked row of the hash, a password change those of the user, and nothing else changes |
| `Sessions.CleanupEffect` | src/jobs/services/cleanup.service.ts:31-45 | cleanup keeps exactly the rows that can still be refreshed |
| `Sessions.RefreshConservesSessions` | src/modules/auth/auth.service.ts:179-237 | a successful refresh trades one unrevoked session of the user for one new one and touches no other user's |
| `Sessions.ReplayIsDetectedIff` | src/modules/auth/auth.service.ts:195-202 | a token once ended is at any later time recognised as a replay if and only if its row is stored, and then leaves the user no unrevoked session and others theirs; else it is refused as unknown |
| `Sessions.WhatEndsTokens` | src/modules/auth/auth.service.ts:179-312 | tokens are ended by their refresh, by logout and by a password change |
| `Sessions.AllRevokedLeavesNone` | src/modules/auth/auth.repository.ts:106-116 | no session of the user stays unrevoked and no other user's changes |
| `Sessions.EndedSessions` | src/modules/auth/auth.service.ts:286-312 | a password change ends every session of the user, logout exactly the one with the given hash |
| `Sessions.OverlappingRefreshes` | src/modules/auth/auth.repository.ts:118-137 | the shortest case of two refreshes of one token: refused when it looks up after the first rotation, and accepted with a session more when before |
| `InterleavedSessions.EveryHistoryIsOk` | src/modules/auth/auth.service.ts:187-230 | in every run with look-up and rotation as separate steps, of two rotations of one row the later had looked up before the earlier, and rotated rows stay revoked |
| `InterleavedSessions.SingleUseIff` | src/modules/auth/auth.service.ts:179-237 | in every such run no token is accepted twice if and only if no two accepted refreshes of one token both looked up before either had rotated |
| `InterleavedSessions.BothMayBeAccepted` | src/modules/auth/auth.repository.ts:118-137 | whenever two refreshes of one stored row are under way both can be accepted |
| `InterleavedSessions.RotatesLiveRowIff` | src/modules/auth/auth.repository.ts:94-137 | in every such run an accepted refresh rotated an unrevoked row if and only if no step between its look-up and its rotation revoked the row |
| `InterleavedSessions.RotationAddsSessionIff` | src/modules/auth/auth.repository.ts:118-137 | a rotation keeps the number of the user's unrevoked sessions if the row was unrevoked and adds one if it was not |
| `InterleavedSessions.WholeRefresh` | src/modules/auth/auth.service.ts:179-237 | a look-up followed at once by its write is the refresh of one step |
| `InterleavedSessions.OtherSteps` | src/modules/auth/auth.repository.ts:63-116 | sign-ins, logouts, password changes and cleanup do what they do when refreshes are whole |
| `Sessions.SessionService.RotateRefreshSession` | src/modules/auth/auth.repository.ts:118-137 | revokes the old and creates the new session, or neither |
| `Cleanups.BatchCount` | src/jobs/services/cleanup.service.ts:31-54 | k full batches and one of r rows are ceil(n/b) batches |
| `Cleanups.CleanupService.CleanupExpiredAndRevokedSessions` | src/jobs/services/cleanup.service.ts:24-63 | ends, removes exactly the rows that have expired or are revoked, reports their number in as few batches as hold them, and leaves nothing for a second run |
| `Cleanups.CleanupService.CleanupStaleNotifications` | src/jobs/services/cleanup.service.ts:65-103 | the same for notifications that are read and older than the given days |
| `Chunker.WordsStayWhole` | src/modules/rag/utils/chunker.ts:30-42 | a window ends at a newline or space unless the hundred characters before its largest end hold none |
| `Chunker.SplitEndIs` | src/modules/rag/utils/chunker.ts:30-42 | a window ends at the last newline of the hundred characters before its largest end, else at the last space after a period there, else at the last space there, else at its largest end |
| `Chunker.EndlessText` | src/modules/rag/utils/chunker.ts:20-52 | for every size that is not above the overlap by more than a hundred there is a trimmed text on which the loop never ends |
| `Chunker.LoopEndsIff` | src/modules/rag/utils/chunker.ts:20-52 | the loop ends on every trimmed text longer than a chunk if and only if maxChunkSize > overlap + 100 |
| `Chunker.WindowsAreLinked` | src/modules/rag/utils/chunker.ts:20-52 | windows begin exactly overlap before the end of the one before, later than it began, and the last ends with the text |
| `Chunker.NothingIsLost` | src/modules/rag/utils/chunker.ts:6-55 | every position of the trimmed text that is not white space lies in some chunk |
| `Chunker.ChunksAreProper` | src/modules/rag/utils/chunker.ts:6-55 | every chunk is a non-empty trimmed stretch of the text of at most maxChunkSize; there are none if and only if the text is blank |
| `Chunker.ChunkText` | src/modules/rag/utils/chunker.ts:6-55 | for every text and all sizes with which the loop ends, the pieces of all its rounds; with maxChunkSize > overlap + 100 these are the chunks of the windows |
| `Chunker.ChunkedIsChunks` | src/modules/rag/utils/chunker.ts:20-54 | when maxChunkSize > overlap + 100 the loop ends, and its rounds take exactly the windows' chunks |
| `Chunker.ChunkedIsTaken` | src/modules/rag/utils/chunker.ts:20-54 | the answer is the pieces of the rounds up to the last, whatever bound on them is chosen |
| `RagIndex.IndexingIsExact` | src/modules/rag/rag.service.ts:43-101 | after a successful call on text with chunks the entity's rows are exactly those chunks with their number, whatever was stored; no call touches another entity |
| `RagIndex.IndexedRows` | src/modules/rag/rag.service.ts:56-92 | after a successful call each chunk of size 1000 and overlap 150 has one row with its text, length, number of chunks and vector, and no row is beyond |
| `RagIndex.ThrownRows` | src/modules/rag/rag.service.ts:56-100 | a call that throws at statement k has written the rows before k and changed nothing else |
| `RagIndex.ThrownIff` | src/modules/rag/rag.service.ts:56-100 | a call throws if and only if there is text and the provider or a statement fails, or some chunk has no vector or one of another size than 1536 |
| `RagIndex.RetryErasesFault` | src/modules/rag/rag.service.ts:56-100 | a call that succeeds stores the same rows whatever calls for the entity came before, failed partway or not |
| `RagIndex.SecondRunChangesNoText` | src/modules/rag/rag.service.ts:43-101 | a second run changes nothing but embeddings, and not those if the provider repeats them |
| `RagIndex.BlankContentIsExactIff` | src/modules/rag/rag.service.ts:51-54 | blank content succeeds and changes nothing; the store agrees with it if and only if no rows were there |
| `RagIndex.EveryRunMeetsExpected` | src/modules/rag/rag.service.ts:43-312 | in every run each entity's rows are those of its last document indexed in full, or none after a delete, unless a statement threw since |
| `RagIndex.RowsComeFromCalls` | src/modules/rag/rag.service.ts:43-312 | in every run, failures included, each stored row is a chunk of a document that some call for its entity was to index |
| `RagIndex.RagRepository.UpsertChunk` | src/modules/rag/rag.repository.ts:6-75 | the row of the unique key is replaced or added, unless the vector has not 1536 elements, which the database refuses |
| `RagIndex.RagRepository.DeleteOrphanChunks` | src/modules/rag/rag.repository.ts:77-93 | exactly the entity's rows from the index on go |
| `RagIndex.RagService.IndexEntity` | src/modules/rag/rag.service.ts:43-101 | refines the indexing function, failures included, and leaves the entity current |
| `RagIndex.RagService.DeleteEntityKnowledge` | src/modules/rag/rag.service.ts:305-312 | the entity has no rows, the others keep theirs |
| `CacheKeys.JsonInjective` | src/utils/cache.ts:16-16 | different list queries have different JSON texts |
| `CacheKeys.JsonTexts` | src/utils/cache.ts:16-16 | the JSON of list queries, written out |
| `CacheKeys.KeysAreInjective` | src/utils/cache.ts:11-18 | no two cache keys have the same text, whatever the project and user ids are |
| `CacheKeys.KeyTexts` | src/utils/cache.ts:11-18 | the texts of the keys and of the pattern, written out |
| `CacheKeys.ColonsCollide` | src/utils/cache.ts:14-14 | with colons in an organization id two project keys may share a text |
| `CacheKeys.StarMatchesPrefix` | src/utils/cache.ts:17-17 | literal characters and a star match exactly the strings that begin with them |
| `CacheKeys.PatternMatchesIff` | src/utils/cache.ts:11-18 | among all cache keys the list pattern of an organization matches exactly its list keys |
| `ProjectKeys.ExtractedKeyHasShape` | src/modules/projects/project.service.ts:25-40 | every name gives one to five capitals and digits |
| `ProjectKeys.ExtractedKeyIs` | src/modules/projects/project.service.ts:25-40 | the key of a name is the initials of its words, at most five, or the first four letters and digits of a name of one word, or PRJ; in one pass over the name |
| `ProjectKeys.UniqueKeyIs` | src/modules/projects/project.service.ts:42-68 | a custom key is taken or refused; else the first candidate, the base or its first four characters with a number from 2 on, that no project has |
| `ProjectKeys.TakenBound` | src/modules/projects/project.service.ts:58-65 | pigeonhole: the candidates tried are at most two more than the organization's keys |
| `ProjectKeys.FirstFree` | src/modules/projects/project.service.ts:58-67 | the first candidate that is free, all before it being taken |
| `ProjectKeys.GenerateUniqueKey` | src/modules/projects/project.service.ts:42-68 | the custom key unless taken, else the first free candidate after at most one round more than there are keys |
| `ProjectServices.CacheService.DelByPattern` | src/utils/cache.ts:51-64 | the cursor loop removes exactly the entries whose key matches |
| `ProjectServices.CacheService.GetOrSet` | src/utils/cache.ts:66-75 | the cached entry if it can be read, else the fetched one, which is cached if it can be; a fetch that throws caches nothing |
| `Projects.TakeKeepsCoherent` | src/modules/projects/project.service.ts:70-259 | each call, expiry and use of the cache by other services keeps every cached project and page what the repository would return now |
| `Projects.CoherentAnswers` | src/modules/projects/project.service.ts:112-176 | with a coherent cache every call answers what the repository alone would answer |
| `Projects.CacheIsTransparent` | src/modules/projects/project.service.ts:70-259 | in every run that begins with an empty cache, with entries expiring and Redis failing reads and sets at any time, all calls are answered as if there were no cache |
| `InterleavedProjects.AlwaysSettledIff` | src/utils/cache.ts:66-75 | in every interleaving of reads as fetch and set, and writes as change and deletions, every cached entry is at all times what the repository returns or awaits its deletion, if and only if no read sets an entry that a write since its fetch, deleted for already, has changed |
| `InterleavedProjects.NothingAwaitedIsCoherent` | src/modules/projects/project.service.ts:208-211 | once every deletion has come, such a cache is coherent |
| `InterleavedProjects.ReadAcrossUpdateIff` | src/modules/projects/project.service.ts:144-211 | every read of a project across an update leaves a stale entry that nothing will delete, unless the update left the row as it was |
| `InterleavedProjects.WholeRead` | src/utils/cache.ts:66-75 | a fetch set at once is the read of one step |
| `InterleavedProjects.WholeWrite` | src/modules/projects/project.service.ts:178-259 | a write whose deletions follow at once is the write of one step |
| `Projects.KeyConflictIff` | src/modules/projects/project.service.ts:189-197 | a change is refused if and only if it asks for a key that another project of the organization has |
| `Projects.CreateEffect` | src/modules/projects/project.service.ts:70-110 | a new project is stored with the given fields under its key, or refused for a custom key in use |
| `Projects.UpdateEffect` | src/modules/projects/project.service.ts:178-206 | when an update is refused, and else that the row has exactly the requested fields and no other row changes |
| `Projects.DeleteEffect` | src/modules/projects/project.service.ts:238-256 | a deletion removes exactly the project, or answers NotFound when the organization has none |
| `Projects.DeletedIsNotFound` | src/modules/projects/project.service.ts:144-259 | after a deletion the next read answers NotFound, whatever was cached |
| `Projects.ReadEffect` | src/modules/projects/project.service.ts:112-176 | reads answer with the organization's rows alone and change none |
| `Projects.EveryRunKeepsUnique` | src/modules/projects/project.service.ts:42-259 | in every run the projects of an organization have different keys |
| `Vectors.CauchySchwarz` | src/modules/rag/utils/vector.util.ts:5-30 | the square of the dot product is at most the product of the square sums, for all vectors of equal length |
| `Vectors.CosineSimilarity` | src/modules/rag/utils/vector.util.ts:5-30 | zero for empty, unequal or zero vectors, else the exact quotient: the clamp changes nothing over the reals |
| `Vectors.DotProduct` | src/modules/rag/utils/vector.util.ts:35-45 | the dot product, or zero for unequal lengths |
| `Vectors.DotOfParts` | src/modules/rag/utils/vector.util.ts:35-45 | the dot product of vectors put together is the sum of the parts', down to single products |
| `Vectors.ParallelVectorsMeetBound` | src/modules/rag/utils/vector.util.ts:5-30 | parallel vectors reach the bound |

## Left out

- AuditLog.ActivityService.VerifyAuditChainIntegrity: the `details` text, and the order of rows with equal createdAt, which the queries leave open.
- AuditLog.ActivityService.LogActivity: metadata other than `_security` is one opaque string, and `chainedAt` is not kept.
- Base32.Decode: toUpperCase is modelled on ASCII letters only.
- Totp.SecretRoundTrip: the otpauth URI is not modelled.
- Bloom.BloomFilter.Add: the floating-point sizing of the filter is replaced by size >= 1024 and 1 <= hashCount <= 16.
- Revocation.LogoutIsFinal: for tokens with an exp and a logout that reached Redis; what becomes of the others is in Revocation.NeverAcceptedIff. The session part of logout is in Sessions.
- RateLimit.BurstBound: for one key, whose name is not modelled, and without Redis errors, which bypass the limiter.
- Agent.RunAgent: the texts of prompts and refusals are shortened or kept as what they are made from, the sanitizer and the result of the retrieval are parameters, and error messages of the model are not kept.
- Organizations.EveryRunKeepsInv: one service call is one step, also where the service checks outside the transaction; InterleavedInvitations says what that means for inviting. Addresses are held normalized; names, slugs and emails sent are not modelled.
- Sessions.TokensAreSingleUse: one call is one step; InterleavedSessions splits the refresh.
- Cleanups.CleanupService.CleanupExpiredAndRevokedSessions: no other writer during the run; the job dispatcher is not modelled.
- Chunker.ChunkText: asks that the loop ends on the text, since a method must; for which sizes it always does is Chunker.LoopEndsIff.
- RagIndex.EveryRunMeetsExpected: of the rows between a statement that threw and the next call that succeeds only RagIndex.RowsComeFromCalls speaks.
- RagIndex.RagRepository.UpsertChunk: row ids and timestamps are not kept.
- CacheKeys.StarMatchesPrefix: character classes in patterns are not modelled; no pattern built here holds one.
- ProjectKeys.ExtractedKeyHasShape: toUpperCase is modelled on ASCII letters only.
- ProjectServices.CacheService.GetOrSet: the change of dates to strings in cached JSON is not modelled.
- ProjectServices.CacheService.DelByPattern: deletions that Redis refuses are in InterleavedProjects, as deletions that never come; there a scan is one step.
- Projects.CacheIsTransparent: one call is one step, InterleavedProjects splits them; `_count` and `createdBy` are not part of a project, and the code does not keep them in step with the cache; names and descriptions are given trimmed.
- Vectors.CosineSimilarity: over the reals, without rounding.
- Organization and user-organization cache entries, whose invalidation is spread over other services.
- Express routing, schemas, network clients, queues, sockets, file storage, teams, meetings, tasks, comments and dashboards.
- Retrieval, ranking and listing of indexed chunks, and batch indexing, which only repeats indexEntity.

# BF Agent Viewer: the tamper-evident log and the machines that write to it

BF Agent Viewer records what AI agents do through an MCP gateway in a SQLite event log whose
rows are hash-chained, lets old rows be pruned, signs the chain's tip into a separate file, and
controls agents by bearer tokens, delegated scopes, rate limits and a kill switch. This project
models that log and the state machines around it and proves what they promise, for every input
and every run.

Verify with `dafny verify dfyconfig.toml` (Dafny 4.11).

## How it is laid out

Each component has its logic as functions on values, with the theorems about them, and, where
the program changes state in place, a class whose methods are proved to do exactly what those
functions say.

| File | Content |
|---|---|
| `Json.dfy`, `TextOrder.dfy` | the JSON text that is hashed, with a parser that inverts it; text order and timestamps |
| `SplitText.dfy` | where a hashed text comes apart, whatever stands for the previous hash |
| `EventChain.dfy` | what is hashed for a row, valid chains, and what the hash at the end of a chain determines |
| `EventStore.dfy` | the event table: appending, replaying, pruning, gap markers (class `EventTable`) |
| `Anchor.dfy` | the signed checkpoint file and its check against the table (class `AnchorFile`) |
| `SortedKeys.dfy` | the hashed objects have their keys in sorted order |
| `AuditTrail.dfy`, `AuditLimits.dfy` | writers, gap markers, prunes and checkpoints interleaved, as a state machine; short runs on which its checks fail |
| `TokenBucket.dfy` | the rate limiter (class `TokenBucketLimiter`) |
| `Registry.dfy`, `RegistryTables.dfy` | agents, identities and credentials (class `IdentityTables`) |
| `Credentials.dfy` | when an issued or renewed credential is good, and until when |
| `AuditReplay.dfy`, `AuditSpelling.dfy` | what the log tells of credentials, and in what order |
| `Delegation.dfy` | scope, ancestry and organization of identities |
| `DelegationTree.dfy`, `DelegationViews.dfy` | the console's two delegation views, alone and over runs |
| `Gateway.dfy`, `GatewayMiddleware.dfy` | the gateway's calls and batches as a state machine, and in place (class `Middleware`) |
| `Conservation.dfy`, `Discovery.dfy`, `CallRate.dfy`, `KillSwitch.dfy`, `GatewayOrgs.dfy` | its rows, its discoveries, its rate, its cached credentials and its organization, over runs |
| `Lockout.dfy`, `ConsoleAuth.dfy`, `ConsoleLimits.dfy`, `ConsoleTables.dfy` | console login (class `LoginTables`) |

## What is assumed

- SHA-256 is a parameter `H` of which only the shape of a digest, 64 hex characters, is assumed.
  No result says that it has no collisions, which no such function could meet. A result that needs
  it names the two finite sets of hashed texts among which a collision would lie.
- Ed25519 signing and checking are parameters. A signature is called forged when it checks out
  for a hash that the honest writer never had signed.
- The password and one-time-code checks are parameters; random tokens and ids are values a step
  is given, fresh where a theorem says so. The fingerprint of a token is a parameter, and the
  audit theorem asks for no two tokens of one fingerprint.
- Times are whole seconds on one clock, reals in the rate limiter. Whoever needs the clock not
  to run back says so in its `requires`.
- Steps are as fine as the program's own atomicity: a writer's lock, tip read, insert and
  commit are separate steps; the reading and writing halves of prunes, gap markers and signed
  checkpoints are separate, with any number of each in flight; a tool call is two steps around
  its await, and a batch logs one row a step, with other processes' operations between any two.
  Each registry operation is a single step, except where a renewal is split on purpose.
- The runs of `AuditTrail` are those in which a second half runs only where what its first half
  read still holds. `AuditTrail.CommitKeepsIffFits`, `AuditTrail.MarkerKeepsIff` and
  `AuditTrail.AppendKeepsIff` show that this is exactly what keeps the log and the file, and with
  `AuditLimits.MisfitShows` what a second half does that runs elsewhere. A prune always fits when
  no other has committed since it read (`AuditTrail.UndisturbedFits`).
- A gateway may start on any tables, with any log. Its theorems are about the rows it adds.

## Where the code and its own documentation part

Where hashes are involved each statement holds up to a collision among the texts hashed.

- `verify_chain` replays in `created_at` order while writers chain in `rowid` order. On an
  untouched table it succeeds if and only if `created_at` never decreases with `rowid`
  (`AuditTrail.VerifiesIffClockOrdered`), so a clock set back between two inserts is reported as
  tampering (`AuditLimits.SteppedBackClockRejected` is the shortest such run).
- `verify_against_events` is said to accept an unaltered log. It fails on one once the prune has
  reached the anchored row (`AuditTrail.AcceptsIff` gives the exact condition,
  `AuditLimits.PrunedAnchorRejected` a run).
- Deleting entries from the end of the checkpoint file is not detected. Every other change to
  what is recorded is, but a signature may be replaced by another that also checks out
  (`Anchor.ValidFilesArePrefixes`).
- A prune may commit after another one has. Its commit keeps the log if and only if the last row
  it read is still there under its rowid, or was the last one pruned and it has nothing to delete
  (`AuditTrail.CommitKeepsIffFits`). Otherwise, if rows are left, replay reports tampering
  (`AuditLimits.ShorterScanBreaksReplay` is such a run), and if none are, events it never read
  are gone and the tip goes back (`AuditLimits.SecondPruneLosesAnEvent`).
- A gap marker is to become "part of the chain those later reads see, not a fork off to the
  side" (`gateway/resilience.py:59-62`). It reads the tip without a lock, and keeps the chain if
  and only if that is still the tip when it is inserted (`AuditTrail.MarkerKeepsIff`;
  `AuditLimits.StaleMarkerBreaksReplay` is a run in which it is not).
- Writing a checkpoint is "safe to call repeatedly" (`integrity/checkpoint.py:214-216`). Two at
  once are not: the file is kept if and only if nothing was appended since the writer read it
  (`AuditTrail.AppendKeepsIff`; `AuditLimits.SecondSignerBreaksFile` is such a run).
- Replaying a credential's rows gives its status and expiry however renewals are split, but the
  rows spell issued, renewed*, revoked? exactly when no late half of a renewal finds the
  credential revoked: it writes its row all the same (`AuditSpelling.SpelledIff`;
  `AuditSpelling.RevokedThenRenewed` is such a run).
- "Renewal must not be able to resurrect a credential": a dead credential comes back exactly by
  the late half of a split renewal of its own that finds it unrevoked and reaches past the clock
  (`Registry.StaysDeadIff`; `Registry.SplitRenewalRevives` is such a run).
- "Delegation should never produce a cycle" holds for registrations under fresh ids. Under a
  reused id a cycle closes exactly when the id is the parent or one of its ancestors
  (`Delegation.RegisterAcyclicIff`, `Delegation.SelfParentAccepted`).
- "Delegation must only narrow authority" holds for registrations under fresh ids. Registering
  or claiming anew narrows all links exactly when the children of that id fit under its new
  scope, which is not checked (`Delegation.RegisterNarrowsIff`, `Delegation.ClaimNarrowsIff`,
  `Delegation.NarrowedParentAccepted`).
- Delegation is meant to stay within an organization (`identity/registry.py:207-212`). Under
  reused ids it does exactly when the other links of the registered identity and agent end in the
  same organization (`Delegation.RegisterInOrgIff`, `Delegation.ClaimInOrgIff`,
  `Delegation.MovedAgentAccepted`).
- An account "cannot log in to a real session until" its code was enrolled
  (`console/auth.py:102-104`). A code check opens a session without that exactly when it is made
  by `complete_login` (`ConsoleLimits.OpensUnenrolledIff`, and
  `ConsoleLimits.EnrollmentCanBeSkipped` for a run).
- The result shown for an event (`docs/features.md:32`) is right on the gateway's own
  `tool.called` rows exactly when no call failed: they carry the default result
  (`Conservation.ResultsRightIff`, `Conservation.FailureReadsAsSuccess`).
- An organization's events are meant to be filed under its own agents
  (`gateway/middleware.py:222-231`). A call is, at the moment it is filed, exactly when the
  identity it resolved to still has its agent in the organization, or, without one, no other
  organization holds the id discovery gives it (`GatewayOrgs.CallsFiledInOrgIff`,
  `GatewayOrgs.ReportsFiledInOrgIff`). `GatewayOrgs.MovedAgentMisfiles` is a run that fails the
  first, registering the agent elsewhere while its token is cached, and
  `GatewayOrgs.SharedIdMisfiles` one that fails the second. Where registering moves no agent,
  only the second can fail, and what is filed right stays so (`GatewayOrgs.CallsStayInOrgIff`,
  `GatewayOrgs.ReportsStayInOrgIff`).

## Model

| member | source | states |
|---|---|---|
| Json.LoadsDumps | bf_agent_viewer/events/log.py:71-73 | parsing the JSON text of a payload gives the payload back: nulls, numbers, escapes and surrogate pairs included |
| Json.DumpsInjective | bf_agent_viewer/events/log.py:71-73 | two payloads have the same JSON text if and only if they are equal |
| Json.StringRoundTrip | bf_agent_viewer/events/log.py:73 | an escaped string is read back exactly, whatever text follows its closing quote |
| Json.DumpsIsAscii | bf_agent_viewer/events/log.py:73 | the text is printable ASCII, whatever characters the strings hold |
| Json.DumpsAppend | bf_agent_viewer/events/log.py:73 | a member more is written after the others, with a comma and a space between members and a colon and a space after a key |
| SplitText.ObjectMarkedOnce | bf_agent_viewer/events/log.py:73 | the JSON text of an object whose first key starts with an `a` holds its own first three characters nowhere else |
| SplitText.SplitAtLastMark | bf_agent_viewer/events/log.py:73 | so any string in front of such a text can be told from it |
| TextOrder.StampOrder | bf_agent_viewer/retention/prune.py:73-76 | fixed-width timestamps compare as text exactly as they compare in time |
| TextOrder.PadOrder | bf_agent_viewer/identity/registry.py:37-38 | zero-padded fields of equal width compare as text like their numbers |
| SortedKeys.V1Sorted | bf_agent_viewer/events/log.py:73 | the keys hashed for a v1 row are in strictly increasing text order |
| SortedKeys.V2Sorted | bf_agent_viewer/events/log.py:73 | and those for a v2 row |
| SortedKeys.CheckpointSorted | bf_agent_viewer/integrity/checkpoint.py:161 | and those for a checkpoint |
| EventStore.StaleInTime | bf_agent_viewer/retention/prune.py:110 | a row is stale, by text, exactly when it is earlier than the cutoff in time |
| EventChain.PayloadV1Columns | bf_agent_viewer/events/log.py:48-52 | a v1 row is hashed with these six columns under their own keys and no other |
| EventChain.PayloadV2Columns | bf_agent_viewer/events/log.py:55-68 | a v2 row with these fifteen columns and its version |
| EventChain.ChainTextInjective | bf_agent_viewer/events/log.py:71-73 | the hashed text fixes the previous hash, whatever string it is, the version and the covered columns, and nothing less |
| EventChain.ChainSuffix | bf_agent_viewer/events/log.py:172-180 | a valid chain cut anywhere is valid from the hash before the cut, with the same tip |
| EventChain.LinkDetermined | bf_agent_viewer/events/log.py:196-198 | two valid links with one hash have the same previous hash and covered columns, or their texts are different texts with one hash |
| EventChain.TipDeterminesSuffix | bf_agent_viewer/events/log.py:189-199 | of two valid chains with the same tip, from any start hashes, one is the end of the other on all covered columns, or two texts hashed for them collide |
| EventChain.TipDeterminesHistory | bf_agent_viewer/events/log.py:189-199 | two histories from GENESIS with the same tip agree row by row on all covered columns, or two texts hashed for them collide |
| EventChain.TipsDistinct | bf_agent_viewer/events/log.py:196-198 | without collisions no hash occurs twice along a history, the start included |
| EventStore.ReplayOrderSorts | bf_agent_viewer/events/log.py:181-186 | replay visits each row of the table once, by created_at |
| EventStore.ReplayOrderIdentity | bf_agent_viewer/events/log.py:181-186 | replay order is rowid order if and only if created_at never decreases with rowid |
| EventStore.ReplayBreaksTies | bf_agent_viewer/events/log.py:181-186 | rows of one created_at are replayed by rowid |
| EventStore.ReplayAcceptsIff | bf_agent_viewer/events/log.py:189-199 | a table is accepted if and only if every row in replay order has version v1 or v2 and the hash of the hash before it followed by the JSON text of that version's columns |
| EventStore.OldRowsStillVerify | bf_agent_viewer/events/log.py:40-45 | a chained table of v1 rows, with any number of v2 rows after them, is accepted |
| EventStore.OtherVersionsRejected | bf_agent_viewer/events/log.py:194-195 | a table with a row of any other version is not |
| EventStore.StalePrefixLongest | bf_agent_viewer/retention/prune.py:106-114 | the pruned rows are the longest prefix older than the cutoff: all of them stale, the next one fresh |
| EventStore.DeleteThroughPrefix | bf_agent_viewer/retention/prune.py:128 | deleting up to the recorded rowid removes exactly the counted prefix |
| EventStore.PruneRecords | bf_agent_viewer/retention/prune.py:109-127 | a prune records the id, time and hash of the last row it deletes and the number it deletes |
| EventStore.PruneComposes | bf_agent_viewer/retention/prune.py:102-131 | two prunes, in either order of cutoffs, leave the rows and effective start hash of one prune at the later cutoff |
| EventStore.EventTable.ReadLastHash | bf_agent_viewer/events/log.py:91-108 | the hash of the last row, else of the latest prune, else the text GENESIS |
| EventStore.EventTable.LogEvent | bf_agent_viewer/events/log.py:141-169 | appends one v2 row under the next rowid, with the hash of the given or current tip followed by the JSON text of its sixteen members; the returned hash is the new tip |
| EventStore.EventTable.VerifyChain | bf_agent_viewer/events/log.py:172-199 | true exactly if every row in replay order is v1 or v2 and has the hash of the hash before it and the JSON text of its columns; otherwise names the first row that breaks this, all before it being valid |
| EventStore.EventTable.ScanPrune | bf_agent_viewer/retention/prune.py:102-119 | the reading half finds the last rowid of the longest stale prefix, its tip and its length |
| EventStore.EventTable.PruneEvents | bf_agent_viewer/retention/prune.py:100-131 | the prefix is removed and its tip recorded; the count and tip returned are those of the removed rows |
| EventStore.EventTable.CheckAndLogGap | bf_agent_viewer/gateway/resilience.py:68-116 | appends a marker chained to the tip exactly when there is a last event and it is old enough; otherwise changes nothing |
| Anchor.CheckpointTextInjective | bf_agent_viewer/integrity/checkpoint.py:160-181 | the hashed text of a checkpoint fixes all five of its payload fields |
| Anchor.CheckpointColumns | bf_agent_viewer/integrity/checkpoint.py:174-181 | a checkpoint is hashed with these five fields under their own keys and no other |
| Anchor.WritingExtends | bf_agent_viewer/integrity/checkpoint.py:220-246 | writing keeps the file numbered from 0, chained, hashed and signed |
| Anchor.FileAcceptsIff | bf_agent_viewer/integrity/checkpoint.py:268-288 | a file passes if and only if every entry names the hash of the one before, the first the text GENESIS_CHECKPOINT, has the hash of its own text and carries a good signature on it |
| Anchor.NextEntry | bf_agent_viewer/integrity/checkpoint.py:273-287 | an entry that passes after the first i written ones is the next one written, without forgery or collision |
| Anchor.PrefixIsValid | bf_agent_viewer/integrity/checkpoint.py:254-288 | every prefix of what was written passes, so truncation goes unseen |
| Anchor.ValidFilesArePrefixes | bf_agent_viewer/integrity/checkpoint.py:268-288 | the files that pass are exactly the prefixes of what was written, unless a signature is forged or two texts collide |
| Anchor.AnchorSound | bf_agent_viewer/integrity/checkpoint.py:328-348 | a table that replays and holds a row with the signed tip, cut after it, is the end of the honest history on all covered columns, or texts collide |
| Anchor.AnchorFile.WriteCheckpoint | bf_agent_viewer/integrity/checkpoint.py:207-251 | appends one entry: numbered one after the last, naming its hash, with the number of rows in the table, the hash of the last of them or else the start hash, and its own hash, signed; a well-written file stays so |
| Anchor.AnchorFile.VerifyFile | bf_agent_viewer/integrity/checkpoint.py:254-288 | true exactly when every entry follows the one before, hashes to its record and carries a good signature |
| Anchor.AnchorFile.VerifyAgainstEvents | bf_agent_viewer/integrity/checkpoint.py:291-348 | true exactly when the file is valid and is empty, or the table replays and the latest tip is GENESIS or in it |
| AuditTrail.StepKeeps | bf_agent_viewer/events/log.py:141-169 | every step of writers, markers, prunes and checkpoints whose reads still hold keeps the table the unpruned end of one chain from GENESIS, every tip in hand current, what each prune or checkpoint in flight read true of the history and the file, every checkpoint a true tip |
| AuditTrail.CommitKeepsIffFits | bf_agent_viewer/retention/prune.py:102-129 | however many prunes are in flight, a commit keeps the table the unpruned end of the history if and only if its last row is still there, or was the last pruned and nothing is left to delete; that is, the rows pruned by then are those up to the last one it read; or texts collide |
| AuditTrail.UndisturbedFits | bf_agent_viewer/retention/prune.py:102-129 | a prune fits whenever no other committed since it read, so one at a time always does |
| AuditTrail.MarkerKeepsIff | bf_agent_viewer/gateway/resilience.py:88-101 | whatever was committed since its tip was read, a gap marker leaves a chain if and only if that is still the tip; otherwise replay of a clock-ordered table fails, or the marker's two texts collide |
| AuditTrail.AppendKeepsIff | bf_agent_viewer/integrity/checkpoint.py:220-246 | however many writers share the file, appending keeps it well written if and only if nothing was appended since its writer read it; otherwise the file fails its check, or checkpoint texts collide |
| AuditTrail.CheckpointsCountTheTable | bf_agent_viewer/integrity/checkpoint.py:224-234 | in every run each entry of the file counts the rows the history had when it was read, less those pruned by then |
| AuditTrail.EveryRunKeepsTheLog | bf_agent_viewer/events/log.py:91-108 | in every interleaving, with second halves whose reads still hold, from any valid log, v1 rows included, the tip read is that of the whole history even when the table is emptied, and replay succeeds if created_at follows rowid |
| AuditTrail.VerifiesIffClockOrdered | bf_agent_viewer/events/log.py:181-199 | on tables of honest runs replay succeeds if created_at never decreases with rowid, and only then unless hashed texts collide |
| AuditTrail.AcceptsIff | bf_agent_viewer/integrity/checkpoint.py:320-348 | on honest runs the anchor check accepts if there is no checkpoint, or created_at follows rowid and the anchored tip is GENESIS or its row is not pruned; and only then unless hashed texts collide |
| AuditTrail.AcceptedTableIsHonest | bf_agent_viewer/integrity/checkpoint.py:291-348 | any table, whatever its start hash, and any file put in place after an honest run: if accepted, the table cut at the anchored row is the end of the honest history up to that checkpoint, or there is a forgery or a collision |
| AuditLimits.PrunedAnchorRejected | bf_agent_viewer/integrity/checkpoint.py:338-347 | a run of one event, logged, anchored and pruned, on which replay succeeds and the anchor check fails |
| AuditLimits.SteppedBackClockRejected | bf_agent_viewer/events/log.py:181-199 | a run of two events with the clock set back between them, on which replay fails unless two different texts share a hash |
| AuditLimits.MisfitShows | bf_agent_viewer/retention/prune.py:121-129 | a commit that does not fit makes replay fail if it leaves rows, and otherwise puts the tip back before the last event; or texts collide |
| AuditLimits.SecondPruneLosesAnEvent | bf_agent_viewer/retention/prune.py:102-129 | a run in which the second of two prunes deletes an event it never read, and replay succeeds |
| AuditLimits.ShorterScanBreaksReplay | bf_agent_viewer/retention/prune.py:102-129 | a run in which the prune that read less commits last, and replay fails unless texts collide |
| AuditLimits.StaleMarkerBreaksReplay | bf_agent_viewer/gateway/resilience.py:88-101 | a run in which an event is committed between a marker's read and its insert, and replay fails unless texts collide |
| AuditLimits.SecondSignerBreaksFile | bf_agent_viewer/integrity/checkpoint.py:220-246 | a run in which two writers read the file and both append, and the file fails its check |
| TokenBucket.StepExact | bf_agent_viewer/ratelimit/token_bucket.py:43-57 | a call is accepted if and only if from every call up to it the cost accepted since, plus its own, is at most burst plus rate times elapsed; the bucket left reflects all calls |
| TokenBucket.RunBound | bf_agent_viewer/ratelimit/token_bucket.py:50-57 | accepted cost over any run of calls ending in an accepted one is at most burst plus rate times its duration, times in any order |
| TokenBucket.WindowBound | bf_agent_viewer/ratelimit/token_bucket.py:30-35 | calls at most a span after the first of them have at most burst plus rate times the span accepted |
| TokenBucket.ClockBound | bf_agent_viewer/ratelimit/token_bucket.py:43-57 | calls in any order: at most burst plus rate times the span with times within a span are accepted |
| TokenBucket.SpentIsTheCount | bf_agent_viewer/ratelimit/token_bucket.py:53-56 | at the default cost of 1 the cost accepted over a run of calls is the number of them accepted |
| TokenBucket.RoomDecides | bf_agent_viewer/ratelimit/token_bucket.py:50-57 | comparing the refilled level with the cost decides exactly whether the call fits |
| TokenBucket.RoomAfter | bf_agent_viewer/ratelimit/token_bucket.py:51-56 | after the decision the level is again the least room left since any call |
| TokenBucket.TokenBucketLimiter.Allow | bf_agent_viewer/ratelimit/token_bucket.py:38-57 | the answer is whether the call fits among the agent's own calls; the agent's bucket, full if new, is refilled by rate times the time elapsed up to the burst and loses the cost of an accepted call; other buckets are left alone |
| TokenBucket.TokenBucketLimiter.Remaining | bf_agent_viewer/ratelimit/token_bucket.py:59-62 | the burst for a new agent, else the room left as of the agent's last call |
| Registry.StaysDeadIff | bf_agent_viewer/identity/registry.py:139-179 | over any run on a clock that does not run back, a dead credential is dead after every operation if and only if none is the late half of a renewal of its own that finds it unrevoked and reaches past the clock |
| Registry.RevokedStaysDead | bf_agent_viewer/identity/registry.py:171-179 | after any operations, split renewals included, a revoked credential is never loaded |
| Registry.ExpiredStaysDead | bf_agent_viewer/identity/registry.py:147-149 | once expired by a clock that does not run back, a credential is never loaded at any later time unless a late renewal of its own revives it; other renewals may be split at will |
| Registry.SplitRenewalRevives | bf_agent_viewer/identity/registry.py:139-151 | a run from empty tables in which a renewal reads before the expiry and writes after it, and the expired token is loadable |
| RegistryTables.IdentityTables.LogCredentialEvent | bf_agent_viewer/identity/registry.py:48-73 | logs the credential's agent, fingerprint and expiry; nothing when the agent does not exist |
| RegistryTables.IdentityTables.IssueToken | bf_agent_viewer/identity/registry.py:109-120 | stores an active credential with its expiry and logs it; a token in use is refused |
| RegistryTables.IdentityTables.RenewToken | bf_agent_viewer/identity/registry.py:139-155 | exactly for an active, unexpired credential stores, logs and answers the one new expiry, now plus the time to live; otherwise nothing changes |
| RegistryTables.IdentityTables.RevokeToken | bf_agent_viewer/identity/registry.py:170-179 | revokes and logs exactly an active credential; otherwise nothing changes |
| RegistryTables.IdentityTables.RegisterIdentity | bf_agent_viewer/identity/registry.py:206-266 | registers exactly when the parent is in the organization with a scope at least as wide and the owner is in it; else nothing changes |
| RegistryTables.IdentityTables.DiscoverAgent | bf_agent_viewer/identity/discovery.py:84-94 | adds an unclaimed agent on first sighting, and says whether it was the first |
| RegistryTables.IdentityTables.ClaimDiscoveredAgent | bf_agent_viewer/identity/discovery.py:122-175 | gives an unclaimed agent of the organization an owner in it and an identity without a parent; else nothing changes |
| RegistryTables.IdentityTables.LoadTokenRegistry | bf_agent_viewer/identity/registry.py:342-365 | holds exactly the active, unexpired tokens of agents of the organization with an identity, each with such an identity |
| Credentials.IssuedIsLive | bf_agent_viewer/identity/registry.py:109-120 | after an issue the token of an agent with an identity in the organization can be loaded at exactly the times before now plus its time to live, or at all times without one; the row logged carries that expiry |
| Credentials.RenewedIsLive | bf_agent_viewer/identity/registry.py:139-155 | after a renewal while active and unexpired, at exactly the times before now plus the new time to live; the row logged carries that expiry |
| Credentials.RevokedIsDead | bf_agent_viewer/identity/registry.py:170-179 | after a revocation at none, and every other token exactly as before |
| Credentials.LiveUntilExpiry | bf_agent_viewer/identity/registry.py:342-351 | through any run of operations on other tokens, agents and identities a credential can be loaded at exactly the times before its expiry |
| AuditReplay.StepKeeps | bf_agent_viewer/identity/registry.py:48-73 | every operation, late halves of renewals included, keeps the log telling each audited credential's status and expiry, without a fingerprint clash |
| AuditReplay.LogTellsEveryCredential | bf_agent_viewer/identity/registry.py:109-179 | in every run, however renewals are split, replaying the rows of any credential issued to an existing agent gives its status and expiry |
| AuditSpelling.SpellStep | bf_agent_viewer/identity/registry.py:139-179 | every operation keeps an audited credential's rows spelling its life unless a late renewal finds it revoked, and then no row mends it |
| AuditSpelling.SpelledIff | bf_agent_viewer/identity/registry.py:109-179 | the rows of a credential issued to an existing agent spell issued, renewed*, revoked? if and only if no late half of a renewal of its own found it revoked; else the revocation has rows after it |
| AuditSpelling.RevokedThenRenewed | bf_agent_viewer/identity/registry.py:139-155 | a run whose rows read issued, revoked, renewed |
| Delegation.StepKeeps | bf_agent_viewer/identity/registry.py:206-265 | every operation under fresh ids keeps parents older and wider in scope, organizations and owners together, and one identity an agent |
| Delegation.DelegationNarrows | bf_agent_viewer/identity/registry.py:206-265 | in every run with fresh ids no identity is its own ancestor, its scope is within every ancestor's, and agents and owners along the chain are in one organization |
| Delegation.RegisterAcyclicIff | bf_agent_viewer/identity/registry.py:248-264 | from an acyclic table a registration closes a cycle exactly when it reuses the id of the parent or of one of its ancestors |
| Delegation.SelfParentAccepted | bf_agent_viewer/identity/registry.py:213-229 | an identity registered anew under its own id with itself as parent is accepted and is a cycle |
| Delegation.RegisterNarrowsIff | bf_agent_viewer/identity/registry.py:224-229 | scopes go on narrowing along all links after a registration exactly when the children of the registered id fit under its new scope |
| Delegation.NarrowedParentAccepted | bf_agent_viewer/identity/registry.py:248-264 | a parent registered anew with a narrower scope is accepted and leaves its child a wider one |
| Delegation.ClaimNarrowsIff | bf_agent_viewer/identity/discovery.py:165-173 | after a claim the same, for the children of the identity the agent's id names |
| Delegation.RegisterInOrgIff | bf_agent_viewer/identity/registry.py:206-264 | links go on joining agents of one organization after a registration exactly when every other link of the registered identity and agent ends in it |
| Delegation.ClaimInOrgIff | bf_agent_viewer/identity/discovery.py:155-173 | after a claim the same |
| Delegation.MovedAgentAccepted | bf_agent_viewer/identity/registry.py:251-256 | an agent registered anew elsewhere takes one end of its child's link with it |
| DelegationTree.AncestorChain | bf_agent_viewer/console/queries.py:191-218 | the loop ends on every table and returns the agents the climb meets, root first, at most 20 |
| DelegationTree.ClimbMeetsOnce | bf_agent_viewer/console/queries.py:212-213 | on every table, cyclic ones included, a climb meets no agent twice |
| DelegationTree.ClimbStaysInOrg | bf_agent_viewer/console/queries.py:195-211 | and none of another organization than the one asked for |
| DelegationTree.ClimbFollowsParents | bf_agent_viewer/console/queries.py:191-218 | on every table the k-th agent met is that of the k-th identity up the parent links, and the climb stops before its cap only at an identity that is missing, filtered out or of an agent already met |
| DelegationTree.TreeShowsWays | bf_agent_viewer/console/queries.py:221-272 | on every table b is at depth d of the tree under a if and only if d is at most 20 and d delegations within the filter lead down from a to b without passing an agent twice before b |
| DelegationTree.SiblingsInNameOrder | bf_agent_viewer/console/queries.py:248-257 | on every table no agent is shown twice under one node, at any level, and those under one node are in the order of their names |
| DelegationTree.WalksAreBounded | bf_agent_viewer/console/queries.py:238-239 | on every table the tree is no deeper than its cap and shows only agents that many delegations below its root, in the organization asked for |
| DelegationTree.ClimbShows | bf_agent_viewer/console/queries.py:191-218 | on a sound table the climb meets at distance d exactly the agent d delegations above, up to the cap |
| DelegationTree.UnfoldShows | bf_agent_viewer/console/queries.py:238-272 | on a sound table the tree shows at depth d exactly the agents d delegations below, up to the cap |
| DelegationTree.ViewsAreDual | bf_agent_viewer/console/queries.py:176-272 | for an agent b the organization filter lets through, a is at distance d in b's ancestor chain if and only if b is at depth d in the tree under a, for exactly d up to 20 |
| DelegationViews.KeptIsSound | bf_agent_viewer/console/queries.py:186-190 | tables kept by the identity operations under fresh ids are sound: no agent is above itself, one identity an agent, no delegation out of an organization |
| DelegationViews.ViewsShowDelegation | bf_agent_viewer/console/queries.py:176-272 | after every run with fresh ids both views, under any organization filter that lets b through, show up to 20 exactly the d-th parent link between the two agents' identities |
| Conservation.StepKeeps | bf_agent_viewer/gateway/middleware.py:192-412 | every step of calls, batches and other processes keeps the rows added to the log equal to what was admitted, denied, answered, discovered and reported |
| Conservation.EveryRunConserves | bf_agent_viewer/gateway/middleware.py:192-412 | on whatever log the gateway starts, its new tool.called rows are the answered calls in order, each with its own accepted entry with the limiter and in scope or tokenless where none is required; one row a denial; no second discovery row for an agent; batches whole and in order |
| Discovery.DiscoveryRowsAreArrivals | bf_agent_viewer/gateway/middleware.py:266-301 | in every run the new discovery rows are, in order, those of the agents that tool calls and batches of this gateway brought into the table, each with the path it came by |
| Discovery.DiscoveredExactlyOnce | bf_agent_viewer/identity/discovery.py:84-94 | in every run an agent gets exactly one discovery row if a call or batch brought it into the table, and none if it was there before or another process brought it |
| Discovery.TokenlessIsSeen | bf_agent_viewer/gateway/otel_ingest.py:189-206 | a call without a token, and a batch without one where none is required, leaves its caller in the table |
| Conservation.ResultsRightIff | bf_agent_viewer/gateway/middleware.py:387-411 | the gateway's own rows tell how each call went if and only if none failed |
| Conservation.FailureReadsAsSuccess | bf_agent_viewer/gateway/middleware.py:391-411 | the row of a call whose backend raised says success, in the first two events of any gateway that requires no token and has an unused limiter with a burst of at least 1 |
| CallRate.StepMetered | bf_agent_viewer/gateway/middleware.py:336 | every step keeps the limiter's log conforming and the calls handed on no more than those it accepted, in every span |
| CallRate.CallsWithinRate | bf_agent_viewer/gateway/middleware.py:336-411 | in every run an agent's calls begun within a span of the limiter's clock and handed to the backend, and their tool.called rows, number at most burst plus rate times the span |
| GatewayOrgs.CallsFiledInOrgIff | bf_agent_viewer/gateway/middleware.py:198-280 | in every run, at the moment it is filed, a call's agent is of the gateway's organization exactly when its identity's agent still is, or, without an identity, it was not discovered under an id another organization holds |
| GatewayOrgs.ReportsFiledInOrgIff | bf_agent_viewer/gateway/otel_ingest.py:157-214 | the same for the rows of an accepted batch |
| GatewayOrgs.CallsStayInOrgIff | bf_agent_viewer/gateway/middleware.py:198-280 | where registering moves no agent between organizations only discovery can misfile, and what is filed stays where it is |
| GatewayOrgs.ReportsStayInOrgIff | bf_agent_viewer/gateway/otel_ingest.py:157-214 | the same for reports |
| GatewayOrgs.MovedAgentMisfiles | bf_agent_viewer/identity/registry.py:251-256 | a run in which an agent is registered for another organization while its token is cached, and a call without any discovery is filed under it |
| GatewayOrgs.SharedIdMisfiles | bf_agent_viewer/identity/discovery.py:84-94 | a call without a token is filed under the agent another organization discovered first |
| KillSwitch.KilledWithinInterval | bf_agent_viewer/gateway/middleware.py:128-163 | a request at least one refresh interval after its token was revoked or expired, before or after the gateway started, and not revived by a late renewal of its own, resolves to nothing, gets no further than its rejection row, and logs no report |
| KillSwitch.RevokedWithinInterval | bf_agent_viewer/gateway/middleware.py:128-163 | for a revoked token the same without any proviso |
| KillSwitch.CacheWasLoaded | bf_agent_viewer/gateway/middleware.py:128-138 | the cache is always a load of some earlier table of the run, at the time it is stamped with |
| KillSwitch.ResolvedWasLive | bf_agent_viewer/gateway/middleware.py:185-190 | a request that resolves was entitled to that identity and scope by a table of the run less than a refresh interval before |
| GatewayMiddleware.Middleware.constructor | bf_agent_viewer/gateway/middleware.py:121-138 | on any tables, starts the machine: a load of the registry stamped with its time |
| GatewayMiddleware.Middleware.MaybeRefresh | bf_agent_viewer/gateway/middleware.py:160-163 | reloads and stamps exactly when the interval has passed; else cache and stamp stay |
| GatewayMiddleware.Middleware.ResolveToken | bf_agent_viewer/gateway/middleware.py:185-190 | the identity the cache, refreshed if due, has for a non-empty token |
| GatewayMiddleware.Middleware.SightCaller | bf_agent_viewer/gateway/middleware.py:266-280 | a caller not in the table is added, unclaimed, with one discovery row; for any other nothing changes |
| GatewayMiddleware.Middleware.FileCaller | bf_agent_viewer/gateway/middleware.py:198-280 | files a call under its identity's agent, the token's former holder in this organization, or the caller, which is discovered then and only then |
| GatewayMiddleware.Middleware.Decide | bf_agent_viewer/gateway/middleware.py:281-385 | refused exactly for an unrecognized token or a missing one that is required, then a heartbeat, then limited, then blocked, exactly in that order; the limiter is asked for all others and no heartbeat, and answers by the agent's own calls |
| GatewayMiddleware.Middleware.BeginCall | bf_agent_viewer/gateway/middleware.py:192-385 | everything up to the await is one enabled step of the machine, which records the call, with the agent, outcome, discovery row and denial row each told by the token, the cache and the tables |
| GatewayMiddleware.Middleware.EndCall | bf_agent_viewer/gateway/middleware.py:387-412 | a tool call is logged whether or not the backend raised, a heartbeat only when it did not |
| GatewayMiddleware.RowsTell | bf_agent_viewer/gateway/otel_ingest.py:92-130 | the rows of a batch tell its events one by one: the tool each names, and error exactly for an error type or the status ERROR |
| GatewayMiddleware.Middleware.TranslateAll | bf_agent_viewer/gateway/otel_ingest.py:145-155 | a batch translates exactly when it is not empty and every event is well formed, in order |
| GatewayMiddleware.Middleware.LogReports | bf_agent_viewer/gateway/otel_ingest.py:227-256 | logs one row a report, in order |
| GatewayMiddleware.Middleware.IngestOtelEvents | bf_agent_viewer/gateway/otel_ingest.py:139-258 | 400 for a malformed batch, which changes nothing; 500, for the exception raised, exactly when discovery is reached with a name that is not text, and then only a due refresh has happened; 401 exactly for a refused token; else the route is one enabled step of the machine followed by all its rows, answering 202 or 429 as the limiter does; only 202 logs reports, which tell the events in order |
| Lockout.ChecksAreSpaced | bf_agent_viewer/console/auth.py:148-164 | without a success every fifth wrong check locks and the next one comes 900 seconds later; the lock is where the checks put it |
| Lockout.SixSpanLockout | bf_agent_viewer/console/auth.py:148-164 | six wrong-password checks with no success among them span at least 900 seconds |
| Lockout.LockoutRate | bf_agent_viewer/console/auth.py:148-164 | a window of T seconds holds at most 5 * (1 + T / 900) wrong-password checks |
| Lockout.RepliesArePromised | bf_agent_viewer/console/auth.py:148-171 | whatever attempts are made on a fresh account, successes included, each is shut out for 900 seconds after the attempt that shut the account, else accepted on the right password, else shut as the fifth wrong one in a row, else refused |
| ConsoleAuth.AccountLockoutRate | bf_agent_viewer/console/auth.py:131-179 | the same bound for one account over any run on all accounts, without a success or re-provisioning of it |
| ConsoleAuth.LoginsAnsweredAsPromised | bf_agent_viewer/console/auth.py:148-179 | the same of the statuses logins are answered over any run on all accounts: locked exactly for 900 seconds, or by the fifth wrong password since a success or a lock |
| ConsoleAuth.RightCredentialsGetIn | bf_agent_viewer/console/auth.py:131-304 | on an account not locked the right password, and within 300 seconds an accepted code, give a session that resolves to the human for exactly the next 43200 seconds |
| ConsoleAuth.TooLateForTheCode | bf_agent_viewer/console/auth.py:182-199 | from 300 seconds on no code opens a session |
| ConsoleAuth.ProvisionedAfresh | bf_agent_viewer/console/auth.py:105-119 | provisioning leaves no failures, no lock and no enrolment, and other accounts alone |
| ConsoleAuth.LockOfRun | bf_agent_viewer/console/auth.py:148-171 | an account's lock is that of its own attempts, whatever happens to others |
| ConsoleAuth.FailuresBounded | bf_agent_viewer/console/auth.py:153-157 | the failure counter stays below five |
| ConsoleAuth.StepKeeps | bf_agent_viewer/console/auth.py:97-311 | every operation keeps pending logins granted and unspent, sessions opened rightly and by distinct pending logins |
| ConsoleAuth.GrantsComeFromLogins | bf_agent_viewer/console/auth.py:166-179 | every pending login of a run was issued by a login with the right password on an account not locked |
| ConsoleAuth.SessionsComeFromChecks | bf_agent_viewer/console/auth.py:235-278 | every session of a run was opened by a code check that accepted the code for the human of its pending login |
| ConsoleAuth.SessionsHaveTwoFactors | bf_agent_viewer/console/auth.py:166-311 | a session that resolves comes from its own pending login: right password and accepted code for the same human, less than 300 seconds apart; it is under 12 hours old and not closed |
| ConsoleAuth.OneCodePerLogin | bf_agent_viewer/console/auth.py:182-199 | once a code was checked for a pending login, right or wrong, no code is ever accepted for it again |
| ConsoleLimits.OpensUnenrolledIff | bf_agent_viewer/console/auth.py:235-267 | a code check opens a session on an account not enrolled if and only if it is an accepted `complete_login` and the account is not enrolled at that moment |
| ConsoleLimits.EnrollmentCanBeSkipped | bf_agent_viewer/console/auth.py:256-267 | a run in which an account just provisioned gets a session with its enrolment step left out |
| ConsoleAuth.DestroyedIsFinal | bf_agent_viewer/console/auth.py:295-311 | a session destroyed, or found expired, never resolves again |
| ConsoleTables.LoginTables.ProvisionConsoleUser | bf_agent_viewer/console/auth.py:105-119 | new credentials, not enrolled, with no failures and no lock |
| ConsoleTables.LoginTables.StartLogin | bf_agent_viewer/console/auth.py:131-179 | in every case the status and the account: locked while its lock holds, which changes nothing; failures and lock cleared and a pending login for 300 seconds issued on the right password; one failure more on a wrong one, the fifth locking for 900 seconds |
| ConsoleTables.LoginTables.ConsumePendingLogin | bf_agent_viewer/console/auth.py:182-199 | the row is gone whatever it was; the human exactly if it had not expired |
| ConsoleTables.LoginTables.EnrollTotp | bf_agent_viewer/console/auth.py:235-253 | spends the pending login; on an accepted code enrols the account and opens a session |
| ConsoleTables.LoginTables.CompleteLogin | bf_agent_viewer/console/auth.py:256-267 | spends the pending login; on an accepted code opens a session, enrolled or not |
| ConsoleTables.LoginTables.ResolveSession | bf_agent_viewer/console/auth.py:281-304 | the human of an unexpired session; an expired one is removed |
| ConsoleTables.LoginTables.DestroySession | bf_agent_viewer/console/auth.py:307-311 | the session is removed and counts as closed |

## Left out

- SQLite itself: SQL text, WAL, migrations, a missing `retention_checkpoints` table; tables are sequences in rowid order or maps by key.
- SHA-256, Ed25519, scrypt, RFC 6238 arithmetic, base64 and token randomness: parameters and fresh values.
- Key files, file permissions, `chattr`, default paths and file encodings: operating-system plumbing.
- Checkpoint lines that are not JSON objects with the expected keys and types, and signatures that are not base64: the program raises there; the modelled file holds well-typed entries.
- `sandbox.py`, `server.py`, `cli.py`, `sdk.py`, alert channels and alert rows: process spawning, HTTP, SMTP and argument wiring.
- `console/app.py`, templates, listing and search queries, `reports/export.py`: user interface and plain filters.
- `load_registry` and `resolve` by client name, `client_info_name`, `_slug`: a secondary path; the id discovery gives a caller is a parameter.
- Event metadata, durations, latency, scope observations on reported calls, and the columns `last_seen_at`, `updated_at`, `revoked_at`, agent names, status texts and autonomy tiers: they decide nothing that is proved. In the gateway and registry machines a log row keeps its type, source, agent, tool, result and credential note.
- Float rounding, microseconds and the drift between wall and monotonic clocks.
- A malformed `body` of the ingestion route is one case of an empty or malformed batch.
- Two gateway processes on one database: other processes' registry operations interleave, other gateways' requests do not.
- Foreign keys: the program leaves them off, so an operation may name an agent that does not exist.
- EventStore.EventTable.CheckAndLogGap: runs with nothing between its tip read and its insert; `AuditTrail.MarkerKeepsIff` is about what may come between.
- Anchor.AnchorFile.WriteCheckpoint: runs with nothing between its reads and its append; `AuditTrail.AppendKeepsIff` is about what may come between. The tip and the event count are read at one moment.
- GatewayMiddleware.Middleware.IngestOtelEvents: does not model other processes between the rows of a batch; `Conservation.EveryRunConserves` does.
- AuditTrail.EveryRunKeepsTheLog: covers runs in which second halves run only where their reads still hold; `AuditTrail.CommitKeepsIffFits`, `AuditTrail.MarkerKeepsIff`, `AuditTrail.AppendKeepsIff` and `AuditLimits.MisfitShows` say what others do.
- GatewayOrgs.CallsStayInOrgIff: covers runs in which registering moves no agent to another organization; `GatewayOrgs.CallsFiledInOrgIff` covers all.
- A tool call without a usable token whose asserted client name is not text: the program raises before it files anything.
- Exceptions of the ingestion route other than the one named, as for durations too large to be a float.
- Retention pruning of the rows a gateway logs: its theorems count the rows written.
- `remaining` as anything but the level after the agent's last call: it does not refill.
- ConsoleTables.LoginTables.EnrollTotp: does not model another operation between spending the pending login and opening the session; the two are one step.
- ConsoleTables.LoginTables.CompleteLogin: does not model another operation between spending the pending login and opening the session; the two are one step.
- DelegationTree.ViewsAreDual: does not cover several identities an agent; there the climb follows one identity and the tree all of them, as `DelegationTree.ClimbFollowsParents` and `DelegationTree.TreeShowsWays` say.

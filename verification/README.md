# Morok relay: a verified model

The relay keeps messages for offline recipients, fires Dead Man's Switches, federates groups
with other relays and issues the sessions, tokens and names all of that hangs on. Its state
lives in Redis and in a few SQL tables that many requests and background jobs change at once.

Components with shared state are modelled in three layers over one set of functions:

* a **machine** whose steps are the indivisible ones of the original - a Redis command, a Lua
  script, a MULTI block, a committed SQL statement - with an explicit clock, key expiry and
  crashes, so that a run is any interleaving of any number of requests;
* **theorems over all runs** of the machine, with the history they speak about (check-ins,
  releases, deliveries, answers) recorded in the state;
* a **class** with the loops and updates of the original, each method proved against a function
  of the old state; where a call is several steps, a lemma shows that run alone it is one
  schedule of the machine.

The signing bytes are pure code and modelled as such: a printer, a parser and the message formats.

| component | modules |
|---|---|
| envelope lifecycle | QueueKeys, EnvelopeMachine, EnvelopeView, EnvelopeSafety, AckProtocol, EnvelopeBounds, QueueService, QueueSchedules, QueueContents, EnvelopeIds |
| Dead Man's Switch | DmsRows, DmsMachine, DmsSafety, DmsCounterexamples, DmsService |
| outbound federation | FederationQueue, FederationSchedule, FederationWorker |
| groups across relays | GroupRouting, GroupDelivery, GroupService, GroupSnapshot |
| sessions | SessionKeys, SessionSafety, SessionGuarantees, SessionReach, SessionService |
| usernames | Usernames, UsernameService |
| burner and invite tokens | CappedTokens, TokenService |
| replay guard, rate limits, WebSocket slots | ReplayGuard, RateLimit, FallbackLimiter, WsSlots |
| canonical signing bytes | CanonicalJson, JsonParser, SignedFormats, SignedText |

Public keys, names and tokens are numbers; SHA-256 is injective and Ed25519 symbolic. In every
machine a step that is not enabled changes nothing, so runs need no side conditions beyond the
ones a theorem states. Two kinds recur: `PromptBumps`, `PromptRun`, `Prompt` and `Lively`
bound how long a request may sit between reading the clock and its write; `OrderlyRun`,
`CalmRun`, `UndisturbedRun`, `Lossless` and `NoTear` exclude interleavings that are real: for each there is
a run or a lemma showing what goes wrong and the exact condition under which it does.
`Lossless` means inboxes with room and no torn fan-out; `OrderlyRun` besides bounds the stall
between the two EXPIREs of one verification, which `CalmRun` does not.

## Where the code does less than it says

* The inbox key's lifetime is set, not extended, by every send, though the comment at
  queue.py:507-515 says it only moves forward (`EnvelopeBounds.ShortDmDropsLongMail`,
  `RegistrationKeepsRowIff`).
* The indexed reaper drops a candidate that is still queued from the index; the comment speaks
  of skipping one pass (`ReapPassIff`, `ForgottenBlobStays`).
* A sender's delete between metadata and inbox row orphans the row (`EarlyDeleteOrphansRow`).
* Prompt deletion after the last acknowledgement fails when one of them overtook the pending
  registration (`PromptDeletionIff`).
* An activity bump can move `last_check_in_at` back (`StaleBumpFiresEarly`, `FreshKeptIff`).
* A reaper that dies between the metadata key and the inbox row makes the next pass mark,
  trigger and scrub a switch nobody received (`TornCrashLosesPayload`, `RetryLosesIff`).
* A host that dies between queueing locally and committing its outbound rows answers every
  resend as a duplicate, unless it queued for nobody (`CrashedFanOutStarvesRemotes`,
  `ServedAfterCrashIff`).
* Snapshots are applied in arrival order and never update name, slug or expiry of an existing
  mirror, while the comment promises that the latest wins (`DelayedPushWinsIff`,
  `NameFollowsHostIff`).
* A federation claim held one second too long can lead to an empty envelope being sent
  (`OverstayedClaimSendsScrubbed`); attempts five to eleven cannot succeed for message
  envelopes (`LateRetriesAreRefused`).
* Logout-everywhere races with logins (`LoginDuringLogoutIsHidden`, `SweepKeepsIndexIff`) and
  migrations (`MigrationOutlivesLogout`, `LogoutEndsSessionIff`), a single logout with a migration
  (`LogoutDuringMigrationIsHidden`, `EndUnindexKeepsIndexIff`), a login with a lapsing index
  (`LoginAtLapseIsHidden`, `LapseKeepsIndexIff`).
* The username cooldown races with claims that looked earlier
  (`CheckThenCommitSkipsCooldown`, `LateClaimKeepsCooldownIff`) and with renames
  (`StaleReleaseSkipsCooldown`, `GivenUpRecordedIff`, `AnyClaimKeepsCooldownIff`).
* A signed event accepted at or before its own timestamp can be accepted again when its claim
  key dies (`AtMostOnceIff`).

## Model

| member | source | states |
|---|---|---|
| EnvelopeSafety.UnexpiredRowIsDeliverable | morok_relay/queue.py:454-541 | over every interleaving of sends, acks, deletes, seen-marking, expiry and reaping: an unexpired row in an inbox has its metadata and blob if and only if no delete or full scan undercut its send, and its pending set is absent or still counts that recipient |
| EnvelopeSafety.StepKeeps | morok_relay/queue.py:359-948 | every single step of every operation keeps the lifecycle invariant of every envelope |
| EnvelopeView.HeldIsDeliverable | morok_relay/queue.py:454-541 | the lifecycle invariant of one envelope makes a row held and unexpired deliverable |
| EnvelopeSafety.OnlySenderDeletes | morok_relay/queue.py:966-1051 | over every run a delete that was let through was asked for by the sender of the message and names its addressee, a sealed one by a holder of the key it was sent with |
| EnvelopeSafety.StrangerDeletesNothing | morok_relay/queue.py:966-1051 | at any point of any run a delete request of anybody but the sender, or for anybody but the addressee, has no effect |
| AckProtocol.PendingIsReferenceCount | morok_relay/queue.py:107-124 | without deletes and expiry: inserted recipients = holders + those between row removal and script + answered, disjointly; the pending set is all of them not yet counted; each is answered once; delete now is said at most once, last |
| AckProtocol.BlobOutlivesLastAck | morok_relay/queue.py:907-948 | before delete now the metadata and blob stay, after it metadata and pending set are gone |
| AckProtocol.PromptDeletionIff | morok_relay/queue.py:733-734 | when everyone has acknowledged, the envelope is gone at once if and only if no acknowledgement overtook the pending registration |
| EnvelopeBounds.InboxNeverOverfull | morok_relay/queue.py:73-87 | no inbox ever holds more than 5000 rows, whatever senders run at once |
| EnvelopeBounds.RefusalLeavesNothing | morok_relay/queue.py:494-504 | a refused send leaves no row, metadata, pending set, index entry or tombstone, and a refused DM no blob |
| EnvelopeBounds.EarlyDeleteOrphansRow | morok_relay/queue.py:966-1051 | a run in which the sender's delete lands between metadata and row: the recipient holds an unexpired row without metadata |
| EnvelopeBounds.RowSurvivesIff | morok_relay/queue.py:507-519 | a row lives out its own time if and only if it expires no later than its inbox key |
| EnvelopeBounds.RegistrationKeepsRowIff | morok_relay/queue.py:516-519 | the condition under which registering one envelope keeps another row of the same inbox alive to its end |
| EnvelopeBounds.ShortDmDropsLongMail | morok_relay/queue.py:511-519 | a short-lived DM after long-lived mail sets the inbox key back and the mail is lost unexpired |
| EnvelopeBounds.ReapPassIff | morok_relay/scripts/reaper.py:140-172 | an indexed pass removes a due blob if and only if its metadata is gone, and forgets the candidate either way |
| EnvelopeBounds.ForgottenBlobStays | morok_relay/scripts/reaper.py:148-172 | a candidate forgotten while its metadata lived is never removed through the index again |
| QueueService.RelayStore.RunInboxScript | morok_relay/queue.py:73-87 | prune, count, insert only below the cap |
| QueueService.RelayStore.RunAckScript | morok_relay/queue.py:107-124 | the three results -1, 0, 1 and the keys each leaves |
| QueueService.RelayStore.EnqueueEnvelope | morok_relay/queue.py:454-543 | exactly Enqueue of the old keys: queued, duplicate or refused as DmAnswer says, with the keys of QueuedDmRows and QueuedDmLeaves |
| QueueService.RelayStore.WriteBlobThenEnqueue | morok_relay/queue.py:546-588 | the blob stays exactly if the envelope was not refused |
| QueueService.RelayStore.EnqueueForRecipients | morok_relay/queue.py:671-739 | the fan-out loop in place: exactly FanOut of the old keys, which FanOutRows, FanOutLeaves and FanOutIsOneSchedule say key by key and step by step |
| QueueService.RelayStore.AcknowledgeEnvelope | morok_relay/queue.py:879-948 | row removal, script, and the blob only on the last answer |
| QueueService.RelayStore.DeleteBySender | morok_relay/queue.py:966-1051 | accepted exactly for the sender and addressee recorded in the metadata or, once that is gone, in the tombstone; each refusal by its own condition; what goes and whether a row and metadata were there |
| QueueService.RelayStore.ReapBlobsIndexed | morok_relay/scripts/reaper.py:115-172 | exactly the due candidates leave the index, exactly those without metadata lose their blob; candidates, deleted and still queued are counted |
| QueueService.RelayStore.MarkMailSeen | morok_relay/queue.py:827-876 | exactly the caller's own mail among the first 200 ids is flagged, and counted |
| QueueContents.DmAnswer | morok_relay/queue.py:359-504 | which answer a DM gets: already expired, duplicate, queued, or refused because 5000 unexpired rows wait |
| QueueContents.QueuedDmRows | morok_relay/queue.py:473-519 | a queued DM expires at the earlier of its own time to live and the relay's ceiling; its row is in the one inbox, expired rows of it are gone, no other inbox changes, the inbox key lives on for an hour past the message |
| QueueContents.QueuedDmLeaves | morok_relay/queue.py:454-541 | and under every other key: metadata field by field, its addressee pending, its reaper score, a tombstone a week longer than the message for a signed one, nothing else |
| QueueContents.FanOutRows | morok_relay/queue.py:679-722 | after a group fan-out only recipients hold the message, with its expiry, whoever was skipped has 5000 unexpired rows, no other inbox changes |
| QueueContents.FanOutLeaves | morok_relay/queue.py:692-739 | exactly the recipients whose inbox holds the message are pending; metadata, index and the life of the pending set are the message's own; nothing else changes |
| QueueContents.AckLeaves | morok_relay/queue.py:879-948 | an acknowledgement takes one row; metadata, pending set and blob go if and only if no other recipient is pending |
| QueueContents.ReapLeaves | morok_relay/scripts/reaper.py:115-172 | a pass takes every due score and, of the due blobs, exactly those without metadata |
| QueueContents.SeenLeaves | morok_relay/queue.py:827-876 | exactly the caller's own mail rows among the first 200 ids are flagged, no other field or envelope changes |
| QueueSchedules.InsertAllExact | morok_relay/queue.py:671-700 | who got a row in the fan-out: exactly those holding it afterwards, and whoever was skipped has a full inbox |
| QueueSchedules.FanOutCountsHolders | morok_relay/queue.py:689-739 | the returned count is the number of distinct recipients that hold the envelope |
| QueueSchedules.RejectedDmLeavesStore | morok_relay/queue.py:494-504 | a rejected DM with a fresh id changes nothing but expired rows of its addressee |
| QueueSchedules.DmSendIsOneSchedule | morok_relay/queue.py:546-588 | the whole send run alone is one schedule of the interleaved steps |
| QueueSchedules.FanOutIsOneSchedule | morok_relay/queue.py:671-739 | the whole fan-out alone is one schedule of the interleaved steps: metadata, one run of the script per recipient in order, and the closing block |
| QueueSchedules.AckIsOneSchedule | morok_relay/queue.py:879-948 | the whole acknowledgement run alone is one schedule of the interleaved steps |
| EnvelopeIds.IdIdentifiesMessage | morok_relay/crypto.py:257-269 | within one kind two ids agree if and only if sender, addressee, time and blob do |
| EnvelopeIds.Layout | morok_relay/crypto.py:257-269 | where each field lies in the bytes that are hashed, for DMs, group messages and triggered switches |
| EnvelopeIds.BigEndianReads | morok_relay/crypto.py:257-269 | the timestamp's eight bytes are read back most significant first |
| EnvelopeIds.DirectIsNotGroup | morok_relay/api/groups.py:553-570 | a DM and a group message never share a queue slot |
| EnvelopeIds.DmsSharesSlotIff | morok_relay/scripts/dms_reaper.py:142-147 | the exact condition under which a switch's bare payload spells a DM's slot |
| DmsSafety.PayloadOnlyAfterSilence | morok_relay/scripts/dms_reaper.py:206-290 | a payload handed over by a pass with clock reading now is the one the creator asked for, it went to a recipient asked for, and every check-in committed before is at least as old as the silence asked for, up to the longest a bump dawdled before its UPDATE |
| DmsSafety.NoPayloadUntilSilent | morok_relay/scripts/dms_reaper.py:263-304 | along a run: some Create step of it asked for exactly this trigger, payload and recipient, and any check-in committed at any earlier moment lies that trigger before the clock reading of the pass that hands the payload over, up to the bumps' slack |
| DmsSafety.StepAsked | morok_relay/api/dms.py:209-227 | a step adds a switch only if it is a Create, and the switch then holds what was asked for, column by column, armed, its silence counted from now, nothing delivered; no step changes what was asked |
| DmsSafety.EverySwitchWasAskedFor | morok_relay/api/dms.py:209-227 | every switch of a run goes back to one of its Create steps and keeps that request |
| DmsSafety.GuardSoundIff | morok_relay/scripts/dms_reaper.py:266-269 | the SQL guard proves silence at every time if and only if the column holds the latest check-in |
| DmsSafety.FreshKeptIff | morok_relay/api/dms.py:404-416 | the one event that can lose that is a bump whose captured time is older than the row shows |
| DmsCounterexamples.StaleBumpFiresEarly | morok_relay/deps.py:59-72 | a bump captured before and written after a check-in lets the payload go in the second of that check-in |
| DmsSafety.CancelIsFinal | morok_relay/api/dms.py:375-401 | after a committed cancel or trigger the row never changes and nothing is handed over, whatever earlier passes still do |
| DmsSafety.StatusPayloadMarksAgree | morok_relay/scripts/dms_reaper.py:316-328 | creator, trigger and recipients stay those asked for; ARMED keeps the payload asked for, the others none; TRIGGERED has every recipient marked |
| DmsSafety.MarkedMeansAccepted | morok_relay/scripts/dms_reaper.py:293-304 | unless a crash tears a delivery, a mark means an inbox took the envelope, and TRIGGERED that all did |
| DmsSafety.RetryLosesIff | morok_relay/queue.py:454-465 | a retry marks a recipient nobody delivered to if and only if an earlier pass died in mid-delivery and its metadata key still lives |
| DmsCounterexamples.TornCrashLosesPayload | morok_relay/scripts/dms_reaper.py:181-196 | such a run: triggered, scrubbed, and no inbox ever had the payload |
| DmsSafety.NoSecondCopy | morok_relay/scripts/dms_reaper.py:142-147 | a rerun changes no inbox that still holds an unexpired copy |
| DmsSafety.CommittedPassLeavesDueIff | morok_relay/scripts/dms_reaper.py:263-330 | after a commit the rows still due are those passed over by SKIP LOCKED and those with a failed delivery |
| DmsSafety.QuotaHolds | morok_relay/api/dms.py:184-215 | one creator never has more than 5 armed switches (20 premium), 2 MiB of armed payload (20 MiB) or 5 recipients to a switch (20) |
| DmsSafety.BytesAddUp | morok_relay/api/dms.py:188-197 | the bytes counted are the payloads of armed switches: one switch more or changed moves the sum by exactly its own share |
| DmsRows.EventKeeps | morok_relay/api/dms.py:73-109 | every event, under the row lock discipline, keeps status, times, working copy and keys of a switch in agreement |
| DmsService.PassIsOneSchedule | morok_relay/scripts/dms_reaper.py:290-328 | the nested delivery loop does to a due row what its events run in order do |
| DmsService.NoErrorsIffNoneDue | morok_relay/scripts/dms_reaper.py:306-330 | a pass reports no errors if and only if it leaves no armed row overdue |
| DmsService.Switchboard.CreateSwitch | morok_relay/api/dms.py:148-227 | a switch is added exactly when recipients, count and bytes fit the tier, and it holds creator, trigger, payload and recipients as asked, armed, with the clock as check-in and no mark |
| DmsService.Switchboard.CountActive | morok_relay/api/dms.py:188-197 | the quota query: armed rows of the creator, counted and summed |
| DmsService.Switchboard.CheckIn | morok_relay/api/dms.py:339-365 | refused in strict mode; otherwise only the owner's armed switch is touched, and only its check-in time; each refusal named |
| DmsService.Switchboard.CancelSwitch | morok_relay/api/dms.py:369-401 | only an armed switch with a proof is cancelled, and its payload goes with it; a switch that is over, not found or not proven stays as it is |
| DmsService.Switchboard.BuildAndDeliver | morok_relay/scripts/dms_reaper.py:181-198 | a live key counts as queued, a full inbox leaves neither key nor mark, otherwise both keys live a day and only this recipient is marked |
| DmsService.Switchboard.DeliverRow | morok_relay/scripts/dms_reaper.py:292-328 | one row's loop: the new row, the recipients newly marked and those missing |
| DmsService.Switchboard.FireSwitches | morok_relay/scripts/dms_reaper.py:275-330 | every row moves as specified and the statistics are exact |
| FederationQueue.OneOwnerSendsOriginal | morok_relay/scripts/federation_worker.py:104-143 | if live owners stay within the in-flight timeout: at most one owns the row, every send carries the original envelope, only success scrubs |
| FederationQueue.FinalIsAbsorbing | morok_relay/scripts/federation_worker.py:122-189 | under the same condition SUCCEEDED and DEAD_LETTER are absorbing |
| FederationQueue.UnguardedOutcomeIff | morok_relay/scripts/federation_worker.py:154-185 | without it: when a late outcome leaves a finished row finished, and what it resurrects otherwise |
| FederationQueue.RecoveryKeepsOwnerIff | morok_relay/scripts/federation_worker.py:78-86 | a recovery takes the row from nobody at work on it if and only if no live worker claimed before its cutoff |
| FederationSchedule.OverstayedClaimSendsScrubbed | morok_relay/scripts/federation_worker.py:78-86 | one second over the timeout is enough for the empty envelope to be sent |
| FederationSchedule.ClaimsAreAccountedFor | morok_relay/scripts/federation_worker.py:104-119 | one worker at a time: claims = attempts + recoveries + the open or won one, so at most 11 more than recoveries; dead if and only if 11 attempts |
| FederationSchedule.RetriesKeepToBackoff | morok_relay/scripts/federation_worker.py:46-70 | no attempt before its place in the schedule, no dead letter before created + 57210 |
| FederationSchedule.LateRetriesAreRefused | morok_relay/api/federation.py:493-505 | from the fifth attempt on, no envelope the sender could have taken is still inside the receiver's window |
| FederationSchedule.AttemptsKeepPace | morok_relay/scripts/federation_worker.py:46-70 | the schedule bound is met: for every n a one-worker run sends attempt n at exactly created plus its backoff sum |
| FederationSchedule.FourthAttemptMayStillPass | morok_relay/crypto.py:316-320 | a run sends the fourth attempt inside the receiver's window; at the fifth no admissible timestamp is inside |
| FederationWorker.ProcessIsOneSchedule | morok_relay/scripts/federation_worker.py:192-216 | handling a row alone is one schedule of the row machine |
| FederationWorker.HandlingIsOneSchedule | morok_relay/scripts/federation_worker.py:192-216 | with any fetched copy of any row, whoever else holds one: handling it alone is claim, send, answer and outcome, and a lost claim leaves the row alone and sends nothing |
| FederationWorker.Outbox.RecoverStuckInFlight | morok_relay/scripts/federation_worker.py:73-87 | row by row: in flight since before the cutoff becomes pending and nothing else of it changes, other rows stay, none is stuck afterwards, the count is the rows that changed |
| FederationWorker.Outbox.MarkInFlight | morok_relay/scripts/federation_worker.py:104-119 | the claim wins exactly on a pending row |
| FederationWorker.Outbox.MarkRetryOrDead | morok_relay/scripts/federation_worker.py:146-189 | one failure more than the worker's copy had: a dead letter from the eleventh, before that pending again after 30 s, 60 s, ... 28800 s; the envelope stays |
| FederationWorker.Outbox.ProcessRow | morok_relay/scripts/federation_worker.py:192-216 | a row that is no longer pending is left alone; otherwise accepted means succeeded and scrubbed, anything else a failure counted from the worker's copy |
| FederationWorker.Outbox.RunOnce | morok_relay/scripts/federation_worker.py:219-253 | every row of the batch is handled once with its own verdict, every other only recovered; the statistics are exact |
| GroupRouting.TwoHopsAtMost | morok_relay/api/federation.py:730-915 | whatever the relays believe: at most two hops, the sender is never served, and a relay serves only members by a row of its own that lists the sender, whom its directory places at no other relay |
| GroupRouting.FanOutLeaves | morok_relay/api/groups.py:711-806 | member by member: who gets a copy at the relay that fans out, and exactly one packet for each other relay with exactly its members |
| GroupRouting.HostServesIff | morok_relay/api/federation.py:730-790 | a host fans a forwarded message out if and only if its own row makes it the host and lists the sender |
| GroupRouting.MirrorServesIff | morok_relay/api/federation.py:791-902 | a mirror serves exactly the listed recipients that are local members with room, if and only if the packet comes from the host its own row names and the sender is a member |
| GroupRouting.MembersAtIff | morok_relay/api/groups.py:711-739 | whose copy goes to which relay |
| GroupDelivery.OneRelayPerMember | morok_relay/api/groups.py:717-739 | under repeats and reordering a copy appears only at the relay the host has on record, or the host |
| GroupDelivery.EveryMemberServedAtOneRelay | morok_relay/api/federation.py:854-902 | when relays agree, no inbox is full and no fan-out is torn: after every packet was handled each relay has served exactly its members |
| GroupDelivery.AgreementNeverRefuses | morok_relay/api/federation.py:799-888 | and no packet is ever turned away |
| GroupDelivery.CrashedFanOutStarvesRemotes | morok_relay/api/federation.py:723-728 | a host that dies between queueing locally and committing the outbound rows treats every resend as a duplicate; no remote member is served while its key lives |
| GroupDelivery.ServedAfterCrashIff | morok_relay/api/groups.py:741-806 | under agreement, after that crash some continuation that keeps the host's key serves a remote relay's members if and only if the host had no local recipients |
| GroupService.ListsPartitionMembers | morok_relay/api/groups.py:728-739 | every member but the sender is in exactly one list, once |
| GroupService.ListsByDirectory | morok_relay/api/groups.py:717-739 | who is queued here and whose copy goes in which relay's row, told by membership and directory |
| GroupService.EveryoneCounted | morok_relay/api/groups.py:770-812 | queued here + skipped + sent on = members but the sender |
| GroupService.GroupRelay.SplitByHome | morok_relay/api/groups.py:731-739 | the routing loop fills the lists as specified |
| GroupService.GroupRelay.EnqueueForRecipients | morok_relay/api/groups.py:748-760 | every recipient whose inbox has room is served, and they are counted |
| GroupService.GroupRelay.AddRows | morok_relay/api/groups.py:772-806 | one row per relay without one, and the recipients they reach |
| GroupService.GroupRelay.DoGroupFanout | morok_relay/api/groups.py:686-812 | the host's fan-out: inboxes, outbound rows, and numbers that add up |
| GroupSnapshot.ApplyIsIdempotent | morok_relay/api/groups.py:1581-1770 | applying a snapshot again, at any time, changes nothing |
| GroupSnapshot.AcceptedIff | morok_relay/api/groups.py:1607-1712 | exactly which payloads are well-formed and which pushes are accepted, which are refused with 403, and whose home is recorded |
| GroupSnapshot.MembersAfter | morok_relay/api/groups.py:1727-1766 | who is a member after an accepted push, since when and as what: a key's last entry decides, old members keep joined_at, silent entries their role |
| GroupSnapshot.FieldsAfter | morok_relay/api/groups.py:1678-1725 | what a new row takes from the payload and which defaults, and the four settings an existing row takes |
| GroupSnapshot.SizeBound | morok_relay/api/groups.py:1653-1661 | never more than 200 members |
| GroupSnapshot.RetainedKeepJoinedAt | morok_relay/api/groups.py:1755-1766 | a member who stays keeps joined_at |
| GroupSnapshot.SerializedIsWellFormed | morok_relay/api/groups.py:1627-1669 | a serialized group is well-formed if and only if it is within protocol bounds |
| GroupSnapshot.MirrorsHost | morok_relay/api/groups.py:595-621 | after an accepted serialized snapshot, members, admins and mutable settings are the host's, whatever was there |
| GroupSnapshot.NewMirrorIsCopy | morok_relay/api/groups.py:1678-1697 | a new mirror row equals the host's row, with the verified sender as home |
| GroupSnapshot.NameFollowsHostIff | morok_relay/api/groups.py:1714-1724 | name, slug and expiry of an existing row never follow the host |
| GroupSnapshot.HomeNeverChanges | morok_relay/api/groups.py:1702-1712 | over every run of pushes a recorded home stays and 200 members are never exceeded |
| GroupSnapshot.LastAcceptedDecides | morok_relay/api/groups.py:624-637 | membership is that of the last accepted snapshot, whatever came before or was refused after |
| GroupSnapshot.DelayedPushWinsIff | morok_relay/api/groups.py:633-637 | a delayed older snapshot takes the mirror back unless nothing had changed |
| GroupSnapshot.Mirror.ListMembers | morok_relay/api/groups.py:1732-1743 | the dictionary the entries build |
| GroupSnapshot.Mirror.ReconcileMembers | morok_relay/api/groups.py:1745-1766 | the two loops over rows leave exactly the listed members, old ones updated |
| GroupSnapshot.Mirror.ApplyGroupSnapshot | morok_relay/api/groups.py:1581-1770 | the whole upsert, errors included |
| SessionReach.VerifiableIsListed | morok_relay/sessions.py:285-298 | over every run spared three interleavings, however requests stall or die: each session its user holds and that would verify is in the reverse index, which outlives the session's ceiling, so has_any_live_session never misses one |
| SessionReach.CalmIff | morok_relay/sessions.py:96-203 | of all steps of all requests, one loses a verifiable session from the index if and only if it is one of those three, each told by what could be looked up before the step |
| SessionGuarantees.IndexDominates | morok_relay/sessions.py:96-125 | over every run spared the three races, each with its own exact condition, and a day's stall between two EXPIREs: each live session is in the reverse index, which expires no earlier, so has_any_live_session never misses one |
| SessionSafety.StepInv | morok_relay/sessions.py:141-203 | every command of every request keeps that, migrations and expiry included |
| SessionGuarantees.SweepKeepsIndexIff | morok_relay/sessions.py:385-400 | logout-everywhere keeps every live session findable if and only if none that joined since its look is alive |
| SessionGuarantees.EndUnindexKeepsIndexIff | morok_relay/sessions.py:319-328 | the SREM of a single logout keeps every live session findable if and only if the one it unlists has not come back to life |
| SessionGuarantees.LapseKeepsIndexIff | morok_relay/sessions.py:103-125 | time passing keeps every live session findable if and only if no session still being added outlives a lapsing index |
| SessionGuarantees.LogoutEndsSessionIff | morok_relay/sessions.py:386-400 | the delete of revoke_all ends a session for every run that may follow if and only if it was listed in the form it then has and no request that read its old key is still to migrate it |
| SessionGuarantees.LogoutEverywhereIsFinal | morok_relay/sessions.py:377-406 | hence after revoke_all no session it could see ever verifies again, unless a request was just migrating it |
| SessionGuarantees.LoginDuringLogoutIsHidden | morok_relay/sessions.py:386-400 | a login inside a logout-everywhere lives on unindexed |
| SessionGuarantees.LogoutDuringMigrationIsHidden | morok_relay/sessions.py:301-328 | a single logout racing a migration leaves the session alive and unlisted |
| SessionGuarantees.LoginAtLapseIsHidden | morok_relay/sessions.py:116-125 | a login whose index lapses between SADD and EXPIRE lives on unindexed |
| SessionGuarantees.MigrationOutlivesLogout | morok_relay/sessions.py:147-173 | a migration that read before the delete writes the session back |
| SessionGuarantees.AliveAgreesIff | morok_relay/sessions.py:228-245 | the read-only check agrees with verification unless only an over-age old-scheme key is left |
| SessionGuarantees.VerifySettles | morok_relay/sessions.py:181-203 | after verifying, the check repeats the verdict and verifying again changes nothing |
| SessionService.SessionStore.CreateSession | morok_relay/sessions.py:89-127 | key, stamp, lifetimes and index entry a login leaves, nothing else; the token verifies at once |
| SessionService.SessionStore.VerifySessionToken | morok_relay/sessions.py:130-203 | which tokens verify, and the keys afterwards: seven more days, the index renewed, an old session moved, an over-age one deleted and unlisted |
| SessionService.SessionStore.IsSessionAlive | morok_relay/sessions.py:206-245 | a read that changes nothing |
| SessionService.SessionStore.RevokeSession | morok_relay/sessions.py:301-334 | the token's keys and index entries go, nothing else; it no longer verifies and is unlisted, or nothing was there |
| SessionService.SessionStore.RevokeAllSessions | morok_relay/sessions.py:377-406 | no listed session is alive afterwards, the index is gone, unlisted keys are unchanged, and the count is the sessions that lived |
| SessionService.RevokedNeverVerify | morok_relay/sessions.py:377-406 | after a logout-everywhere a token verifies only if its key was there and not listed |
| SessionService.RevokeAllIsOneSchedule | morok_relay/sessions.py:377-406 | a logout-everywhere alone is its look, its delete and its last command |
| SessionService.RevokeIsOneSchedule | morok_relay/sessions.py:301-334 | a logout from one device alone is one schedule of its commands |
| SessionService.SlidesUpToTheCeiling | morok_relay/sessions.py:130-203 | a session verified now verifies again after a while if and only if that is under seven days and it is then at most thirty days old |
| SessionService.CreateIsOneSchedule | morok_relay/sessions.py:103-125 | a login run alone is its three interleaved commands |
| SessionService.VerifyIsOneSchedule | morok_relay/sessions.py:141-200 | a verification run alone is one schedule of its commands |
| Usernames.NamePassesOnlyAfterCooldown | morok_relay/api/users.py:328-352 | along a run: if one key holds a name and another holds it later, the first released it in between, on record and after its own claim, and the second claimed more than the cooldown after that release |
| Usernames.HandoverTakesCooldown | morok_relay/api/users.py:330-341 | every release on record of a name held by another key lies more than the cooldown before that key's claim |
| Usernames.ChangesLieApart | morok_relay/api/users.py:305-352 | a key's claim that commits, in any run, read the clock at least a change interval after the key's last change, releases in between notwithstanding |
| Usernames.RunRecords | morok_relay/api/users.py:343-349 | over every run a name its key no longer holds is on record as released by it, no earlier than it was claimed |
| Usernames.GivenUpRecordedIff | morok_relay/api/users.py:388-399 | in any state, a commit that takes a name from its key puts it on record if and only if the request had read that name |
| Usernames.ReleasesLieApart | morok_relay/api/users.py:343-349 | releases of one name by different keys are never within a cooldown |
| Usernames.LatestIsEnough | morok_relay/api/users.py:330-341 | hence looking at the latest release alone decides as looking at all would |
| Usernames.LateClaimKeepsCooldownIff | morok_relay/api/users.py:337-352 | a claim keeps the rule if and only if its cooldown query would still pass at its commit |
| Usernames.AnyClaimKeepsCooldownIff | morok_relay/api/users.py:343-352 | the exact condition for any claim, its row changed or not: others' releases far enough back, and nobody else holding the name it will record as its own |
| UsernameService.CheckThenCommitSkipsCooldown | morok_relay/api/users.py:303-354 | a claim that looked before another key took and released the name |
| UsernameService.StaleReleaseSkipsCooldown | morok_relay/api/users.py:386-399 | a run in which a release that read before a rename drops the new name without a history row, and another key holds it in the same second |
| UsernameService.Users.LatestRelease | morok_relay/api/users.py:330-337 | the one history row the query returns |
| UsernameService.Users.ClaimUsername | morok_relay/api/users.py:279-371 | each verdict by its own condition on names, change interval and cooldown; an allowed claim writes name, time of change and the history row of the name given up, any other nothing |
| UsernameService.Users.ReleaseUsername | morok_relay/api/account.py:102-123 | the name goes, is recorded as released now, and only an account deletion forgets the time of the last change |
| TokenService.LiveIsListed | morok_relay/invite_tokens.py:88-90 | a live token is in its owner's index, which does not die before it |
| TokenService.CreateRefusedIff | morok_relay/burner_tokens.py:96-112 | creation is refused if and only if the cap is reached by truly live tokens |
| TokenService.CreateLeaves | morok_relay/burner_tokens.py:116-166 | below ten (invites: twenty) live tokens: the new token lives as asked within an hour and thirty days and has sent nothing, the index is the owner's live tokens and it, nobody else's index changes |
| TokenService.SendLeaves | morok_relay/burner_tokens.py:217-249 | a message counts one and changes no lifetime; the one past the hundredth takes the token and its entry |
| TokenService.SendAcceptedIff | morok_relay/burner_tokens.py:192-214 | a live burner admits exactly its first hundred messages |
| TokenService.ConsumedAtMostOnce | morok_relay/invite_tokens.py:155-182 | an invite is handed to at most one consumer |
| TokenService.DeadForever | morok_relay/burner_tokens.py:182-187 | a token that is gone never comes back, sends nothing and is given to nobody |
| TokenService.RevokeKills | morok_relay/burner_tokens.py:239-249 | revocation and the message past the hundredth both end it |
| TokenService.CleanupKeepsLive | morok_relay/burner_tokens.py:262-296 | the piecemeal cleanup of a listing drops no live token |
| CappedTokens.StepKeeps | morok_relay/invite_tokens.py:64-92 | every script and command keeps tokens, indexes, counters and the cap in agreement |
| TokenService.TokenStore.PruneAndCount | morok_relay/burner_tokens.py:96-104 | the script's loop prunes exactly the dead and counts exactly the live |
| TokenService.TokenStore.CreateToken | morok_relay/burner_tokens.py:116-166 | created below the cap of live tokens and only there |
| TokenService.TokenStore.IncrementMessageCount | morok_relay/burner_tokens.py:217-236 | allowed exactly below a hundred, and counted |
| TokenService.TokenStore.ConsumeToken | morok_relay/invite_tokens.py:155-182 | the metadata once, the token dead and unlisted |
| TokenService.TokenStore.RevokeToken | morok_relay/invite_tokens.py:185-191 | token and index entry go together |
| TokenService.TokenStore.ListTokens | morok_relay/burner_tokens.py:252-300 | exactly the live tokens, the dead ones unlisted |
| ReplayGuard.LateFirstAcceptIsLast | morok_relay/api/federation.py:150-157 | an event first accepted later than its own timestamp, by more than the delay between check and claim, is never accepted again |
| ReplayGuard.AtMostOnceIff | morok_relay/api/federation.py:231-250 | with no delay: at most once over every run if and only if the first acceptance lies after the event's timestamp |
| ReplayGuard.OneAcceptancePerKeyLife | morok_relay/sensitive_action.py:86-96 | acceptances under one claim key, of different actions even, lie at least the key's life apart |
| ReplayGuard.SameKeyIff | morok_relay/sensitive_action.py:66-96 | two sensitive actions share a claim key if and only if signer and nonce agree; federated events only if they are the same event |
| ReplayGuard.ClaimStore.Accept | morok_relay/sensitive_action.py:66-96 | accepted exactly within seven days, an hour or five minutes of its timestamp, by kind, and while its key is free; the key is then taken for as long |
| RateLimit.TwiceTheLimit | morok_relay/rate_limit.py:203-231 | any sixty seconds admit at most twice the limit for one identifier, forty times it for all onion traffic |
| RateLimit.TwiceIsReached | morok_relay/rate_limit.py:203-212 | and twice is reached |
| RateLimit.RateLimiter.CheckRateLimit | morok_relay/rate_limit.py:182-231 | count, verdict, the counter that is left, and the seconds to the next window |
| RateLimit.RateLimiter.TorAwareCheck | morok_relay/rate_limit.py:279-306 | onion traffic passes the shared ceiling and then its claimed identity's limit |
| FallbackLimiter.TrailingIsIdealIff | morok_relay/rate_limit.py:102-110 | the fallback agrees with an ideal counter if and only if the clock did not leave and re-enter the minute around a hit |
| FallbackLimiter.IdealCounts | morok_relay/rate_limit.py:102-110 | the ideal counter is the number of the key's hits in that minute |
| FallbackLimiter.MonotoneNeverInterrupts | morok_relay/rate_limit.py:103-106 | which a clock that does not run back never does |
| FallbackLimiter.LocalFallback.HitOnce | morok_relay/rate_limit.py:102-110 | the count is that of the minute's trailing hits, and the ideal one under a monotone clock |
| WsSlots.AcceptedWithinLimit | morok_relay/rate_limit.py:473-496 | with refreshes under 90 seconds accepted connections never exceed the limit, whatever rollbacks are outstanding |
| WsSlots.RejectedIff | morok_relay/rate_limit.py:489-496 | a reservation is turned away if and only if other young entries fill the limit |
| WsSlots.PendingRollbackBlocks | morok_relay/rate_limit.py:489-495 | an outstanding rollback can cost a free slot |
| WsSlots.SlotSet.ReserveSlot | morok_relay/rate_limit.py:454-496 | the block and the rollback: entries of the last 90 seconds stay as they are, the new one only within the limit, and the set lives 200 seconds |
| WsSlots.SlotSet.RefreshSlot | morok_relay/rate_limit.py:499-512 | the entry is renewed |
| WsSlots.SlotSet.ReleaseSlot | morok_relay/rate_limit.py:515-524 | the entry goes |
| JsonParser.ParseUndoesCanonical | morok_relay/crypto.py:42-63 | parsing the printed bytes gives the value back, keys sorted |
| JsonParser.CanonicalInjectiveIff | morok_relay/crypto.py:46-56 | equal bytes if and only if equal values |
| JsonParser.CanonicalObjectIff | morok_relay/crypto.py:57-63 | two objects print alike if and only if they agree key by key, in whatever order built |
| CanonicalJson.SameObjectIff | morok_relay/crypto.py:51-60 | the sorted form depends on the dictionary only |
| SignedText.PrintedKeysAscend | morok_relay/crypto.py:51-60 | however a dictionary was filled its keys are printed in strictly ascending order of their characters |
| SignedText.PlainIsVerbatim | morok_relay/crypto.py:42-63 | strings of plain characters, beyond ASCII too, are printed as they are |
| SignedText.EscapedExactly | morok_relay/crypto.py:42-63 | which characters are escaped, and how |
| SignedText.DecimalExactly | morok_relay/crypto.py:42-63 | numbers are printed in decimal without leading zeros |
| SignedFormats.BytesIdentifyMessage | morok_relay/api/federation.py:97-114 | over all twelve signed formats: equal bytes if and only if the same message |
| SignedText.SignedAs | morok_relay/api/federation.py:97-114 | the exact text each of the eleven tagged formats is signed as |
| SignedText.EnvelopeSignedAs | morok_relay/crypto.py:57-63 | and an envelope: blob, from, to, ts and ttl, whatever else it carries |
| SignedFormats.SignatureFitsOneMessage | morok_relay/api/federation.py:159-166 | a signature verifies for its message and key only |
| SignedFormats.MetadataDoesNotMatter | morok_relay/crypto.py:322-331 | whatever is added beside the five signed fields, an envelope verifies exactly if it did before |
| SignedFormats.DmsEnvelopeVerifiesIff | morok_relay/scripts/dms_reaper.py:153-161 | the reaper's envelope with all its labels verifies exactly within the ordinary time window |

## Left out

- Redis failures: the branches that fail open or fall back are modelled only for the rate limiter's in-process counter.
- Queue: delivery tombstones, read receipts, publish events, push, temporary files and the age branch of the full scan.
- Queue: group deletes, sending the same envelope id a second time, and the sealed delete as a method; its steps are in the machine.
- QueueService.RelayStore.DeleteBySender: the publish to the recipient's channel is not modelled, because events carry no state.
- AckProtocol.PendingIsReferenceCount: assumes no delete, expiry or lost inbox key for the envelope, because each of them removes holders without an acknowledgement.
- EnvelopeIds.IdIdentifiesMessage: SHA-256 is taken as injective, so equality of ids is equality of what is hashed.
- DmsService.Switchboard.BuildAndDeliver: the signature and the attestation it makes first are not part of the method; SignedFormats has them.
- DmsService.Switchboard.CancelSwitch: whether the sensitive-action proof verifies is a parameter, as ReplayGuard and SignedFormats model its parts.
- Dead Man's Switch: labels, listing, the database losing a session while the reaper's process goes on, and clocks that run back.
- DmsSafety.QuotaHolds: a creator's tier is fixed during a run, and creates of one creator are serialized by the advisory lock.
- FederationWorker.Outbox.RunOnce: the batch is a parameter constrained as the query's result; ties between equal next_attempt_at are free.
- Federation: peers, handshakes, trust, DNS pinning and the HTTP client; a send is an outcome.
- Groups: membership endpoints, invite joins, channels' sender checks, group expiry and deletion; a run's membership and directories are fixed.
- GroupDelivery.EveryMemberServedAtOneRelay: agreement of directories and mirrors, inboxes with room and no torn fan-out are assumptions; a second copy put into an inbox after the first was acknowledged and the metadata gone is not counted; without the assumptions OneRelayPerMember and TwoHopsAtMost still hold.
- GroupSnapshot.Mirror.ApplyGroupSnapshot: a joined_at that is not an integer raises in the original and is not modelled.
- Sessions: WebSocket tickets, challenges and revocation events; a token's text is taken to differ from every digest.
- SessionGuarantees.IndexDominates: a verification that stalls a day or dies between its two EXPIREs is excluded, because the index may then expire before an over-age key; SessionReach.VerifiableIsListed needs no such bound.
- Usernames: tiers, reserved names, remote users' cached names (which bypass the cooldown) and reactivation.
- WsSlots.SlotSet.ReserveSlot: the method takes its entry back at once; the delayed rollback is in the machine.
- Tokens: labels, owners' names, JSON that does not decode, and the group capacity of a join.
- ReplayGuard.AtMostOnceIff: a timestamp is an integer; a JSON value of another type that the checks accept would be claimed under its own spelling.
- Rate limits: the switch that turns them off, get_ip_from_request and buckets; one bucket is modelled, the others are alike.
- Canonical JSON: floats, lone surrogates and the UTF-8 encoding of characters.
- SignedFormats.MetadataDoesNotMatter: hexadecimal keys are compared as written in lower case, and ts and ttl are integers.
- Backups, mail, aliases, admin statistics, migrations and the WebSocket transport.

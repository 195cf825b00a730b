# Verified model of the POS service's hard parts

A Dafny model of five mechanisms of the POS service, and proofs of what they promise:

- **The print agent's spooler.** A claim loop and a wake-up socket loop share a one-slot channel and an
  atomic flag. Re-pairing cancels both and starts a new pair of them while the old ones wind down.
  `Pairing.dfy` has the mutex-protected pairing, `SpoolProtocol.dfy` all loops and the server's queue as
  one interleaved step system, `Drain.dfy` the drain after a wake-up and what is sent to which printer.
- **The role seed.** Permission patterns are resolved against the catalogue, defaults are added to global
  roles, and tenant copies that changed nothing are deleted. `Permissions.dfy` resolves and compares,
  `RoleSeed.dfy` seeds, reconciles and consolidates.
- **The audit log entity.** `AuditLog.dfy` writes rows and reads them back through scan destinations.
- **Creating audit rows through hooks.** `BulkCreate.dfy` says what a bulk save and a single save do with
  hooks that call on at most once, whatever they do to the mutation and whatever they answer;
  `RepeatedCalls.dfy` has the hooks that call on again; `BulkSave.dfy` is the bulk save on objects, with
  metadata maps that builders may share, proved to do what `BulkCreate.dfy` says; `Trail.dfy` is the
  client trail for every kind of row, and who a payment is attributed to.
- **Eager loading** of the edge between bar tabs and their events, both ways: `EagerLoad.dfy`.

`Prelude.dfy` holds options, ids and sequences read as sets. Methods and classes follow the code where it
changes things step by step; each is proved equal to a specification function, or directly to the
property, and the lemmas are about that.

The environment is nondeterministic wherever the code cannot control it: every request, claim reply, ack,
dial and write may succeed, fail or be lost, and every interleaving of atomic steps is a run. A run is a
sequence of events; an event that is not enabled changes nothing.

## Where the code and what is said about it differ

The model follows the code.

- The poll and reconnect backoff doubles while it is below 30 seconds, so it ends at 32, not at 30
  (`BackoffIsCappedPowerOfTwo`).
- `wsUp` is documented as whether the wake-up socket is connected. It says that of the generation which
  stored last (`FlagIsLastStorers`). After a re-pairing that can be the cancelled one, whose late stores
  hide a live socket (`StaleStoreHidesLiveSocket`) or feign one (`StaleStoreFeignsLiveSocket`). When it
  describes the current generation is in `FlagDescribesExactly` and `FlagDescribesUntilNextPairing`.
- A wake-up empties the queue only if its drain meets no error. After a failed drain an announced job can
  wait for the safety-net tick (`FailedDrainStrandsJob`); `FirstDrainServesAnnouncedJob` and
  `WakeUpIsNeverLost` say when it cannot.
- `configure` writes the file before it takes the mutex, and writing truncates first. Two overlapping calls
  can leave the agent running one pairing with the other one persisted (`RacingConfiguresDisagree`). A
  failed write, even of a call alone, can leave the agent running a pairing that the file has lost
  (`FailedSaveLosesPairing`). Calls that do not overlap keep the two together exactly if the last write
  succeeded, or happened to leave that pairing (`SequentialCallsPersist`).
- A restart normalises the persisted address again, and resumes only what has a server and a key. That
  brings back the same configuration exactly for a pairing whose address had no white space before its
  trailing slashes (`RestartResumesPairing`, `RestartForgets`).
- A lost ack prints a job twice if its lease runs out (`LeaseExpiryCanPrintTwice`). A job whose own lease
  never ran out is not printed twice, whatever becomes of others (`NoDoublePrintWithoutLapse`), and
  `PotentialIsExact` counts how often a job can still be printed. "Printed" means throughout that the
  dispatch reported success. The deadline for writing to a printer is six seconds
  (cmd/print-agent/main.go:294-295); a write that errors after paper came out is queued again and comes out
  once more, with no lease run out.
- The queue is not first come, first served when a printer fails. The job goes back to its place by age, so
  it is next in line again, and a printer that is off holds up younger jobs for other printers until the job
  has failed three times (`FailedJobIsNextInLine`, `FirstJobThriceThenSecond`).
- The comments on the role seed say that every role with a system code is reconciled, tenant copies
  included. The code skips tenant copies, and so does the model.
- Consolidation compares a copy with the union of all global rows of its code, and a reader is served one
  of them. With two global rows of one code it can change what a tenant is served
  (`TwoGlobalRowsCanChangeMeaning`); `ConsolidationKeepsMeaning` has the exact condition.
- Adding the defaults is idempotent, as a comment says. The whole seed is not if a tenant's row sits under
  the id reserved for a global role and is deleted as redundant: the next seed creates a global role there
  (`SeedingTwiceCanDiffer`, `SeedingTwiceOnAStore`).
- The unique index on tenant and code does not bind global rows, whose tenant is null. Seeding with the
  derived ids keeps them single if they were (`Canonical` is that assumption, where it is made).
- A bulk save checks a builder's own mutation before it takes over the one its hooks handed on; a single
  save checks the one it writes. They differ only with hooks that hand on another mutation
  (`BulkChecksItsOwnMutation`, `SwapEscapesTheBulkCheck`).
- That a bulk save succeeded means that the batch was written and accepted only with hooks that report no
  success of their own (`HonestSavesReportTheWrite`, `DishonestHooksHideFailures`).
- The client trail cannot be forged by a caller. The collector of a payment can: a `collected_by` in the
  caller's payment data is kept (`CollectorIsActorUnlessNamed`).

## Model

| member | source | states |
|---|---|---|
| Pairing.NormalizeTwice | cmd/print-agent/spooler.go:115-116 | normalising a stored address again changes nothing exactly when no white space stood before its trailing slashes |
| Pairing.NormalServerIsTheAddress | cmd/print-agent/spooler.go:115-116 | of any address as typed, the white space around it and the slashes at its end go, and nothing else |
| Pairing.PastedPairing | cmd/print-agent/spooler.go:115-116 | a pasted address and key, normalised |
| Pairing.WhatIsTrimmed | cmd/print-agent/spooler.go:115-116 | a character alone is trimmed away exactly if it is one of Unicode's white spaces |
| Pairing.ApplyKeepsOneLiveContext | cmd/print-agent/spooler.go:114-155 | any single atomic step of configure or stop keeps at most one live context, the held one, running the current pairing; cancelled contexts stay cancelled |
| Pairing.PairingStaysConsistent | cmd/print-agent/spooler.go:114-155 | in every interleaving of any configure and stop calls, failed saves included, a cancel function is held exactly when one uncancelled context exists, it runs the current pairing, and status never says polling without paired |
| Pairing.StatusAfterCalls | cmd/print-agent/spooler.go:114-155 | what status reports after a call that applies, a call that fails and a stop: paired and polling exactly if server and key are there, the server asked for, and no polling after a stop |
| Pairing.CallAloneIsItsSteps | cmd/print-agent/spooler.go:114-136 | the steps of one call, run to the end with nothing in between, do what an undisturbed call does, whether it persists or not and however its write goes |
| Pairing.CallsAreSteps | cmd/print-agent/spooler.go:114-155 | whatever calls and stops interleave, what happens to the agent is a sequence of the atomic steps |
| Pairing.IdlePairingIsPersisted | cmd/print-agent/spooler.go:114-136 | in every interleaving of the steps of calls that persist, from any state, failed writes included: when no call is in flight and the last write succeeded, file and running pairing agree exactly when the call of that write and the call that installed last asked for the same pairing |
| Pairing.SequentialCallsPersist | cmd/print-agent/spooler.go:114-136 | for calls that persist and do not overlap, from any state: whenever none is in flight, the running pairing is the persisted one exactly if the last write succeeded or happened to leave that pairing; before any write, exactly if it was so at the start |
| Pairing.RacingConfiguresDisagree | cmd/print-agent/spooler.go:117-128 | two overlapping calls that leave one pairing running and the other persisted |
| Pairing.FailedSaveLosesPairing | cmd/print-agent/spooler.go:54-60 | two calls that do not overlap, the second failing on a truncated file: the agent runs the first pairing and a restart finds none |
| Pairing.RestartResumesPairing | cmd/print-agent/service.go:41-48 | a restart after a persisted call brings back the same configuration exactly when the call paired the agent under a clean address, or left it with nothing |
| Pairing.RestartOnlyReads | cmd/print-agent/service.go:41-48 | a restart leaves the file alone, and starts one loop exactly if the file holds a pairing |
| Pairing.RestartForgets | cmd/print-agent/service.go:41-48 | an unclean address comes back shorter, and an address with a blank key does not come back |
| Pairing.Spooler.constructor | cmd/print-agent/spooler.go:106-111 | a new spooler is unpaired and polls nothing |
| Pairing.Spooler.DropContext | cmd/print-agent/spooler.go:124-127 | cancels the held context, if any, and nothing else |
| Pairing.Spooler.StartLoop | cmd/print-agent/spooler.go:132-134 | one new context, held, on the current pairing |
| Pairing.Spooler.Configure | cmd/print-agent/spooler.go:114-136 | one undisturbed call does what its atomic steps specify; it fails exactly when persisting was asked for and failed, and then changes only what the file reads as |
| Pairing.Spooler.Stop | cmd/print-agent/spooler.go:148-155 | a stop is the atomic step specified: the held context is cancelled, pairing and file are kept |
| Pairing.Spooler.ReportStatus | cmd/print-agent/spooler.go:138-146 | reports paired, server and polling as they are |
| SpoolProtocol.BackoffIsCappedPowerOfTwo | cmd/print-agent/spooler.go:212-214 | after k failures the backoff is min(2^k, 32) seconds |
| SpoolProtocol.RunStepKeepsInv | cmd/print-agent/spooler.go:179-253 | every claim-loop step, whatever the flag and the queue, keeps the generation's bounds on backoff and sleep, and keeps announced jobs covered by a token, a drain, a failed drain or cancellation |
| SpoolProtocol.SocketStepKeepsInv | cmd/print-agent/spooler.go:259-313 | so does every socket-loop step |
| SpoolProtocol.RunsKeepLocalInv | cmd/print-agent/spooler.go:114-313 | in every run there is one generation for each context, at most one of them live, and each satisfies those bounds |
| SpoolProtocol.SleepBetweenClaimsIsBounded | cmd/print-agent/spooler.go:171-223 | in every run, between claim attempts a loop sleeps at most 77 seconds, one backoff and one real-time wait; after k failed polls in a row its backoff is min(2^k, 32) seconds, and real-time passes do not reset it |
| SpoolProtocol.LongestSleepOccurs | cmd/print-agent/spooler.go:171-214 | a run in which a loop comes to a claim after 77 seconds of sleep |
| SpoolProtocol.ReconnectBackoff | cmd/print-agent/spooler.go:261-284 | in every run, after k failed dials in a row the socket loop sleeps min(2^(k-1), 32) seconds, and a connection makes it start over |
| SpoolProtocol.LiveLoopReachesClaim | cmd/print-agent/spooler.go:187-253 | each step of a live claim loop other than a claim strictly nears the next claim attempt, and never exits |
| SpoolProtocol.LiveLoopIsNeverStuck | cmd/print-agent/spooler.go:187-253 | a live claim loop always has an enabled step |
| SpoolProtocol.WhatAClaimLoopCanDo | cmd/print-agent/spooler.go:187-253 | at each point of the claim loop, exactly which steps are possible: the token is taken only if there is one, only ready jobs are claimed, nothing is found only if nothing is ready, any request can fail |
| SpoolProtocol.WhatAClaimComesTo | cmd/print-agent/spooler.go:201-242 | a job in hand, a clean end, or an error that ends a drain and makes a poll back off |
| SpoolProtocol.WhatAClaimDoesToItsJob | internal/modules/printing/queue.go:329-341 | a claim marks its job claimed and uses one attempt, whether or not its reply arrives, and touches no other job |
| SpoolProtocol.CancellationEndsWaiting | cmd/print-agent/spooler.go:190-211 | a loop that waits or backs off leaves as soon as it is cancelled |
| SpoolProtocol.SleepIsCounted | cmd/print-agent/spooler.go:187-216 | waits, ticks and backoffs are counted in full, and every claim attempt starts the count over |
| SpoolProtocol.WhatASocketLoopCanDo | cmd/print-agent/spooler.go:262-305 | at each point of the socket loop, exactly which steps are possible |
| SpoolProtocol.LiveSocketRedialsAndSignals | cmd/print-agent/spooler.go:262-303 | a live socket loop never exits, strictly nears its next dial after a failed dial or a drop, and follows every frame by a signal before it reads on |
| SpoolProtocol.CancelledGenerationWindsDown | cmd/print-agent/spooler.go:187-305 | each step of a cancelled generation lowers a bound on the steps it has left; at most one more claim is among them |
| SpoolProtocol.CancelledGenerationStops | cmd/print-agent/spooler.go:187-305 | in every run, from its cancellation on a generation takes at most seven claim-loop steps, one claim attempt among them, and six socket-loop steps |
| SpoolProtocol.StepKeepsFlagInv | cmd/print-agent/spooler.go:284-298 | every step keeps: a raised flag has a socket loop between its two stores, and with one generation the converse |
| SpoolProtocol.FlagDownOnceSocketsExit | cmd/print-agent/spooler.go:259-305 | in every run, with any number of re-pairings and stops, the flag is down whenever no socket loop is between its two stores, in particular once all have exited |
| SpoolProtocol.FlagIsLastStorers | cmd/print-agent/spooler.go:284-298 | in every run the flag is up exactly when the generation that stored last is between its two stores |
| SpoolProtocol.FlagDescribesExactly | cmd/print-agent/spooler.go:101-103 | the flag describes a generation exactly when that one and the last storer are both, or both not, between their stores |
| SpoolProtocol.FlagDescribesUntilNextPairing | cmd/print-agent/spooler.go:284-298 | once all other socket loops have exited, and the generation stored last or is not between its stores, the flag describes it until the next re-pairing |
| SpoolProtocol.StaleStoreHidesLiveSocket | cmd/print-agent/spooler.go:285-298 | a run in which the flag is down while the current generation's socket is connected and reading |
| SpoolProtocol.StaleStoreFeignsLiveSocket | cmd/print-agent/spooler.go:188-195 | a run in which a cancelled loop left the flag up: the live socket could not connect, and the live claim loop waits on an empty channel while a job is ready |
| SpoolProtocol.WakeUpIsNeverLost | cmd/print-agent/spooler.go:179-313 | in every run, a job that was ready when a live generation's loop signalled a frame is claimed, by an event of the run, before that generation is next quiet: channel empty, not draining, latest drain clean |
| SpoolProtocol.TokenStaysUntilTaken | cmd/print-agent/spooler.go:183-196 | in every run the token stays in the channel from a signal until the generation's claim loop takes it |
| SpoolProtocol.AnnouncedJobIsClaimedByCleanEnd | cmd/print-agent/spooler.go:225-242 | in every run, a job that is ready at some point is claimed before the next clean end of a drain or poll, whatever frames arrive meanwhile |
| SpoolProtocol.FirstDrainServesAnnouncedJob | cmd/print-agent/spooler.go:183-242 | in every run, from a signal to the first drain that starts after it the token is in the channel; if that drain or a later one ends neither by cancellation nor in an error, it ends because nothing is ready, and the announced job was claimed by then |
| SpoolProtocol.OwedThroughout | cmd/print-agent/spooler.go:259-313 | a job ready at a signal stays owed by that generation for as long as it stays ready |
| SpoolProtocol.FailedDrainStrandsJob | cmd/print-agent/spooler.go:230-236 | a run in which a drain that failed leaves an announced job ready, with the channel empty |
| SpoolProtocol.EveryReceiptIsDispatchedAndAcked | cmd/print-agent/spooler.go:244-253 | in every run and for every job: received claims are dispatched once each, dispatches acked once each with their outcome, and at most three claims and three dispatches happen |
| SpoolProtocol.RunStepKeepsBalance | internal/modules/printing/queue.go:329-368 | any claim-loop step, with what it does on the server, keeps the books of every job balanced |
| SpoolProtocol.OutcomesAreEarned | internal/modules/printing/queue.go:359-366 | in every run a job is failed only at its third attempt and by an ack that said so, and printed only by an ack that said printed |
| SpoolProtocol.DeliveredAckSettlesItsJob | internal/modules/printing/queue.go:345-367 | in every run: an ack that arrives while its job is claimed settles it as printed, or else queues it again exactly if it had less than three attempts and settles it as failed otherwise; one that comes too late, or not at all, changes no status |
| SpoolProtocol.SettledJobsStaySettled | internal/modules/printing/queue.go:249-263 | no event changes the status of a printed or failed job |
| SpoolProtocol.NoDoublePrintWithoutLapse | internal/modules/printing/queue.go:245-263 | in every run in which the lease of a job has not run out, that job is not printed twice, whatever generations, lost replies and lost acks there are and whatever becomes of other jobs |
| SpoolProtocol.StepKeepsPotential | internal/modules/printing/queue.go:329-368 | no event raises a job's prints, plus the loops still to dispatch it, plus the claims left while it is queued or claimed |
| SpoolProtocol.PotentialIsExact | internal/modules/printing/queue.go:245-263 | from any point of any run, some continuation has the job printed n times in all exactly if n is at most that sum |
| SpoolProtocol.NewJobPrintsThriceAtMost | internal/modules/printing/queue.go:28-29 | a job just queued can come to be printed n times exactly if n is at most three |
| SpoolProtocol.LeaseExpiryCanPrintTwice | internal/modules/printing/queue.go:249-263 | a run with a lost ack and a lease expiry that prints one job twice |
| Drain.WhatDecodes | cmd/print-agent/spooler.go:381-384 | a payload decodes exactly if it is an even number of hex digits, of either case |
| Drain.EncodedByteByByte | internal/modules/printing/queue.go:119 | two lower-case hex digits a byte, the high one first |
| Drain.CaseDoesNotMatter | cmd/print-agent/spooler.go:381-384 | upper case decodes as lower case does |
| Drain.SpacesAreSkipped | cmd/print-agent/spooler.go:381 | a space anywhere makes no difference |
| Drain.HexRoundTrip | cmd/print-agent/spooler.go:381-384 | decoding the queued hex form, spaces dropped as the agent does, gives the queued bytes back |
| Drain.JobGoesToItsTarget | cmd/print-agent/spooler.go:385-398 | any job whose payload decodes goes to its address, on its own port if that is between 1 and 65535 and on 9100 otherwise, or to its local printer, or nowhere |
| Drain.QueuedJobReachesItsPrinter | internal/modules/printing/queue.go:72-119 | a profile is refused exactly if it has no address and no local printer but "browser"; a job it queues is dispatched exactly when its payload is not empty, with its very bytes, to the profile's address, on its port if that is legal and on 9100 otherwise, or else to its local printer |
| Drain.LapsedLeasesComeBack | internal/modules/printing/queue.go:249-263 | what can be claimed next: what could be before, new jobs, and exactly those whose lease ran out before their third attempt |
| Drain.DrainConserves | cmd/print-agent/spooler.go:228-253 | for every script of arrivals, lapsing leases and claim faults and every behaviour of printers and acks: no job is lost or made up, what is ready stays in order of creation; each claim received is dispatched once and then acked once with that outcome; exactly the receipts reported printed are filed as printed, and those that failed at the third attempt as failed; what is newly left claimed lost its ack or its reply |
| Drain.ReportedInPairs | cmd/print-agent/spooler.go:245-253 | the log of a drain: a dispatch and an ack for each claim received, in order, both with the same outcome |
| Drain.WhatIsPrinted | cmd/print-agent/spooler.go:380-399 | an attempt is reported as printed exactly if the printer says so and there was something to send and somewhere to send it |
| Drain.HowADrainEnds | cmd/print-agent/spooler.go:228-239 | cancellation, a failed claim, a lost reply and an empty queue each end the drain, and how |
| Drain.CleanExitServesAll | internal/modules/printing/queue.go:344-368 | if the drain ends with the queue empty, every job that was ready or arrived meanwhile was printed, or failed out at its third attempt, or is one whose ack was lost |
| Drain.FailedJobIsNextInLine | internal/modules/printing/queue.go:359-367 | a job older than all others ready, whose failure was acked with attempts left, is first in the queue again |
| Drain.FirstJobThriceThenSecond | internal/modules/printing/queue.go:314-317 | two jobs, the older one's printer off: one drain receives the older one three times, then the younger |
| Drain.Agent.NextJob | internal/modules/printing/queue.go:292-342 | a claim takes the oldest ready job and counts the attempt, if the request gets through; a lost reply leaves it claimed |
| Drain.Agent.PrintAndAck | cmd/print-agent/spooler.go:245-253 | a dispatch, then an ack that carries its outcome, if it arrives |
| Drain.Agent.DrainJobs | cmd/print-agent/spooler.go:228-242 | the loop terminates for any finite script, with the state and the exit of the specification |
| Permissions.ResolvePermissions | cmd/seed/main.go:1262-1314 | a duplicate-free list, and as a set: all ids that a listed pattern grants, less those of excluded codes |
| Permissions.AddMatching | cmd/seed/main.go:1287-1294 | exactly the ids of codes with the prefix, the map read in any order |
| Permissions.StarGrantsEverything | cmd/seed/main.go:1278-1284 | "*" resolves to every id of the catalogue |
| Permissions.WildcardGrantsPrefix | cmd/seed/main.go:1286-1295 | a prefix of two characters or more and a star: the ids of exactly the codes that begin with it |
| Permissions.PlainCodeGrantsItself | cmd/seed/main.go:1297-1300 | any other pattern that is no exclusion: the id of that very code, if there is one |
| Permissions.PartsAddUp | cmd/seed/main.go:1276-1301 | a list without exclusions resolves to the union of its parts |
| Permissions.ExclusionTakesOneCode | cmd/seed/main.go:1273-1307 | an exclusion, wherever it stands, takes away the id of its code and nothing else |
| Permissions.PatternOrderIsIrrelevant | cmd/seed/main.go:1265-1271 | neither the order of the patterns nor repeats among them matter |
| Permissions.ExclusionAlwaysWins | cmd/seed/main.go:1265-1277 | an excluded code is withheld, wherever it stands and whatever wildcard covers it |
| Permissions.EnlargingKeepsResolved | cmd/seed/main.go:1262-1307 | a larger catalogue takes an id from a role exactly when a new, excluded code carries that id |
| Permissions.InjectiveEnlargingKeepsResolved | cmd/seed/main.go:639-753 | with one id for each code it never does |
| Permissions.PermissionTable.Seed | cmd/seed/main.go:639-753 | only inserts, under derived ids; all codes are there afterwards, or a code's derived id was taken; counts what was new |
| Permissions.SeedThenResolve | cmd/seed/main.go:639-753 | seeding permissions before roles never shrinks what a role resolves to, even if it stops midway |
| Permissions.SamePermSet | cmd/seed/main.go:1210-1224 | true exactly for equal lengths and one inclusion |
| Permissions.SameLengthAndIncludedMeansEqual | cmd/seed/main.go:1209-1224 | on duplicate-free slices that is equality of the sets |
| Permissions.DuplicatesBreakComparison | cmd/seed/main.go:1210-1224 | with duplicates it is wrong both ways |
| Permissions.WhenIDsAreDistinct | internal/ent/pospermission_query.go:233-242 | ids are made distinct if the query asks for it, or leaves it open and is a traversal; otherwise they are as found |
| Permissions.TraversalsCompareAsSets | internal/ent/pospermission_query.go:233-242 | ids read through two traversals compare equal exactly when the same permissions are reachable, however often |
| RoleSeed.SeedDefsClosedForm | cmd/seed/main.go:1063-1128 | rows are only added, under the ids of their codes, and global rows end with their old grants and all that the definitions of their code resolve to |
| RoleSeed.DefaultsAreAddOnly | cmd/seed/main.go:1087-1127 | an existing global row ends with old plus resolved permissions; a tenant's row and its permissions are untouched |
| RoleSeed.StarRoleIsGrantedEverything | cmd/seed/main.go:774 | after seeding, the role defined by "*" has every permission |
| RoleSeed.ConsolidationKeepsMeaning | cmd/seed/main.go:1138-1203 | consolidation changes what no tenant is served for any code exactly when, for each deleted copy, every global row of its code carries the copy's permissions |
| RoleSeed.OneGlobalRowKeepsMeaning | cmd/seed/main.go:1130-1203 | one global row for each code is enough for that |
| RoleSeed.TwoGlobalRowsCanChangeMeaning | cmd/seed/main.go:1179-1193 | a store with two global rows of one code in which it fails |
| RoleSeed.ChoicesAfterDefs | internal/modules/rbac/repository_ent.go:73-94 | what seeding alone changes for whom: only readers of the global row of a seeded code |
| RoleSeed.SeedMeaning | cmd/seed/main.go:1063-1203 | after the whole seed, a tenant with a row of its own is served what it was served before, even if that row was deleted, and everyone else the old global permissions plus the defaults |
| RoleSeed.NothingDangles | cmd/seed/main.go:1130-1203 | no assignment, staff base role or grant refers to a deleted role, and every surviving row and its grants are as they were |
| RoleSeed.ConsolidatingAgainDeletesNothing | cmd/seed/main.go:1138-1203 | after a consolidation no row is redundant |
| RoleSeed.SeedingIsIdempotent | cmd/seed/main.go:1063-1203 | seeding twice is seeding once, for any store, exactly when no row that the consolidation deletes sits under the id reserved for a seeded code's global row |
| RoleSeed.SeedingTwiceOnAStore | cmd/seed/main.go:1063-1203 | the same on the store before the seed: exactly when no reserved id is that of a tenant's row which nobody refers to and whose permissions are the global ones with the defaults added |
| RoleSeed.ReservedIDsMakeSeedingIdempotent | cmd/seed/main.go:1064-1085 | if no reserved id is a tenant's row, seeding twice is seeding once |
| RoleSeed.SeedingTwiceCanDiffer | cmd/seed/main.go:1067-1085 | a store on which it is not |
| RoleSeed.JudgementIsStable | cmd/seed/main.go:1148-1203 | deleting redundant rows changes the verdict on no other row, so their order does not matter |
| RoleSeed.RoleTables.CreateGrant | cmd/seed/main.go:1118-1125 | inserts a grant, refused exactly on a duplicate |
| RoleSeed.RoleTables.SeedRole | cmd/seed/main.go:1063-1128 | one definition, as specified, rows in any order |
| RoleSeed.RoleTables.QueryPermissionIDs | cmd/seed/main.go:1179-1187 | the permissions reachable from some role rows, each once |
| RoleSeed.RoleTables.IsRedundant | cmd/seed/main.go:1149-1193 | judges a legacy row exactly as specified, from the tables as they are then |
| RoleSeed.RoleTables.DeleteRole | cmd/seed/main.go:1194-1201 | deletes a row and its grants and nothing else |
| RoleSeed.RoleTables.Consolidate | cmd/seed/main.go:1138-1203 | row by row, in any order, deletes exactly the rows that were redundant at the start, and counts them |
| RoleSeed.RoleTables.SeedRBACRoles | cmd/seed/main.go:1057-1206 | the whole seed does what is specified |
| AuditLog.DefaultsFillGaps | internal/ent/auditlog_create.go:223-232 | a set id or time is kept, a missing one is filled in, nothing else changes |
| AuditLog.CompleteMutationsPass | internal/ent/auditlog_create.go:235-254 | the check passes exactly with a tenant, an actor, a time and an action that is not empty |
| AuditLog.CheckNamesTheFirstFault | internal/ent/auditlog_create.go:235-254 | the error names the first column at fault, and whether it is missing or empty |
| AuditLog.WrittenIDs | internal/ent/auditlog_create.go:279-346 | the id columns of the insert, one by one: there exactly if set, with that id |
| AuditLog.WrittenTexts | internal/ent/auditlog_create.go:279-346 | so with the text columns |
| AuditLog.WrittenValues | internal/ent/auditlog_create.go:279-346 | so with JSON, amount and time |
| AuditLog.ReturnedIfSet | internal/ent/auditlog_create.go:279-346 | every field that was set is in the node handed back, each under its own name |
| AuditLog.ZeroIfNotSet | internal/ent/auditlog_create.go:279-346 | the others are zero |
| AuditLog.MismatchIsWrongKind | internal/ent/auditlog.go:54-190 | the table of destinations and the assigning switch agree exactly: a type mismatch is reported for precisely the known columns whose destination is of another kind |
| AuditLog.ScannedDestinationsAlwaysFit | internal/ent/auditlog.go:54-190 | for any column list, repeats and unknown names allowed, and any database values that scan into the destinations made for it, assigning stops exactly if a JSON column held undecodable text, never on a type mismatch |
| AuditLog.AssignOneFrame | internal/ent/auditlog.go:83-188 | assigning one column leaves every other field alone |
| AuditLog.ReadOneColumn | internal/ent/auditlog.go:83-188 | the value written for a column scans into its destination and restores that field |
| AuditLog.JsonAddsToWhatIsThere | internal/ent/auditlog.go:150-181 | JSON read into a field that holds some is added to it; a JSON null empties it |
| AuditLog.NullChangesNothing | internal/ent/auditlog.go:83-188 | a NULL leaves the entity as it was, but makes the ids zero that cannot be null |
| AuditLog.OnlyFittingValuesScan | internal/ent/auditlog.go:54-75 | which database values scan into which column |
| AuditLog.TooFewValuesAreRefused | internal/ent/auditlog.go:79-82 | exactly too few values are refused as that, with the entity untouched |
| AuditLog.WrittenRowReadsBack | internal/ent/auditlog_create.go:279-346 | for every mutation and any column list, the written row scans and rebuilds the node that the create returned, restricted to the columns read, and every column of another name as it was; all of it when every column is read, in any order |
| AuditLog.ScanValues | internal/ent/auditlog.go:54-75 | one fresh destination of the right kind for each column |
| AuditLog.Entity.AssignValues | internal/ent/auditlog.go:79-190 | assigns in order and stops at the first error, as specified |
| BulkCreate.MutateClosedForm | internal/ent/auditlog_create.go:987-1022 | for hooks that call on at most once, the nested calls in closed form: descent, write, ascent |
| BulkCreate.SaveClosedForm | internal/ent/auditlog_create.go:976-1029 | for hooks that call on at most once, the whole save in closed form, and when it succeeds |
| BulkCreate.SaveInOrder | internal/ent/auditlog_create.go:983-1027 | for hooks that call on at most once, whatever they answer: all defaults first; hook k of builder i before hook k + 1 and before every hook of builder i + 1; each check after its builder's hooks; one write after all that; nothing twice, and no builder's defaults left out |
| BulkCreate.BatchIsAllChecked | internal/ent/auditlog_create.go:987-1027 | for hooks that call on at most once, whatever they answer: the batch is written exactly when every chain reaches and passes its check, with each builder's own spec in its place and after all hooks and checks; who is marked done, and when the save succeeds, exactly |
| BulkCreate.HonestSavesReportTheWrite | internal/ent/auditlog_create.go:998-1015 | with hooks that report no success they were not told of, success and done marks mean that the batch was written and accepted, and what else they mean |
| BulkCreate.DishonestHooksHideFailures | internal/ent/auditlog_create.go:998-1015 | a hook that recovers from an error, and one that skips the call, leave the save successful and a mutation done with nothing accepted or written |
| BulkCreate.PassThroughBulkIsAllOrNothing | internal/ent/auditlog_create.go:976-1029 | with hooks that only edit, what is written passed the check, and all mutations end up done or none does |
| BulkCreate.BatchNeedsCompleteMutations | internal/ent/auditlog_create.go:987-1009 | for hooks that call on at most once: the batch is written exactly if they all call on and every builder's own mutation then has a tenant, an actor, a time and an action that is not empty |
| BulkCreate.BulkWritesCompleteRows | internal/ent/auditlog_create.go:987-1009 | with hooks that call on and hand on no other mutation, every row written has those four, and the batch is written exactly if every mutation has them after its defaults and hooks |
| BulkCreate.PassThroughSaveSucceeds | internal/ent/auditlog_create.go:976-1029 | with pass-through hooks the save succeeds exactly if, besides, the database accepts the batch |
| BulkCreate.BareBuildersWriteTheirFields | internal/ent/auditlog_create.go:983-997 | without hooks each row is what was set, with the clock's time and the generator's id where they were not |
| BulkCreate.EditsActInOrder | internal/ent/auditlog_create.go:1017-1019 | hooks act in their order, each on what the one before it left |
| BulkCreate.BulkWritesUnchecked | internal/ent/auditlog_create.go:992-997 | a bulk of any size writes the row of a handed-on mutation that fails the check exactly when all builders' own mutations pass and some mutation handed on does not, which takes a hook that hands on another mutation |
| BulkCreate.DoneIsAllOrNothing | internal/ent/auditlog_create.go:1010-1015 | for hooks that call on at most once, whatever they answer: all or none is done exactly when no builder was reached, or the last one reached was told of a failure, unless it was the last of all, and no later builder's hooks turn that answer on its way up |
| BulkCreate.TrailIsWritten | internal/audit/trail.go:36-76 | wherever the trail hook stands, if the hooks inside it leave metadata alone, the row carries the server's client value and all other keys as they were when the hook was entered |
| BulkCreate.BulkRowsCarryTheTrail | internal/audit/trail.go:68-73 | every row of a bulk insert made under a request with client info carries it in the metadata written, all other keys kept |
| BulkCreate.AuditEntriesAreSaved | internal/ent/auditlog_create.go:976-1029 | with the trail hook alone, a bulk save succeeds exactly if every entry has a tenant, an actor and an action that is not empty, and the database accepts the batch |
| BulkCreate.SingleClosedForm | internal/ent/ent.go:725-757 | a single create hands the mutation its hooks handed on to the database, exactly if none of them answered without calling on and it passes the check |
| BulkCreate.SingleWritesCompleteRows | internal/ent/auditlog_create.go:235-261 | whatever its hooks do, a single create writes exactly if they all call on and the mutation handed on has those four, and then its row |
| BulkCreate.BulkChecksItsOwnMutation | internal/ent/auditlog_create.go:992-997 | for one builder, bulk and single save write differently exactly when its own mutation and the one handed on differ in the check, and that takes a hook that hands on another mutation |
| BulkCreate.SwapEscapesTheBulkCheck | internal/ent/auditlog_create.go:992-997 | such a hook gets a row without an action written |
| RepeatedCalls.MutateIsSound | internal/ent/auditlog_create.go:987-1016 | any part of a chain fills only its own and later slots, in order and after passed checks, wherever and however often it is called |
| RepeatedCalls.EveryBatchIsChecked | internal/ent/auditlog_create.go:987-1009 | for all hooks whatever, retrying and repeating ones included, every batch written has one spec from every builder, filled in the descent that led to that write, after a check of the builder's own mutation that passed |
| RepeatedCalls.RetryWritesTwice | internal/ent/auditlog_create.go:1001-1004 | a hook that retries makes the save write twice |
| RepeatedCalls.SaveAgrees | internal/ent/auditlog_create.go:976-1029 | on hooks that call on at most once, this is the bulk create of `BulkCreate` |
| BulkSave.CloneMap | internal/audit/trail.go:104-111 | a new map with the same entries; the old one is only read |
| BulkSave.StampTrail | internal/audit/trail.go:68-73 | writes the client value to the mutation, in a map of its own |
| BulkSave.AuditLogCreate.ApplyDefaults | internal/ent/auditlog_create.go:223-232 | sets creation time and id if unset, and nothing else |
| BulkSave.WrapHooks | internal/ent/auditlog_create.go:1017-1019 | wrapping from the last hook to the first leaves the first outermost |
| BulkSave.Enter | internal/ent/auditlog_create.go:1017-1019 | one hook does what is specified to the mutation it is handed, and nothing to any other |
| BulkSave.AuditLogCreateBulk.Fill | internal/ent/auditlog_create.go:992-997 | checks the builder's own mutation, then hands over the other one and fills its slot and no other |
| BulkSave.AuditLogCreateBulk.CallFrom | internal/ent/auditlog_create.go:998-1009 | the next builder's chain, or, after the last, the write of all slots |
| BulkSave.AuditLogCreateBulk.CheckAndFill | internal/ent/auditlog_create.go:987-1016 | the innermost mutator, as specified; mutations are done exactly as the log says |
| BulkSave.AuditLogCreateBulk.Mutate | internal/ent/auditlog_create.go:987-1020 | any mutator of any chain does what is specified, earlier slots untouched |
| BulkSave.AuditLogCreateBulk.CallOn | internal/ent/auditlog_create.go:1017-1019 | a hook that calls on: its change to the mutation, then the next mutator on the mutation it hands on |
| BulkSave.AuditLogCreateBulk.Prepare | internal/ent/auditlog_create.go:983-1022 | all defaults before any hook, and one chain for each builder |
| BulkSave.AuditLogCreateBulk.Save | internal/ent/auditlog_create.go:976-1029 | on objects, for hooks that call on at most once and maps shared in any way: result, order of events, done marks and returned nodes, empty ones included, are exactly those specified |
| BulkSave.AuditLogCreateBulk.SaveLeavingMaps | internal/audit/trail.go:104-111 | no map that a caller holds changes, even one that several builders share |
| Trail.RenderedFieldByField | internal/platform/clientinfo/clientinfo.go:58-74 | each field that is not empty, under its own key |
| Trail.RenderedTellsInfo | internal/platform/clientinfo/clientinfo.go:55-76 | the rendering leaves out empty fields and still tells any two clients apart; only the zero info renders to nothing |
| Trail.LastInfoCounts | internal/platform/clientinfo/clientinfo.go:102-108 | the client is the info put into the context last; if that is zero there is none, even if there was one before |
| Trail.ActorIsLoggedInUser | internal/audit/trail.go:89-102 | without an override in force the actor is the user whose id the subject of the innermost claims is, and nobody if that is empty or no id |
| Trail.NobodyWithoutClaims | internal/audit/trail.go:93-96 | without claims and override there is no actor |
| Trail.LastOverrideCounts | internal/audit/trail.go:81-102 | the last collector override decides who the actor is, whatever was added to the context since; an override with the nil id hides earlier ones and gives the actor back to the logged-in user |
| Trail.StoredForEachKind | internal/audit/trail.go:46-75 | orders and audit entries get the client under "client", shift sessions under "opened_from", on top of what the caller gave; a payment that nobody is behind gets the client and no collector |
| Trail.PaymentIsCollectedByUser | internal/audit/trail.go:53-62 | a payment by a logged-in user gets the client under "client" and that user under "collected_by", unless the payment data names somebody |
| Trail.ClientCannotBeForged | internal/audit/trail.go:32-77 | on every tracked row created from a request the server's client value is stored, whatever the caller put there; other keys are kept and only a payment's collector is added |
| Trail.CollectorIsActorUnlessNamed | internal/audit/trail.go:53-62 | a payment is attributed to the actor exactly when the caller's data named nobody else |
| Trail.HookTwiceIsHookOnce | internal/audit/trail.go:36-77 | the hook is idempotent, and changes nothing on updates, on other rows or without a client |
| Trail.AuditEntriesAreStamped | internal/audit/trail.go:68-73 | on audit entries it is the stamp of the bulk create |
| EagerLoad.DirectionsAgree | internal/ent/bartab_query.go:412-441 | an event is among a tab's loaded events exactly when that tab is what the event loads, whatever ids repeat |
| EagerLoad.LoadBothWays | internal/ent/bartabevent_query.go:373-438 | both edges loaded from the same two tables by their own queries: a tab carries an event of some id exactly when the other query has an event of that id whose tab has the tab's id |
| EagerLoad.LoadIsNestedLoopJoin | internal/ent/bartab_query.go:412-441 | the map-indexed load is the nested-loop join exactly when no event refers to an id that several tabs have |
| EagerLoad.EventsArePartitioned | internal/ent/bartab_query.go:430-439 | the tabs' lists together hold every loaded event exactly once |
| EagerLoad.AssignEvents | internal/ent/bartab_query.go:430-439 | every event goes to its tab, in order, up to the first unexpected key, which is reported |
| EagerLoad.LoadEvents | internal/ent/bartab_query.go:412-441 | fails exactly if the query fails: the unexpected-key error is unreachable under the filter and the added key column |
| EagerLoad.WhatAQueryAnswers | internal/ent/bartabevent_query.go:373-399 | a query that is not narrowed answers with its rows, or the first of them up to its limit |
| EagerLoad.WhatALoadAnswers | internal/ent/bartab_query.go:425-428 | one that is narrowed to an edge answers with rows on that edge only, and with all of them if it has no limit |
| EagerLoad.KeyIsAppendedOnce | internal/ent/bartab_query.go:422-424 | loading the edge adds the foreign key to a narrowed field list, once, and keeps the rest |
| EagerLoad.LoadedRowsOf | internal/ent/bartab_query.go:421-426 | the filter loses no child, and a limit on the edge leaves each tab a prefix of its own |
| EagerLoad.AllEvents | internal/ent/bartabevent_query.go:373-399 | one new object a row, its key read only if the column was selected |
| EagerLoad.SqlAllTabs | internal/ent/bartab_query.go:373-410 | with distinct ids, each tab carries exactly the rows that refer to it, in order; a first part of them under a limit |
| EagerLoad.GroupByKey | internal/ent/bartabevent_query.go:411-420 | each key once, in order of first occurrence, and all nodes that wait for it |
| EagerLoad.AssignParents | internal/ent/bartabevent_query.go:429-438 | every waiting event gets the last parent with its key, up to the first unexpected key, which is reported |
| EagerLoad.LoadBarTab | internal/ent/bartabevent_query.go:410-438 | fails exactly if the query fails; asks for each parent once |
| EagerLoad.SqlAllEvents | internal/ent/bartabevent_query.go:373-408 | without a limit on the edge, an event has a tab exactly when its row refers to one, and then that one, even from a query narrowed to other fields; its key is read exactly if it was selected or the edge is loaded |

## Left out

- HTTP, WebSocket, TCP and operating-system printing, log output, service control and the configuration
  file's place and format: each is a step that succeeds or fails.
- SpoolProtocol.Step: the two loops are step functions over program points, not loops, so that steps of all
  generations can interleave; the drain loop alone is also a method, in `Drain.dfy`.
- Wall-clock time. Waits and backoffs are counted in seconds as the code asks for them; how long a request
  takes is not modelled, nor is the age limit after which the server stops handing out a job.
- Several print agents, tenants and outlets on one queue, the agent key that an ack must carry, and the
  database transaction of a claim: a claim is one atomic step. In `SpoolProtocol` it takes any ready job;
  `Drain` has the order of creation, with jobs of one moment in the order in which they were queued or came
  back.
- Drain.DrainConserves: one agent alone drains, and the lease of the job it is printing does not run out
  meanwhile; `SpoolProtocol` has several loops and leases that run out at any time.
- Pairing.SequentialCallsPersist: a write of the file is one atomic step; two writes that overlap and mix
  their bytes are not modelled.
- SpoolProtocol.LiveLoopReachesClaim: that a live loop's steps are eventually taken is the scheduler's
  promise, not the model's; the lemma bounds their number.
- The tables of roles, patterns and permission codes in the seed are parameters; ids derived by hashing are
  any function of the code, and the properties that need it to be injective say so.
- Database errors midway through the role seed, and a crash between the two deletes of one role.
- RoleSeed.SeedMeaning: assumes at most one row for each tenant and code, which is the unique index, and that a seeded code's
  global rows sit under its derived id, which no constraint enforces.
- The SQL driver: rows, filters and limits are sequences, and JSON text decodes to what was encoded, so
  float and timestamp precision are not modelled.
- Column and client-info key names are constructors; the columns of a row are a map.
- AuditLog.SpecOf: `createSpec` writes two structures field by field; the model computes both from the
  mutation, and `WrittenRowReadsBack` is what ties them together.
- AuditLog.Entity.AssignValues: the entity's fields are one record, replaced column by column.
- BulkSave.AuditLogCreateBulk.Mutate: on objects, hooks call on at most once; `RepeatedCalls` has the others
  on values, where mutations are places in a heap. Hooks that panic, reach another builder's mutation, or
  call on from another goroutine are not modelled at all.
- Conflict clauses of inserts, null hooks, hooks on other operations than create, hooks that change a
  metadata map in place, and mutations of the wrong type.
- BulkSave.AuditLogCreateBulk.Save: assumes that no builder and no mutation is listed twice in one bulk.
- Eager loading through more than one edge, query interceptors, and queries that ask for distinct rows of
  nodes; ids of traversals are covered by `TraversalsCompareAsSets`.
- Creating a tenant's override of a role.
- Generated setters, updates, deletes and upserts, and the same templates for other entities.

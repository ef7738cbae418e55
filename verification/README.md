# magic-cli-remote: a verified model of its protocols

This project models, in Dafny, the parts of the mcremote daemon whose correctness
spans several steps, several processes or several goroutines, and proves what they
promise. Each component is written twice: once as pure functions over values (what one
operation does), and, where the Go code changes fields, files or buffers step by step,
once more as classes and methods proved equal to those functions. The theorems are about
histories: every interleaving, every crash point, every failed write, every input.

`dafny verify dfyconfig.toml` checks the whole project.

## What is modelled

- **TLS identity install** (`IdentityFiles`, `IdentityProofs`, `IdentityOutcomes`,
  `IdentityInstaller`). Four
  files, staged writes, two ordered renames, promotion and orphan repair on the next
  start. Every file operation may be done, fail, or be preceded by the death of the
  process. The central result is that the four files behave as one cell holding an
  identity, replaced in a single step and only with cause.
- **Stream coalescer** (`Events`, `Coalescer`, `CoalescerText`, `CoalescerErasure`,
  `CoalescerTools`, `CoalescerRetry`, `CoalescerRuns`, `Subsequences`, `ChunkBuffer`). One pending text
  run, a lane of held tool updates, and text handed back when a delivery is refused.
- **Paired devices** (`DeviceList`, `DeviceProofs`, `DeviceHistory`, `DeviceTimes`,
  `DeviceAccess`, `DeviceStore`). Any number of processes with stale caches over one file.
- **Pair codes** (`PairCodes`, `PairCodeText`, `PairCodeStore`). One-shot, expiring codes
  and their display form.
- **Catalog cache** (`CatalogCache`). Single flight per key with a generation counter.
- **Timed file lock** (`FileLock`). The race between a kernel grant, a timer and the
  goroutine a timeout leaves behind.
- **Prewarm latch** (`Prewarm`). Stop-when-idle against sessions opening and closing.
- **Windows DACL checks** (`Sddl`, `SddlProofs`, `SddlAccess`, `SddlChecks`). Section 2.5.1 of MS-DTYP.
- **Certificate-order cooldown** (`IssuanceCooldown`, `SortedNames`). Problem types:
  section 6.7 of RFC 8555.
- **Pair links** (`Base64`, `Fingerprints`, `PeerAddresses`, `PairUri`, `PairLinks`).
  Sections 4, 5 and 8 of RFC 4648.
- `GoStrings` holds the few string operations of Go's library the above rely on, `Common`
  the optional value and the fold of a history that the transition systems share.

## Where the code does less than its comments say

Each of these is a property that one would expect, a lemma with an input for which it
fails, and a theorem saying exactly when it holds.

- **An orphan certificate can be thrown away.** When the orphan that would complete a
  half-finished install cannot be read or renamed, and the process is not killed,
  `cleanupOrphanNew` removes it. From then on no start can serve. A start keeps the
  identity recoverable if and only if it does not do that
  (`IdentityProofs.EnsureStaysRecoverableIff`, `StrandedForever`, `StrandingExample`).
- **A staged renewal can be given up.** When a stat fails, a complete staged pair looks
  like an orphan and half of it is removed, or a new install writes over it. With failing
  operations the identity in force stays, or is replaced with cause, if and only if neither
  happens or the replacement was due anyway and went through
  (`IdentityProofs.EnsureKeepsIdentityIff`, `FailingHistory`, `DroppedPairExample`).
- **Two events offered together can change order.** When a run is displaced by a chunk of
  another run and the older event is refused, text is reordered or gets the identity of
  the newer run; order is kept if and only if the older one is taken
  (`CoalescerRetry.DisplacedRunKeepsOrderIff`).
- **A disabled buffer loses refused text.** With a window of zero or less, `Unflush` neither
  keeps nor counts it. Over a whole history a disabled buffer accounts for all text if and
  only if no chunk with text was refused (`CoalescerRetry.DisabledAccountsIff`,
  `RefusedTextIsKeptIff`, `DisabledLosesText`).
- **A failed removal forgets a use time.** A process that fails to write a removal has
  already dropped the device from its cache, and with it the last use it had not yet
  written. A use that only the process's memory holds is lost by that, by a restart, and by
  nothing else (`DeviceTimes.UseIsForgottenIff`, `FailedRevokeForgetsUse`).
- **A failed Create may have paired.** A Create that reports an error has listed its device
  if and only if the write went through and only the sync after it failed
  (`DeviceTimes.FailedCreatePairsIff`, `FailedCreateMayPair`).
- **A waiter may get a catalog from before an invalidation.** `Invalidate` leaves calls in
  flight alone. A caller joins a fetch of the current generation if and only if nothing was
  invalidated since that fetch was started (`CatalogCache.JoinIsFreshIff`,
  `JoinMayBeStale`).
- **Private does not always mean private.** For an owner that is SYSTEM the two wanted
  entries coincide, and `isPrivateDACL` accepts a list open to everyone; it implies
  `noForeignTrustee` for every descriptor if and only if the owner is not SYSTEM
  (`SddlProofs.PrivateMeansNobodyForeignIff`).
- **One cooldown record per directory.** Name sets that fail in turn overwrite each other's
  record. Inside a cooldown the next start of a deployment is refused if and only if it can
  read the record and everything that overwrote or removed the record was followed by a
  recorded failure of its own (`IssuanceCooldown.RefusedIffGuarding`, `OthersEvadeIff`,
  `AlternatingNamesEvade`).

## Model

| member | source | states |
|---|---|---|
| `IdentityProofs.EnsureIsAtomicReplace` | internal/certs/certs.go:126-190 | one start, cut short anywhere, leaves the files recoverable and the identity unchanged or replaced by the minted one, the latter only when there was none or it was within the renewal window; a start not cut short serves exactly the identity the files stand for and never refuses |
| `IdentityProofs.IdentityHistory` | internal/certs/certs.go:126-190 | over any number of starts with arbitrary crash points and clocks, the identity is the first one or was minted by a start that found none, or one due for renewal |
| `IdentityProofs.EarlyClockNeverRekeys` | internal/certs/certs.go:142-189 | while every clock reading is short of the renewal window, no number of crashing starts changes the identity |
| `IdentityProofs.NextRunServes` | internal/certs/certs.go:126-190 | after any crash history an uninterrupted start ends with a matching pair and never reports files that exist but cannot be loaded |
| `IdentityProofs.StagedRenewalIsCompleted` | internal/certs/certs.go:347-390 | a renewal whose two files were both staged is finished by the next start, not replaced by another |
| `IdentityProofs.PromoteKeepsEffective` | internal/certs/certs.go:374-390 | promotion, crashing anywhere, keeps the files recoverable and the identity they stand for; when it reports success both staged files are gone |
| `IdentityProofs.CleanupKeepsEffective` | internal/certs/certs.go:404-420 | orphan repair, crashing anywhere, keeps the identity, and ends with a complete live pair or none |
| `IdentityProofs.WritePairReplaces` | internal/certs/certs.go:347-370 | installing a fresh pair, crashing anywhere, moves from the old identity to the new one in one step; success leaves exactly the new pair |
| `IdentityProofs.DecideIsAtomicReplace` | internal/certs/certs.go:142-189 | load, generate or renew: the served identity, and generation exactly when warranted |
| `IdentityProofs.CleanupStaysRecoverableIff` | internal/certs/certs.go:404-420 | with operations that fail as well as crash, repair keeps the files recoverable if and only if it does not remove the orphan that would complete the install |
| `IdentityProofs.EnsureStaysRecoverableIff` | internal/certs/certs.go:126-190 | the same for a whole start, in both directions |
| `IdentityProofs.StrandedForever` | internal/certs/certs.go:126-190 | once stranded, no later start changes a file or serves, however its operations turn out |
| `IdentityProofs.StrandingExample` | internal/certs/certs.go:404-420 | from a settled pair, a renewal that dies between its two renames and then one failing rename reach that state |
| `IdentityProofs.RenewalHalfInstalled` | internal/certs/certs.go:347-370 | a renewal that dies before its second rename leaves the new key live and its certificate staged |
| `IdentityProofs.RecoverKeepsEffectiveIff` | internal/certs/certs.go:374-420 | with failing operations, promotion and repair keep the identity in force if and only if they do not remove half of a staged pair or the orphan that completes an install |
| `IdentityProofs.WritePairMintsIff` | internal/certs/certs.go:347-370 | with failing operations, an install puts the new identity in force if and only if both files were staged and not taken back |
| `IdentityProofs.EnsureKeepsIdentityIff` | internal/certs/certs.go:126-190 | with failing operations, the identity in force stays or is replaced with cause if and only if the start does not give it up, or had cause and put the new one in force; giving up always changes it |
| `IdentityProofs.CrashesNeverGiveUp` | internal/certs/certs.go:126-190 | a start that is only ever cut short gives nothing up |
| `IdentityProofs.FailingHistory` | internal/certs/certs.go:126-190 | over any number of starts that fail or die anywhere but give nothing up, the identity is the first one or was minted with cause |
| `IdentityProofs.DroppedPairExample` | internal/certs/certs.go:404-420 | from a renewal that died fully staged, two failing stats bring the expired identity back without stranding the files |
| `IdentityOutcomes.ServedIsLive` | internal/certs/certs.go:126-190 | whatever fails and wherever the process dies, an identity that is served is the live pair, loaded |
| `IdentityOutcomes.GeneratedIffInstalled` | internal/certs/certs.go:232-312 | a new identity is reported if and only if one was called for and all four operations of its install were done, and then exactly the new pair is there |
| `IdentityOutcomes.ErrorsIff` | internal/certs/certs.go:142-189 | which error: a stat or an install that failed, or, exactly, live files that could not be loaded and that no staged pair rescued |
| `IdentityOutcomes.FaultlessRefusesIff` | internal/certs/certs.go:126-190 | when nothing goes wrong on the way, from any four files, a start refuses exactly when recovery could not make a pair of them, and serves otherwise |
| `IdentityOutcomes.FailedInstallLeavesNoTrace` | internal/certs/certs.go:347-370 | a single failure before the first rename is cleaned up and the files are as before |
| `IdentityInstaller.CertDir.PromoteNewPair` | internal/certs/certs.go:374-390 | the stepwise renames compute the specified new files, script position, liveness and result |
| `IdentityInstaller.CertDir.CleanupOrphanNew` | internal/certs/certs.go:404-420 | the same for orphan repair |
| `IdentityInstaller.CertDir.WritePairAtomic` | internal/certs/certs.go:347-370 | the same for staging, renaming key then certificate |
| `IdentityInstaller.CertDir.GenerateIdentity` | internal/certs/certs.go:232-312 | the same for the decision and install part of generation |
| `IdentityInstaller.CertDir.LoadOrDecide` | internal/certs/certs.go:142-189 | the same for the load, renew, generate or refuse decision |
| `IdentityInstaller.CertDir.EnsureIdentity` | internal/certs/certs.go:126-190 | the same for a whole start, with its guarantees: recoverable unless it strands, and when only crashes occur one atomic replacement, served as it is in force |
| `CoalescerText.TextConserved` | internal/chunkbuf/chunkbuf.go:159-227 | over every history, the emitted bytes followed by the pending ones, each tagged with its chunk's type, session, agent session, replay and replace flags and native ids, are the received ones in order |
| `CoalescerText.StepConserves` | internal/chunkbuf/chunkbuf.go:159-237 | the same law for one call of Add, Drain or DrainTools |
| `CoalescerText.AlwaysValid` | internal/chunkbuf/chunkbuf.go:278-376 | in every reachable state the held updates are one per tool, none terminal, and in append mode each under the byte cap |
| `CoalescerText.ReplaceIsVerbatim` | internal/chunkbuf/chunkbuf.go:199-213 | a replacement chunk is emitted at once, unchanged and unmerged, after the pending text |
| `CoalescerText.BoundaryFlushesEverything` | internal/chunkbuf/chunkbuf.go:164-174 | after a boundary both lanes are empty, and everything received earlier was emitted before it |
| `CoalescerRuns.RunIsCoalesced` | internal/chunkbuf/chunkbuf.go:199-224 | over every history: the first chunk after a boundary goes out at once and verbatim; the chunks of a run that follow send nothing while their texts together stay below the cap; then a drain or a boundary sends exactly one event with the texts joined, and the chunk that reaches the cap sends it itself |
| `CoalescerRuns.FirstGoesOutAtOnce` | internal/chunkbuf/chunkbuf.go:199-213 | a chunk that begins a run goes out at once, after exactly what it displaces |
| `CoalescerRuns.LeadingIff` | internal/chunkbuf/chunkbuf.go:164-174 | the next chunk counts as the first of a run exactly when none came since the last boundary |
| `CoalescerRuns.SameTextSameChunks` | internal/chunkbuf/chunkbuf.go:164-197 | histories that agree without telemetry and tool updates send the same chunks and hold the same text |
| `CoalescerRuns.UpdateIsHeldIff` | internal/chunkbuf/chunkbuf.go:175-189 | an update in place sends nothing if and only if it is not final and does not fill the cap, and then it is held; otherwise exactly one event for its tool goes out; no other tool's update is touched |
| `CoalescerRuns.BlockingIff` | internal/chunkbuf/chunkbuf.go:159-227 | delivery must block exactly when a control event goes out |
| `CoalescerRuns.DeadlineIsExact` | internal/chunkbuf/chunkbuf.go:424-442 | the deadline is exactly one window after the pending text began or the tool lane became busy, whichever is earlier |
| `CoalescerErasure.ErasureKeepsChunks` | internal/chunkbuf/chunkbuf.go:164-197 | erasing all pass-through and in-place events from a history leaves the emitted chunks and the pending text unchanged |
| `CoalescerErasure.DeadlineCoversEverythingHeld` | internal/chunkbuf/chunkbuf.go:424-442 | the deadline is zero exactly when nothing is pending, and never later than one window after the first chunk of the pending run or the first update merged into anything held |
| `CoalescerTools.ToolLaneRefinesSendEverything` | internal/chunkbuf/chunkbuf.go:175-189 | for every tool, folding the emitted updates and then the held one gives the card that folding all received updates gives: non-empty fields win, text is appended or replaced |
| `CoalescerTools.LayerIsComposition` | internal/chunkbuf/chunkbuf.go:343-360 | merging two updates is the same as a client applying one after the other |
| `CoalescerTools.AddToolShows` | internal/chunkbuf/chunkbuf.go:175-189 | one in-place update, held, released or passed on, changes only what its own tool shows, and that as if it had been sent |
| `CoalescerRetry.BytesAccountedFor` | internal/chunkbuf/chunkbuf.go:243-267 | under any pattern of refused deliveries, delivered plus dropped plus pending bytes equal the received ones and pending never exceeds four times the byte cap |
| `CoalescerRetry.CutIsAtRuneStart` | internal/chunkbuf/chunkbuf.go:243-267 | the growth guard cuts at a rune start or at the end, only when over the limit, and no later than it must |
| `CoalescerRetry.DeliveryIsSubsequence` | internal/provider/acpagent/session.go:1492-1541 | while the older of two events offered together is taken, the tagged bytes delivered, and those followed by the pending ones, are a subsequence of the received ones |
| `CoalescerRetry.DisplacedRunKeepsOrderIff` | internal/provider/acpagent/session.go:1492-1541 | that condition is exact for a displaced run: order and identity are kept if and only if the older event is taken |
| `CoalescerRetry.RefusedTextIsKeptIff` | internal/chunkbuf/chunkbuf.go:243-267 | a refused chunk is kept or counted as dropped if and only if the buffer is enabled or the chunk is empty |
| `CoalescerRetry.DisabledAccountsIff` | internal/chunkbuf/chunkbuf.go:159-163 | over every history a disabled buffer holds nothing and reports no dropped byte, and what was delivered accounts for all that was sent if and only if no chunk with text was refused |
| `CoalescerRetry.DisabledLosesText` | internal/chunkbuf/chunkbuf.go:243-267 | a first chunk refused by the consumer of a disabled buffer is nowhere |
| `ChunkBuffer.Buffer.AddEvent` | internal/chunkbuf/chunkbuf.go:159-227 | the fields after the call stand for the specified state; the events out, the deadline and the blocking flag are the specified ones |
| `ChunkBuffer.Buffer.PutTool` | internal/chunkbuf/chunkbuf.go:175-189 | the tool lane of Add, on the map and the order list |
| `ChunkBuffer.Buffer.PutChunk` | internal/chunkbuf/chunkbuf.go:199-224 | the text lane of Add, on the parts and the byte count |
| `ChunkBuffer.Buffer.Hold` | internal/chunkbuf/chunkbuf.go:280-293 | map and order list after holding an update |
| `ChunkBuffer.Buffer.Release` | internal/chunkbuf/chunkbuf.go:299-312 | the update released, and both structures without it |
| `ChunkBuffer.Buffer.Take` | internal/chunkbuf/chunkbuf.go:315-332 | the merged terminal update, and both structures without it |
| `ChunkBuffer.Buffer.DrainRun` | internal/chunkbuf/chunkbuf.go:408-420 | at most one event with the joined text; the run is empty after |
| `ChunkBuffer.Buffer.DrainHeld` | internal/chunkbuf/chunkbuf.go:362-376 | the held updates in arrival order; the lane is empty after |
| `ChunkBuffer.Buffer.NextDeadline` | internal/chunkbuf/chunkbuf.go:424-442 | the earlier of the two lanes' deadlines |
| `ChunkBuffer.Buffer.PutBack` | internal/chunkbuf/chunkbuf.go:243-267 | Unflush on the fields: text in front, the cut and the number of bytes dropped |
| `DeviceProofs.FileRefinesOneList` | internal/auth/store.go:137-203 | each step of any process changes the file's devices, their order and their keys as if it worked alone on one list without a cache; a stale cache reaches only use times |
| `DeviceHistory.RunSound` | internal/auth/store.go:192-203 | in every reachable system no device is listed twice, in the file or in a cache, and only devices that were given out are listed |
| `DeviceHistory.RevokedNeverReturns` | internal/auth/store.go:256-316 | an id or token once given out and no longer listed never reappears, through no cache, flush, failed write or restart of any process |
| `DeviceHistory.RevokeIsFinal` | internal/auth/store.go:473-559 | after a successful Revoke and any further actions of anybody the id is not listed and no process accepts its token, given unique tokens at the start |
| `DeviceHistory.RunUniqueTokens` | internal/auth/store.go:281-316 | no two listed devices ever share a token, if none did at first and Create never repeats one |
| `DeviceHistory.UnlistedTokenRefused` | internal/auth/store.go:513-559 | a token no listed device carries is refused, whatever the process has cached |
| `DeviceHistory.GoneOnlyByRemoval` | internal/auth/store.go:345-409 | under any clock, one step takes a device off the file only if it is an operation that removes it and its bytes became visible |
| `DeviceHistory.LostOnlyByRemoval` | internal/auth/store.go:345-409 | over any interleaving and any clock, a device listed once and not later was taken off by such a removal in between |
| `DeviceTimes.StepNeverTakesBack` | internal/auth/store.go:153-187 | one step of any process, whatever its write does, leaves a listed device's use time where it was or later |
| `DeviceTimes.FileTimesNeverDecrease` | internal/auth/store.go:153-187 | with a clock that never runs backwards the use time in the file never decreases, over every interleaving |
| `DeviceTimes.FlushRecordsEveryUse` | internal/auth/store.go:256-269 | a use a process accepted is in the file after its next successful Flush, or the device is gone, whatever all processes did between, provided the process did not restart or fail to remove that device |
| `DeviceTimes.OwnStepCoversIff` | internal/auth/store.go:580-598 | a process's own step keeps an unwritten use if and only if it is not a failed removal of that device |
| `DeviceTimes.UseIsForgottenIff` | internal/auth/store.go:214-244 | restarts included: a use only memory holds is lost exactly by a restart that reads the file or by that failed removal |
| `DeviceTimes.OtherStepCovers` | internal/auth/store.go:153-187 | no other process's step uncovers a use |
| `DeviceTimes.ValidateCovers` | internal/auth/store.go:513-559 | an accepted token's use is recorded, in the file or in memory that knows it must write |
| `DeviceTimes.FlushShows` | internal/auth/store.go:256-269 | a successful flush has written every use the process answered for |
| `DeviceTimes.FailedRevokeForgetsUse` | internal/auth/store.go:473-507 | an instance in which a failed Revoke loses a use for good |
| `DeviceTimes.FailedCreateMayPair` | internal/fsutil/atomic.go:48-130 | an instance in which a Create that reports an error has listed its device |
| `DeviceTimes.FailedCreatePairsIff` | internal/auth/store.go:281-316 | a Create that reports an error has listed its device if and only if the write went through and only the sync failed; the process does not remember it in any case |
| `DeviceAccess.TokenAcceptedIff` | internal/auth/store.go:513-559 | a token is accepted if and only if it is not empty, a listed device carries it, the file could be locked and read, and a write that was due succeeded; what is returned is that device, used now |
| `DeviceAccess.CreatedDeviceGetsIn` | internal/auth/store.go:281-316 | after a successful Create and any further actions of anybody that did not remove the device, every process accepts its token |
| `DeviceAccess.ValidateIsDebounced` | internal/auth/store.go:535-542 | within five minutes of the last flush the file is left alone and the use kept in dirty memory; afterwards it is written |
| `DeviceAccess.CreateLists` | internal/auth/store.go:281-316 | a Create that succeeds lists its device after all the others, which keep their places and keys |
| `DeviceAccess.RevokeTakesExactlyOne` | internal/auth/store.go:473-507 | Revoke removes exactly one device, by id or, when no id matches, by name; it reports not found exactly when neither matches, and then changes nothing |
| `DeviceAccess.TwinsAreGone` | internal/auth/store.go:381-409 | afterwards no device but the kept one carries the key, and the kept one and every device with another key are still listed |
| `DeviceAccess.KeylessAreGone` | internal/auth/store.go:345-375 | pruning devices without a key removes all of them and nobody else |
| `DeviceAccess.StaleAreGone` | internal/auth/store.go:345-375 | pruning by age keeps exactly those used at the bound or later by the refreshed list, and everybody when there is no bound |
| `DeviceAccess.RemovalIsReported` | internal/auth/store.go:345-409 | a removal by rule reports exactly the devices that left the list |
| `DeviceAccess.PairingNeverChanges` | internal/auth/store.go:453-470 | no step of any process changes a device's name, token, creation time or key fingerprint, or overwrites a recorded public key |
| `DeviceAccess.BackfillRecords` | internal/auth/store.go:453-470 | a listed device without a public key has the new one afterwards, one with a key keeps it, and an unlisted id is not found |
| `DeviceAccess.OpenSeesFile` | internal/auth/store.go:214-244 | a start that succeeds sees exactly the file, created empty if missing, and owes it nothing |
| `DeviceAccess.ReadSeesFile` | internal/auth/store.go:192-203 | a reader sees the devices the file lists now, however old the cache, with use times no earlier than the file's |
| `DeviceStore.Store.SnapshotLastUsed` | internal/auth/store.go:153-164 | the pending use times of a dirty cache, none of a clean one |
| `DeviceStore.Store.MergeLastUsed` | internal/auth/store.go:168-187 | newer times are put back in place; dirty exactly when some were |
| `DeviceStore.Store.Refresh` | internal/auth/store.go:192-203 | the cache after reading the file again under the lock |
| `DeviceStore.Store.Persist` | internal/auth/store.go:580-598 | file, cache and verdict for each way a write ends |
| `DeviceStore.Store.OpenStore` | internal/auth/store.go:214-244 | file, cache and result of a start |
| `DeviceStore.Store.CreateDevice` | internal/auth/store.go:281-316 | file, cache and result, including the roll-back on error |
| `DeviceStore.Store.RevokeDevice` | internal/auth/store.go:473-507 | file, cache and result; an exact id wins over a name |
| `DeviceStore.Store.RemoveMatching` | internal/auth/store.go:345-409 | file, cache and result of Prune and RevokeByClientKeyFP, whose fingerprint is trimmed first |
| `DeviceStore.Store.ValidateToken` | internal/auth/store.go:513-559 | file, cache and result, including the debounced write |
| `DeviceStore.Store.FlushTimes` | internal/auth/store.go:256-269 | file, cache and result of a flush |
| `DeviceStore.Store.BackfillKey` | internal/auth/store.go:453-470 | file, cache and result; only an empty key is filled |
| `DeviceStore.DeleteMatching` | internal/auth/store.go:345-409 | the loop keeps and reports exactly the devices the rule keeps and removes, in order |
| `PairCodes.RedeemedAtMostSupplied` | internal/auth/paircode.go:82-250 | over every history a code is taken, plus still held, no more often than it was created or put back, whichever writes failed |
| `PairCodes.StepBalances` | internal/auth/paircode.go:82-250 | the balance for one call of Create, Take or Restore |
| `PairCodes.EveryCodeWasMinted` | internal/auth/paircode.go:82-250 | every code in the file or handed out carries exactly the stamp a Create gave it |
| `PairCodes.TakenWithinLifetime` | internal/auth/paircode.go:156-250 | every successful Take is no later than the expiry fixed at Create, which is at most the maximum lifetime after creation; Restore extends nothing |
| `PairCodes.TakeThenTake` | internal/auth/paircode.go:156-213 | a code held once cannot be taken twice |
| `PairCodes.RestoreThenTake` | internal/auth/paircode.go:217-250 | a code put back before its expiry can be taken again until then |
| `PairCodes.CreatedCanBeTaken` | internal/auth/paircode.go:82-213 | after a Create that succeeded and any actions since on other codes, a Take no later than the expiry yields that very code |
| `PairCodes.CreatedStamp` | internal/auth/paircode.go:82-131 | a created code is in the file, stamped now, with the lifetime asked for, five minutes by default and an hour at most |
| `PairCodes.StepKeeps` | internal/auth/paircode.go:82-250 | no operation but a Take of the code itself drops a code that has not expired |
| `PairCodes.TakeAnswers` | internal/auth/paircode.go:156-213 | a code held once is taken exactly in time with a good write, and reported as expired exactly afterwards |
| `PairCodes.InvalidIff` | internal/auth/paircode.go:156-213 | only a code that is not in the file is invalid |
| `PairCodes.NeverTwice` | internal/auth/paircode.go:217-250 | no code is ever in the file twice, however often it is taken and put back |
| `PairCodes.ExpiredArePurged` | internal/auth/paircode.go:307-319 | whenever Take or Create writes the file nothing expired by then is left in it |
| `PairCodes.ExpiredIsNotRestored` | internal/auth/paircode.go:217-250 | a code past its expiry is not put back |
| `PairCodeText.CodeSurvivesDisplay` | internal/auth/paircode.go:256-274 | every well-formed code survives formatting, and formatting in lower case, then normalising |
| `PairCodeText.TypedCodeIsRead` | internal/auth/paircode.go:256-265 | a code is read however it is typed: any case, with dashes, blanks and underscores anywhere |
| `PairCodeText.AlphabetIsClear` | internal/auth/paircode.go:282-305 | the alphabet has thirty-two characters, which divides 256, and none of 0, O, 1 and I |
| `PairCodeText.AlphabetAscends` | internal/auth/paircode.go:282-305 | no character stands in the alphabet twice |
| `PairCodeText.GeneratePairCode` | internal/auth/paircode.go:282-305 | the code generated is well-formed and uses each random byte without bias or rejection |
| `PairCodeText.NormalizePairCode` | internal/auth/paircode.go:256-265 | the loop drops exactly dashes, blanks and underscores |
| `PairCodeText.CheckPairCode` | internal/auth/paircode.go:156-165 | length and alphabet are accepted exactly for well-formed codes |
| `PairCodeStore.PurgeExpired` | internal/auth/paircode.go:307-319 | the filter keeps exactly the codes not past their expiry |
| `PairCodeStore.CodeFile.CreateCode` | internal/auth/paircode.go:82-131 | file and result of Create |
| `PairCodeStore.CodeFile.TakeCode` | internal/auth/paircode.go:156-213 | malformed input leaves the file alone; otherwise file and result of Take |
| `PairCodeStore.CodeFile.RestoreCode` | internal/auth/paircode.go:217-250 | file and result of Restore |
| `CatalogCache.OneFetchPerKey` | internal/picker/cache.go:79-131 | in every reachable state at most one fetch per key is under way |
| `CatalogCache.HitsAreFresh` | internal/picker/cache.go:79-106 | a hit is the successful result of a fetch for that key begun and ended in the current generation, stored less than one lifetime ago |
| `CatalogCache.PublishedIsHit` | internal/picker/cache.go:79-131 | a success published in its own generation is what every later Get for the key returns, for one lifetime, unless something is invalidated or another result for the key is published |
| `CatalogCache.LeadsIff` | internal/picker/cache.go:79-106 | a caller starts a fetch exactly when there is no hit and nobody is fetching that key |
| `CatalogCache.CancelLeavesOthers` | internal/picker/cache.go:91-97 | a caller that gives up waiting goes alone |
| `CatalogCache.SameResultForAll` | internal/picker/cache.go:79-131 | everyone who returns from a call returns its one result |
| `CatalogCache.WaiterCanFinish` | internal/picker/cache.go:112-131 | a waiter's call is closed or has its leader still on the way, and that leader's own steps let the waiter return, whatever the fetch yields |
| `CatalogCache.JoinIsFreshIff` | internal/picker/cache.go:66-106 | a caller that joins a call joins a fetch of the current generation if and only if nothing was invalidated since the step that started it |
| `CatalogCache.EveryCallWasLed` | internal/picker/cache.go:79-106 | every call was started by some step, so that condition speaks of every join |
| `CatalogCache.JoinMayBeStale` | internal/picker/cache.go:66-74 | an instance in which a caller that arrives after an invalidation returns an older result |
| `CatalogCache.AlwaysInv` | internal/picker/cache.go:66-131 | in every reachable state the table lists exactly the running calls, every entry comes from a call of the current generation, and every call not closed has its leader |
| `CatalogCache.Cache.InvalidateAll` | internal/picker/cache.go:66-74 | generation advanced, entries gone, calls in flight kept |
| `CatalogCache.Cache.Enter` | internal/picker/cache.go:79-106 | the first critical section: hit, join or lead |
| `CatalogCache.Cache.Leave` | internal/picker/cache.go:112-131 | the publishing section: own table entry removed, success stored only if the generation is unchanged |
| `FileLock.AtMostOneHolder` | internal/fsutil/lock_unix.go:29-79 | over every interleaving at most one caller is between Acquire and release |
| `FileLock.OwnershipAccountedFor` | internal/fsutil/lock_unix.go:29-79 | the kernel lock belongs to a request if and only if exactly one of: its caller holds it, it is on offer, its cleanup owes the release; a closed file never owns it |
| `FileLock.TimeoutNeverLeaks` | internal/fsutil/lock_unix.go:54-79 | from every reachable state in which a timed-out request owns the lock, its cleanup alone frees it and closes the file |
| `FileLock.HolderKeepsLock` | internal/fsutil/lock_unix.go:29-79 | a caller told it has the lock owns it until it releases it, whatever the others do |
| `FileLock.FreeLockIsGrantable` | internal/fsutil/lock_unix.go:29-79 | a free lock can be granted to any request still blocked, and is accounted for then |
| `Prewarm.NoLostWakeup` | internal/provider/prewarm.go:49-95 | over every interleaving a latched provider without live sessions has a wakeup pending, and every stop followed a live count read as zero under the mutex |
| `Prewarm.LatchIsHonoured` | internal/provider/prewarm.go:81-95 | from every such state with the mutex free, steps already pending stop and unlatch the provider |
| `Prewarm.LatchedOnlyByTurningOff` | internal/provider/prewarm.go:49-78 | only turning a provider off while it has live sessions sets the latch |
| `Prewarm.TurnedOnIsNotStopped` | internal/provider/prewarm.go:49-95 | over every interleaving a provider that was turned on is not stopped until it is turned off again |
| `Prewarm.Controller.Set` | internal/provider/prewarm.go:49-78 | the object moves as the transition system does when it turns the provider on or off without interruption, reading the live count from the session table; orders, reply, refusals that change nothing, and the latch invariant kept |
| `Prewarm.Controller.HonourLatch` | internal/provider/prewarm.go:81-95 | OnIdle stops and unlatches exactly a latched provider without live sessions, moving as the transition system does when it answers a wakeup, and keeps the latch invariant |
| `SddlProofs.VerdictMatchesReport` | internal/appdirs/security_windows.go:174-250 | for every descriptor and owner, noForeignTrustee holds if and only if foreignTrustees is empty |
| `SddlProofs.OffendersDistinct` | internal/appdirs/security_windows.go:221-250 | no trustee is reported twice |
| `SddlProofs.OffenderIsListed` | internal/appdirs/security_windows.go:221-250 | every offending entry's trustee is reported |
| `SddlProofs.ListedOffends` | internal/appdirs/security_windows.go:221-250 | everything reported is some entry's offending trustee |
| `SddlProofs.SplitRecovers` | internal/appdirs/security_windows.go:253-277 | splitDACL recovers the exact flags and entry list from any well-formed concatenation, nested parentheses included |
| `SddlProofs.ExtractRecovers` | internal/appdirs/security_windows.go:387-415 | extractDACL recovers the DACL between earlier components and an optional SACL, ignoring marks inside entries |
| `SddlProofs.SplitJoin` | internal/appdirs/security_windows.go:280-288 | splitting an entry at its separators undoes joining |
| `SddlProofs.PrivateNamesNobodyForeign` | internal/appdirs/security_windows.go:132-157 | for an owner that is not SYSTEM, isPrivateDACL implies noForeignTrustee, for every descriptor |
| `SddlProofs.OpenCountsAsPrivate` | internal/appdirs/security_windows.go:132-157 | for an owner that is SYSTEM a descriptor open to everyone passes isPrivateDACL and fails noForeignTrustee |
| `SddlProofs.PrivateMeansNobodyForeignIff` | internal/appdirs/security_windows.go:132-196 | the implication holds for all descriptors if and only if the owner is not SYSTEM |
| `SddlAccess.NobodyForeignIff` | internal/appdirs/security_windows.go:174-208 | for whole descriptors, in literal SIDs: nobody foreign is named if and only if every entry can be read and allows nothing, or the owner, S-1-5-18 or S-1-5-32-544 |
| `SddlAccess.ReportIff` | internal/appdirs/security_windows.go:221-250 | exactly the other trustees of entries that allow are reported, and "?" for entries that cannot be read |
| `SddlAccess.OffendsIff` | internal/appdirs/security_windows.go:174-196 | the same for one entry; entries that deny never matter, unreadable ones always do |
| `SddlAccess.AliasIsItsSid` | internal/appdirs/security_windows.go:305-324 | an entry spelled with an alias counts as the entry spelled with the SID it stands for |
| `SddlAccess.PrivateIff` | internal/appdirs/security_windows.go:132-157 | for an owner other than SYSTEM: private if and only if the DACL is protected and its entries give full inherited control to the owner and SYSTEM, to both, and to nobody else |
| `SddlAccess.MissingDaclIsOpen` | internal/appdirs/security_windows.go:221-250 | a descriptor without a DACL is neither private nor free of foreigners, and everyone is reported |
| `SddlChecks.FindComponent` | internal/appdirs/security_windows.go:401-415 | the depth-counting loop finds the first mark outside parentheses |
| `SddlChecks.CutDacl` | internal/appdirs/security_windows.go:387-397 | the DACL text cut out |
| `SddlChecks.SplitFlags` | internal/appdirs/security_windows.go:253-277 | the depth-counting loop yields the specified flags and entries |
| `SddlChecks.CheckNoForeign` | internal/appdirs/security_windows.go:174-196 | the early-exit loop decides noForeignTrustee |
| `SddlChecks.ListForeign` | internal/appdirs/security_windows.go:221-250 | the loop with its seen-set yields the specified report |
| `SddlChecks.CheckPrivate` | internal/appdirs/security_windows.go:132-157 | the set comparison decides isPrivateDACL |
| `IssuanceCooldown.FailuresAreSpaced` | internal/certs/acme_cooldown.go:100-187 | for one directory and one name set, any two recorded failures that are k apart in the list are at least k cooldowns apart in time |
| `IssuanceCooldown.HourHoldsAtMostFive` | internal/certs/acme_cooldown.go:100-187 | any half-open hour holds at most five recorded failures |
| `IssuanceCooldown.StepGuards` | internal/certs/acme.go:201-225 | one start keeps the last failure's record standing until its cooldown is over, and records nothing before |
| `IssuanceCooldown.RespellingDoesNotEvade` | internal/certs/acme_cooldown.go:136-157 | name lists that agree up to order after normalising are blocked alike |
| `IssuanceCooldown.NormalIgnoresCase` | internal/certs/acme_cooldown.go:86-93 | upper- or lower-casing a name does not change its normal form |
| `IssuanceCooldown.KeyIgnoresOrder` | internal/certs/acme_cooldown.go:86-93 | two name lists have one key if and only if they have the same normalised names with the same multiplicities |
| `IssuanceCooldown.RefusedIffGuarding` | internal/certs/acme_cooldown.go:100-187 | after a recorded failure and any starts since, of any deployments, the next start of this deployment inside the cooldown is refused if and only if it can read the record and everything that overwrote or removed it was followed by a recorded failure of its own |
| `IssuanceCooldown.OthersEvadeIff` | internal/certs/acme_cooldown.go:100-187 | when all starts since were of other deployments: refused if and only if none of them recorded a failure or removed the record |
| `IssuanceCooldown.OwnFailureGuardsAgain` | internal/certs/acme_cooldown.go:100-129 | an overwritten record that a failure of the deployment's own renewed guards it again |
| `IssuanceCooldown.StandsIffGuarding` | internal/certs/acme.go:201-225 | over every history the record is this deployment's own exactly while that condition holds |
| `IssuanceCooldown.RefusedIff` | internal/certs/acme_cooldown.go:136-187 | a start is refused if and only if the record can be read, is of its directory and names, is at most a minute ahead and less than twelve minutes old, and some name has no stored certificate |
| `IssuanceCooldown.RefusedHasCause` | internal/certs/acme_cooldown.go:136-187 | over any starts and any clock, a start is refused only if its own directory and names failed validation less than twelve minutes before |
| `IssuanceCooldown.FutureRecordIsDropped` | internal/certs/acme_cooldown.go:136-157 | a record from more than a minute ahead refuses nobody and does not outlive the start |
| `IssuanceCooldown.AlternatingNamesEvade` | internal/certs/acme_cooldown.go:100-129 | an instance with two name sets in which three failures are recorded within two seconds |
| `IssuanceCooldown.RecordFile.CooldownKey` | internal/certs/acme_cooldown.go:86-93 | the loop and the sort yield the key |
| `IssuanceCooldown.RecordFile.ActiveCooldown` | internal/certs/acme_cooldown.go:136-157 | the verdict, the removal of a record from the future, and that a record that cannot be read blocks nothing |
| `IssuanceCooldown.RecordFile.RefuseDuringCooldown` | internal/certs/acme_cooldown.go:172-187 | refusal exactly when the record can be read, a cooldown is active and some name has no stored certificate |
| `IssuanceCooldown.RecordFile.Begin` | internal/certs/acme.go:201-225 | record and result of a start in every branch |
| `SortedNames.SortCorrect` | internal/certs/acme_cooldown.go:86-93 | sorting yields an ordered permutation |
| `SortedNames.SortIgnoresOrder` | internal/certs/acme_cooldown.go:86-93 | two lists sort alike if and only if they are permutations of each other |
| `Base64.DecodeEncode` | internal/pairuri/pairuri.go:256-268 | decoding undoes encoding in either alphabet, and the length of the encoding |
| `Base64.DecodersAgree` | internal/pairuri/pairuri.go:259-266 | text that both alphabets decode, they decode alike |
| `Base64.SextetsComeFrom` | internal/pairuri/pairuri.go:259-266 | decoding forgets nothing but the spare bits of a short last group |
| `Base64.DigitIsTabulated` | internal/pairuri/pairuri.go:256-266 | the digits are those of tables 1 and 2 of RFC 4648 |
| `Fingerprints.EverySpellingReadsBack` | internal/pairuri/pairuri.go:245-268 | for every 32-byte digest, hex in either case, colon-hex, base64 and base64url, padded or not, with or without a label in any case, all normalise to the same wire form |
| `Fingerprints.NormalizeIsIdempotent` | internal/pairuri/pairuri.go:245-268 | of any text: what normalising yields has 43 characters, denotes the same digest and normalises to itself |
| `Fingerprints.NormalizeSeparatesDigests` | internal/pairuri/pairuri.go:245-268 | two printed fingerprints normalise alike if and only if they name the same digest |
| `Fingerprints.ReadersNeverConflict` | internal/pairuri/pairuri.go:253-266 | no text is both hex and base64, and the two alphabets never disagree, so the order of the attempts does not matter |
| `Fingerprints.ReadHexIff` | internal/pairuri/pairuri.go:253-257 | hex is read as a digest if and only if, case and separators apart, it is that digest's hex |
| `Fingerprints.ReadBase64Only` | internal/pairuri/pairuri.go:259-266 | base64 is read as a digest only if, padding, line breaks and two spare bits apart, its digits are that digest's |
| `Fingerprints.FingerprintColonHex` | internal/certs/certs.go:511-521 | the printing loop yields the colon-hex spelling |
| `PeerAddresses.SplitSchemeLoop` | internal/pairuri/pairuri.go:273-292 | the loop over the prefixes and the cut at the slash compute the specified transport and authority |
| `PeerAddresses.AddressIsClean` | internal/pairuri/pairuri.go:273-292 | a non-empty result has a known transport or none, a trimmed authority without slashes, and splits again into the same parts |
| `PeerAddresses.CleanSplits` | internal/pairuri/pairuri.go:273-292 | an address already clean is taken apart at its prefix and nowhere else |
| `PeerAddresses.TransportIsRead` | internal/pairuri/pairuri.go:273-292 | https means wss and http means ws, in any case, and a path after the authority is dropped |
| `PairUri.EncodeRoundTrips` | internal/pairuri/pairuri.go:65-217 | whatever Encode accepts, Parse reads back as the normalised payload, and encoding that gives the same link |
| `PairUri.ParseIsStable` | internal/pairuri/pairuri.go:139-217 | of anything scanned: a payload Parse returns is canonical, Encode accepts it, and its link parses to it again |
| `PairUri.UnchangedIffCanonical` | internal/pairuri/pairuri.go:65-217 | exactly the canonical payloads survive a round trip unchanged |
| `PairUri.LinkIgnoresSpelling` | internal/pairuri/pairuri.go:65-136 | the link depends on which certificate is pinned, not on how its fingerprint was spelled |
| `PairUri.LinkCarries` | internal/pairuri/pairuri.go:107-135 | which query key of a link carries which field, each alone, exactly when it is not empty, and no other key |
| `PairUri.ParseReads` | internal/pairuri/pairuri.go:161-216 | which query key each field of the payload comes from |
| `PairUri.AcceptedIff` | internal/pairuri/pairuri.go:65-217 | Encode and Parse accept the same payloads, exactly those with a known mode, a secret, a relay with its id or neither, a readable fingerprint or none, an authority, and an allowed id |
| `PairUri.SpellingOfLink` | internal/pairuri/pairuri.go:148-159 | scheme and target may be in any case, and the target may stand in the path |
| `PairUri.RelayTransport` | internal/pairuri/pairuri.go:99-106 | a relay without a transport is reached over wss |
| `PairUri.ModeInAnyCase` | internal/pairuri/pairuri.go:65-82 | the mode may be written in any case |
| `PairUri.IdCharsAre` | internal/pairuri/pairuri.go:220-236 | the characters of a host id |
| `PairLinks.EncodePayload` | internal/pairuri/pairuri.go:65-136 | every error in its order, and the query filled key by key |
| `PairLinks.ParseScanned` | internal/pairuri/pairuri.go:139-217 | every error in its order, and the payload |
| `PairLinks.ValidateHostId` | internal/pairuri/pairuri.go:220-236 | accepts exactly 1 to 128 characters of the allowed set |

## Left out

- SddlAccess.NobodyForeignIff: is about descriptors put together from upper-case entries whose trustees are SIDs, as Windows writes them; AliasIsItsSid extends it to aliases, and VerdictMatchesReport and PrivateMeansNobodyForeignIff speak of every string.
- CatalogCache.PublishedIsHit: excludes another publication for the key in between, after which the newer result is the hit.
- IdentityProofs.EnsureKeepsIdentityIff: requires that a staged certificate is for another key than the live one, which every start keeps and a directory without staged files has.
- X.509, TLS, ACME, Route 53, SHA-256, key generation and randomness: an identity is a key and an expiry, a digest or hash is a value with equality, and newly made keys, ids and tokens are parameters assumed to be new.
- Real file input and output: a file is a cell replaced atomically. Power loss that reorders renames, temporary files, permissions and directory creation are not modelled; a directory sync that fails after the rename is.
- FileLock: modelled as a transition system over the kernel, the two goroutines, the channel and the timer rather than as an object; the checks for an empty path and a non-positive timeout, and WithLock's call of its function, are not part of it. The Windows lock is a different mechanism and is not modelled.
- CatalogCache: the goroutines are a transition system over the two critical sections, which are also methods; the nil cache is not modelled.
- Prewarm: the configuration write that comes before the mutex in Set is a parameter of the method and is not ordered against other calls in the transition system; the methods are atomic, the interruptions between reading and acting are in the transition system.
- CoalescerTools.ToolLaneRefinesSendEverything: covers name, kind, status and text, the four fields that are merged forward; other fields of a superseded update are not carried by the code either.
- CoalescerRetry.DeliveryIsSubsequence: requires that the older of two events offered together is taken, which is exact by DisplacedRunKeepsOrderIff; it and BytesAccountedFor require an enabled buffer and a byte cap that is not negative.
- CoalescerRetry.DisplacedRunKeepsOrderIff: leaves out two replacement chunks in a row, whose tags may coincide, and texts too long to fit the growth limit, where bytes are dropped as well.
- DeviceTimes.FlushRecordsEveryUse: requires that the process did not restart or fail to remove the device, which is exact for its own steps by UseIsForgottenIff.
- PairCodes.TakenWithinLifetime: requires that only what Take handed out is put back, as the callers do; Claim, which is Take without the record, is not a separate operation.
- IssuanceCooldown.FailuresAreSpaced: is about one directory and one name set, with some name not yet stored and the record readable at each start; RefusedIffGuarding says exactly what happens among several. Which ACME problems count as a failed validation is a parameter.
- SddlProofs.PrivateMeansNobodyForeignIff: assumes that SIDs hold no separator or parenthesis, and treats the account lookup as an arbitrary function with such results.
- GoStrings: case mapping is exact for the letters A to Z and leaves other characters alone; Go also maps other scripts.
- PairUri: net/url is taken as an inverse pair between a link's text and its scheme, host, path and query; percent-encoding (section 2.1 of RFC 3986) is not modelled, and the two reasons a host id is refused are one error.
- Event types other than those the coalescer tells apart are grouped; the event size sums and the history ring's ranking are not modelled.
- Device names are taken as already cleaned, public keys as strings, and listing is a read; the audit log and telemetry are not modelled.
- The command line, daemon wiring, configuration loading, agent error classification, process control, model ordering and the relay are not modelled: they are input, output, vocabulary or small decision tables.

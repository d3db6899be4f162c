# pypiron: a model of its protocols and parsers

This project models the parts of pypiron whose correctness depends on more than one
function at a time, and proves what they guarantee.

**The shared quarantined set** (`Quarantine*.dfy`, `AdvisorySlot.dfy`). Every node keeps a
live set of quarantined projects with an epoch, a recorded listing etag and a flag that says
the set carries a local arm nobody has published yet. Buckets hold an epoch-stamped envelope
that is only ever changed by conditional writes. `QuarantineProtocol` models this as single
steps of nodes, buckets, publishes, polls, re-seeds and sweep walks that interleave freely;
each read of a node's live slot inside a publish is its own step, because another task may
change the slot in between. `QuarantineInvariant` is what every step keeps when publishes go
to one selected bucket, `QuarantineTheorems` and `QuarantineSight` are what follows for whole
runs, and `QuarantineFailover` and `QuarantineProvenance` are what still holds when publishes go
to any bucket. `QuarantineCalls` says how one call or poll ends, counted in its own steps, and
`QuarantineUndisturbed` what every piece of work achieves, step by enabled step, when nothing
disturbs it. `QuarantineExamples` holds the runs in which the protocol does less than its comments promise.
`AdvisorySlot` is the locked snapshot of one node, with every operation that swaps it.

**The login throttle** (`ThrottleKeys.dfy`, `LoginThrottle.dfy`, `ThrottleRuns.dfy`,
`ThrottleGuesses.dfy`, `ThrottleBounds.dfy`, `ThrottleRefusals.dfy`, `ThrottleLockouts.dfy`,
`ThrottleAddresses.dfy`, `ThrottleExamples.dfy`). A table of failure windows with reference-counted
in-flight slots, lockouts, decay, sweeps and a crowding rule that coarsens the counted network; proved
over every run of admissions and settlements: what counts as a failure, how fast failures can be
counted, who is refused and what is forgotten.

**Smaller cores.** The probe's CSV head scan and range-doubling walk (`ProbeCsv.dfy`), the
probe overlay merge (`Overlay.dfy`), the simulator's shrinker (`Shrink.dfy`) and breadcrumb
index (`Breadcrumbs.dfy`), the SCT wire format (`Sct.dfy`), the folded-header parser
(`CoreMetadata.dfy`) and the Combined Log Format printer (`AccessLog.dfy`).

## How to read the model

- Loops and locked objects of the source are methods and classes; each is proved equal to a
  specification function, and the guarantees are proved about that function.
- Storage is what the protocol relies on: atomic reads and conditional writes per key, and
  tokens that never name two different bodies (content digests and version numbers both
  qualify, so a token may come back with the same content). A conditional write that lands may
  still be reported to its caller as a conflict or as an error, and one that was sent may land
  after its caller gave up or its process died; one that does not land is reported as a conflict
  only if the token no longer matches. Nothing else writes the key.
- A run starts from a fleet that never published: fresh nodes, and each bucket's key absent or
  unreadable. A node may restart at any time and lose its slot and its in-flight work, but for the
  writes it had sent; loading the stored set at start-up is then a poll. Epochs are unbounded numbers
  kept below the 64-bit ceiling by an explicit hypothesis, because the bump saturates there.
- The durable project status is a map that any step may change.
- Clock readings, credential fingerprints, text decoding, timestamp parsing, the remote CSV file
  and the simulator's verdict on a profile are parameters, and the theorems hold for all of them
  (the six-failure bound asks for a clock that does not go back). An address is its octets or
  16-bit groups, which is all that its prefixes cut.

Where code and comments disagree, the model follows the code:

- A comment says a sweep replaces an unreadable body (src/advisories.rs:1399-1408). It does so
  exactly when it derived a non-empty set: `QuarantineFailover.SweepReplacesUnreadableIff`, with
  `QuarantineExamples.EmptySweepLeavesUnreadable` as the failing run.
- Comments say that every edit made since a sweep's base survives the merge, and that a freeze is
  never undone (src/advisories.rs:1350-1353, 1466-1470). The merge compares with the base only, so
  an edit that puts a name back to what it was at the base looks like no edit at all.
  `QuarantineTheorems.EditSurvivesIff` says exactly which sweeps an edit survives, and
  `QuarantineExamples.SweepUndoesNewerFreeze` is a run in which the newest freeze is undone.
- A comment says that judging a bucket against the node's epoch keeps an edit from being stamped
  above a set of its node's that it does not contain (src/advisories.rs:1418-1424). That fails in
  two ways. The epoch is read again for the stamp, and the node may have adopted a newer set in
  between: `QuarantineExamples.EditDropsWhatItsNodeLearned`. And with publishes on two buckets one
  epoch may have been spent on two sets, and a bucket at the node's own epoch is not behind:
  `QuarantineExamples.EditMissesForkedFreeze`. `QuarantineProvenance.BuiltOnNewestIff` says exactly
  when an edit is built on its node's pair or a newer one, and `QuarantineProvenance.ForkIff`
  exactly when an epoch is forked. With one selected bucket neither can happen:
  `QuarantineTheorems.LandedEditIsNeverStale`.
- A comment calls the overlay merge order-independent and says it prunes empty vectors
  (src/advisories.rs:1775-1777). `Overlay.MergesCommuteIff` and
  `Overlay.MergeLeavesNoEmptyEntry` say exactly when, and `Overlay.MergeOrderMatters` is the
  failing input.

## Model

| member | source | states |
|---|---|---|
| `QuarantineTheorems.OneEpochOneSet` | src/advisories.rs:1384-1547 | In every run with one selected bucket: published epochs are 1, 2, 3, ... in landing order; every readable bucket copy and every node without a pending arm holds a published pair; so no two copies anywhere hold different sets at one epoch |
| `QuarantineExamples.TwoSelectedBucketsFork` | src/advisories.rs:1500-1521 | The single selected bucket is needed: a run in which two buckets take publishes ends with different sets at epoch one |
| `QuarantineTheorems.StoredIsFoldOfEdits` | src/advisories.rs:1390-1547 | The stored set is at every moment the fold of the landed edits in landing order, and each name's membership is the last word on it, sweeps included: its last edit's, except where a sweep found it as it was at its base and derived otherwise; a single-name edit changes no other name |
| `QuarantineTheorems.OkHasAnInstant` | src/advisories.rs:1390-1547 | Every single-name publish that returns Ok has an instant inside the call at which the bucket stores the membership it decided, for a `One` the requested one |
| `QuarantineTheorems.LandedEditIsNeverStale` | src/advisories.rs:1390-1521 | With one selected bucket, whatever lands was read, decided and written with no other publish in between, really changes the stored set, and is built on a set at least as new as any node's |
| `QuarantineTheorems.DeriveWritesCurrentStatus` | src/advisories.rs:1447-1456 | A landed derive wrote the durable status as it stood at an instant of the call after which no other publish landed |
| `QuarantineCalls.StatusIsLastWritten` | src/advisories.rs:1447-1456 | The durable status such a derive reads is what was last written for its name |
| `QuarantineTheorems.SweepsMerge` | src/advisories.rs:1457-1487 | Every landed sweep, name by name: the stored membership where it differs from the sweep's base, else the derived one |
| `QuarantineTheorems.SweepKeepsIff` | src/advisories.rs:1457-1487 | A landed sweep leaves a name as stored exactly when the name has moved since its base, which was the stored set at its base epoch, or it derived the same |
| `QuarantineTheorems.EditSurvivesIff` | src/advisories.rs:1341-1357 | A landed edit of a name stays in force until the next edit of that name exactly when every sweep landing meanwhile found the name otherwise at its base or derived it the same |
| `QuarantineExamples.SweepUndoesNewerFreeze` | src/advisories.rs:1466-1487 | A run on one bucket in which a sweep undoes a freeze that landed after its base |
| `QuarantineInvariant.SweepIsMerge` | src/advisories.rs:1457-1464 | The shortcut taken when the epoch has not moved, or nothing was read, equals the three-way merge |
| `QuarantineExamples.EmptySweepLeavesUnreadable` | src/advisories.rs:1489-1496 | A run in which a sweep returns Ok and an unreadable body stays |
| `QuarantineFailover.SweepReplacesUnreadableIff` | src/advisories.rs:1489-1496 | In any run a sweep that read no usable body goes on to write exactly when it derived a non-empty set, and confirms exactly when it did not |
| `QuarantineInvariant.StepKeepsInv` | src/advisories.rs:1384-1547 | Every step of every kind keeps the invariant that ties log, buckets, tokens, nodes and in-flight calls together |
| `QuarantineInvariant.CasFindsLatest` | src/advisories.rs:1500-1521 | A landing conditional write replaces exactly the last publish, at its epoch plus one |
| `QuarantineInvariant.LoserWasOvertaken` | src/advisories.rs:1519-1521 | A conditional write that loses was overtaken by a publish that landed since its call read the bucket |
| `QuarantineCalls.ConflictRetriesOrGivesUp` | src/advisories.rs:1519-1521 | Told of a conflict, a call in flight may at once read the bucket again, if fewer than eight were reported to it since it began, counted in the steps of the run; at the eighth it returns an error |
| `QuarantineCalls.ErrorHasCause` | src/advisories.rs:1390-1547 | A call returns an error only by an abort, a write reported failed, a single-name edit of an unreadable body, or its eighth conflict |
| `QuarantineCalls.GivingUpTakesEightPublishes` | src/advisories.rs:1390-1547 | A call that a conflict makes return an error had at least eight publishes land while it ran |
| `QuarantineCalls.WalkKeepsItsBase` | src/advisories.rs:1365-1374 | However long a sweep walks, it merges against the pair stored when the walk began, empty at epoch zero where nothing was readable |
| `QuarantineUndisturbed.UndisturbedConfirm` | src/advisories.rs:1489-1496 | From any state, the steps of a single-name publish that finds its name as asked, on a bucket not behind its node, are enabled one after the other, write nothing, and offer the node what is stored |
| `QuarantineUndisturbed.UndisturbedWrite` | src/advisories.rs:1390-1547 | From any state, any other single-name publish on an absent or readable bucket ends with the edited set of the newer of bucket and node stored one epoch above both, and the node at that pair with its flag down and no etag |
| `QuarantineUndisturbed.UndisturbedWriteThrough` | src/advisories.rs:1522-1543 | The same with peers: besides, every peer whose copy is absent, unreadable or older ends with the new pair, and no other bucket changes |
| `QuarantineUndisturbed.UndisturbedEditFails` | src/advisories.rs:1404-1411 | A single-name publish onto an unreadable body returns an error and leaves everything alone |
| `QuarantineUndisturbed.UndisturbedSweepConfirm` | src/advisories.rs:1457-1496 | A sweep that nothing overtakes and that derives what is stored writes nothing |
| `QuarantineUndisturbed.UndisturbedSweepWrite` | src/advisories.rs:1457-1543 | Any other sweep that nothing overtakes stores what it derived one epoch above bucket and node, over an unreadable body too |
| `QuarantineUndisturbed.UndisturbedSeed` | src/advisories.rs:1014-1031 | From any state, a bucket whose copy is absent, unreadable or older gets the pair being seeded, and any other is left alone |
| `QuarantineUndisturbed.UndisturbedSeeds` | src/advisories.rs:990-1009 | So for a whole list of buckets, one after the other |
| `QuarantineUndisturbed.UndisturbedReseed` | src/advisories.rs:960-1031 | A node with a published pair re-seeds a bucket that lacks it |
| `QuarantineUndisturbed.SkipCostsOneBucket` | src/advisories.rs:997-1007 | A bucket that cannot be seeded is passed over and the ones after it are still to come |
| `QuarantineUndisturbed.UndisturbedArm` | src/advisories.rs:1304-1323 | In the protocol a local arm takes effect at once on its node alone: its name gets the asked membership, no other moves, epoch and etag stay, the flag goes up if anything changed |
| `QuarantineInvariant.SeedWriteFindsOlder` | src/advisories.rs:1014-1031 | A re-seed or write-through never lands on the selected bucket, carries a published pair, and replaces only an absent, unreadable or older copy |
| `QuarantineInvariant.SeedKeepsInv` | src/advisories.rs:1014-1020 | Looking at a bucket before seeding it leaves a token that names an older or unreadable copy, or nothing to do |
| `QuarantineInvariant.BeginKeepsInv` | src/advisories.rs:960-983 | A re-seed starts only from a pair that belongs together, and a sweep's base is the stored pair as the walk began |
| `QuarantineInvariant.NextPhaseOk` | src/advisories.rs:1390-1521 | Each phase of an attempt keeps what is known of its view: real, published, named by its token, not older than the call's start |
| `QuarantineInvariant.ReturnsPublished` | src/advisories.rs:1489-1496 | What a call confirms or wrote, and so adopts, is a published pair in which its edit stands |
| `QuarantineSight.NeverBlinded` | src/advisories.rs:1177-1219 | A node whose recorded listing etag is the bucket's current one is at least at the stored epoch, whatever landed between its polls' LIST, GET and adoption |
| `QuarantineSight.PollCatchesUp` | src/advisories.rs:1177-1219 | However a poll goes, other than by an abort or its node's restart, it leaves its node at or above everything stored when its LIST ran |
| `QuarantineUndisturbed.UndisturbedPoll` | src/advisories.rs:1177-1219 | From any state, a poll of a bucket whose etag has moved lists, compares, fetches and adopts, step by enabled step: the slot takes the stored pair if its epoch is higher, or equal with no other arm pending, and records the listed etag; an unmoved etag or an unreadable body changes nothing |
| `QuarantineSight.QuietPollConverges` | src/advisories.rs:1177-1219 | Once publishing stops, one poll that is not aborted makes the node hold exactly the stored epoch, and the stored set whenever it carries no pending arm |
| `QuarantineSight.StepKeepsSight` | src/advisories.rs:1280-1296 | Every step keeps each recorded etag naming a body no newer than its node |
| `QuarantineSight.AdoptRaisesEpoch` | src/advisories.rs:1267-1297 | An adoption, accepted or refused, leaves the larger epoch and records the offered etag |
| `QuarantineFailover.BucketsNeverGoBack` | src/advisories.rs:1014-1031 | With publishes on any buckets, every write to a bucket strictly raises its epoch |
| `QuarantineFailover.EditLandsAbove` | src/advisories.rs:1418-1456 | On any bucket a landed single-name edit stores the edited set directly above the higher of the bucket's epoch and its node's at the stamp, and never replaces an unreadable body |
| `QuarantineFailover.EditTrace` | src/advisories.rs:1427-1503 | For a landed single-name edit, the steps at which it took its set and was stamped: the bucket's set, or the node's if the bucket was judged behind; stored above the bucket's old epoch and the node's at the stamp |
| `QuarantineProvenance.BuiltOnNewestIff` | src/advisories.rs:1418-1503 | With no arm pending, and no two publishes that spent the base's epoch on different sets, a landed single-name edit is built on the very pair its node held at the stamp, or a newer one, exactly when the node had not gone past the edit's base by then |
| `QuarantineProvenance.RunProvenant` | src/advisories.rs:960-1031 | In every run, on any buckets, every readable copy, every node's pair without a pending arm and every pair in flight was published by a landed write at that epoch |
| `QuarantineProvenance.SeenIffPublished` | src/advisories.rs:1014-1031 | What is ever seen at an epoch, on a bucket or a node without a pending arm, is exactly what landed publishes spent that epoch on |
| `QuarantineProvenance.ForkIff` | src/advisories.rs:968-979 | An epoch ever shows two sets exactly when landed publishes spent it on different sets |
| `QuarantineExamples.EditMissesForkedFreeze` | src/advisories.rs:1427-1428 | A run in which an undisturbed edit on a bucket at its node's own epoch misses a freeze the node holds as published |
| `QuarantineExamples.EditDropsWhatItsNodeLearned` | src/advisories.rs:1427-1503 | A run in which an edit, judged before its node adopts a freeze and stamped after, drops that freeze from the bucket and the node |
| `QuarantineFailover.FallbackIsTheLiveSet` | src/advisories.rs:1427-1435 | The set an edit falls back on is the node's live set, read at or above the epoch the bucket was judged behind |
| `QuarantineFailover.CasLandsOnItsView` | src/advisories.rs:1500-1521 | A landing conditional write replaces exactly the body that was read |
| `QuarantineFailover.SeedLandsOnOlder` | src/advisories.rs:1014-1031 | On any buckets, a landing seed replaces a copy at a lower epoch |
| `AdvisorySlot.Cell.AdoptQuarantined` | src/advisories.rs:1261-1298 | The locked adoption: which offers are refused and why, and that a refusal keeps the set and epoch |
| `AdvisorySlot.Cell.ArmLocalQuarantine` | src/advisories.rs:1304-1323 | The locked arm: the name gets the asked membership, the epoch stays |
| `AdvisorySlot.Cell.ApplyProbeOverlay` | src/advisories.rs:1842-1863 | The locked probe swap, skipped when the baseline has moved |
| `AdvisorySlot.Cell.Reload` | src/advisories.rs:1092-1115 | The locked feed swap: the digest and etag become the new ones, the quarantine is carried forward, and it reports a new baseline exactly when the bytes are new |
| `AdvisorySlot.Cell.HoldFencedQuarantine` | src/advisories.rs:1551-1566 | The locked change of one fenced hold |
| `AdvisorySlot.EpochNeverDecreases` | src/advisories.rs:1267-1297 | Over every interleaving of the swaps the live epoch never goes down |
| `AdvisorySlot.FlipNeedsOppositeArm` | src/advisories.rs:1304-1323 | While the flag is up a name's membership flips only by an arm of that name the other way |
| `AdvisorySlot.ArmStands` | src/advisories.rs:1304-1323 | An arm that changed the set stands while the flag is up and no opposite arm runs |
| `AdvisorySlot.FlagFallsOnlyWithCause` | src/advisories.rs:1274-1292 | The flag falls only by adopting a strictly higher epoch or the very same set at the same epoch |
| `AdvisorySlot.OverlayMatchesBaseline` | src/advisories.rs:1078-1115 | Every overlay rule present while a snapshot is loaded came from a cycle computed against that snapshot, which stayed loaded since |
| `AdvisorySlot.OverlayIsWhatStands` | src/advisories.rs:1078-1115 | Over every interleaving of the swaps, an overlay holds a rule exactly when some aligned cycle put it in (or it was there to begin with) and since then no new bytes were loaded and no aligned cycle replaced its advisory without it; reloading the same bytes takes nothing out |
| `AdvisorySlot.SupersededIsWhatWasSeen` | src/advisories.rs:1842-1863 | The superseded ids are exactly those that aligned cycles saw since the last new bytes were loaded |
| `AdvisorySlot.SwapTouchesOnly` | src/advisories.rs:1078-1115 | Each swap leaves the parts of the snapshot that are not its own as they were |
| `Overlay.MergeOverlay` | src/advisories.rs:1778-1796 | The retain-and-push loops compute the merge that the lemmas below are about |
| `Overlay.MergeReplacesExactly` | src/advisories.rs:1778-1796 | A rule is there afterwards exactly when it was added, or was there and its id is neither re-applied nor withdrawn |
| `Overlay.MergeIsIdempotent` | src/advisories.rs:1775-1777 | Applying the same results twice is applying them once |
| `Overlay.MergeLeavesNoEmptyEntry` | src/advisories.rs:1788-1793 | No empty entry remains, exactly when there was none or the merge had something to do |
| `Overlay.MergesCommuteIff` | src/advisories.rs:1775-1777 | Two merges give a name the same rules in either order exactly when they add it the same rules for the advisories both touch |
| `Overlay.MergeOrderMatters` | src/advisories.rs:1775-1777 | Two cycles with different versions of one advisory do not commute |
| `ProbeCsv.ParseCsvHead` | src/advisories.rs:1734-1773 | The line loop computes the scan that the lemmas below are about |
| `ProbeCsv.CompleteHeadIsWholeFile` | src/advisories.rs:1734-1773 | For every file, prefix and watermark, a partial scan that reports complete equals the whole file's scan |
| `ProbeCsv.SortedFileScan` | src/advisories.rs:1730-1733 | On a newest-first file the scan finds exactly the entries newer than the watermark |
| `ProbeCsv.ScanFindsNewest` | src/advisories.rs:1757-1761 | The watermark a whole-file scan proposes is nothing exactly when every kept entry is past its horizon; else it is the time of some kept entry within its horizon and none such is newer |
| `ProbeCsv.ScanFindsIds` | src/advisories.rs:1722-1771 | The scan returns exactly the kept entries whose ids are safe in a URL path, malware ids with their times and the others apart |
| `ProbeCsv.IdsInOrder` | src/advisories.rs:1762-1770 | Each kept entry is returned once, in file order, in the list its id names |
| `ProbeCsv.EntriesInOrder` | src/advisories.rs:1746-1756 | Every well-formed line gives one entry, in file order, and no other line gives any |
| `ProbeCsv.EntryReadsBack` | src/advisories.rs:1746-1756 | A line with a timestamp, a comma and an id reads back as both, whatever white space stands around them; an unreadable timestamp gives nothing |
| `ProbeCsv.NoCommaNoEntry` | src/advisories.rs:1751-1753 | A line without a comma gives nothing |
| `ProbeCsv.HeadCompleteIff` | src/advisories.rs:1734-1760 | A head is complete exactly when it is the whole file, or one of its whole lines is an entry no newer than the watermark |
| `ProbeCsv.WalkCsv` | src/advisories.rs:1967-1989 | The walk doubles its range from 4 KiB up to 256 MiB and stops at the first answer that contains everything fresh; it returns the whole file's scan and the etag of that answer, unless the file reaches the ceiling |
| `LoginThrottle.Throttle.AdmitAt` | src/auth.rs:316-394 | The locked admission, case by case, computes the table transition the run theorems are about |
| `LoginThrottle.Throttle.ReleaseAt` | src/auth.rs:398-420 | The locked release computes the table transition the run theorems are about |
| `LoginThrottle.CountInFlight` | src/auth.rs:207-209 | Counting used slots |
| `LoginThrottle.FindSlot` | src/auth.rs:403-405 | The first used slot of a credential |
| `ThrottleKeys.KeysOf` | src/auth.rs:440-456 | Three networks, the i-th of tier i, each covering the address |
| `ThrottleKeys.CoveredIsCounted` | src/auth.rs:440-456 | An address lies in a network of another exactly when it is counted under that network too |
| `ThrottleKeys.NetworksNest` | src/auth.rs:440-456 | Addresses that share a network share every coarser one |
| `ThrottleKeys.MappedKeysAsV4` | src/auth.rs:448-449 | A v4-mapped IPv6 address has exactly the keys of the IPv4 address it carries |
| `ThrottleKeys.OthersKeyAsTheyAre` | src/auth.rs:440-456 | Any other address keys as its /32, /24 and /16, or its /64, /48 and /32 |
| `ThrottleRuns.SlotsMatchAttempts` | src/auth.rs:183-215 | In every reachable state a key's references are its outstanding attempts, credentials in use are distinct, failures plus slots stay within five, and an outstanding attempt's entry and slot are there |
| `ThrottleRuns.AdmitWindowKeeps` | src/auth.rs:358-394 | An admission adds exactly one reference when a wrong credential is admitted and drops no window with an attempt in flight |
| `ThrottleRuns.ReleaseWindowKeeps` | src/auth.rs:398-420 | A release finds its slot and takes exactly one reference off it |
| `ThrottleRuns.LockoutFindsNothingInFlight` | src/auth.rs:415-419 | A lockout engages only when an attempt on its key settles, and nothing is then in flight on it |
| `ThrottleRuns.SweepKeepsRefs` | src/auth.rs:326-338 | A sweep drops no entry with an outstanding attempt |
| `ThrottleGuesses.GuessCountsOnce` | src/auth.rs:398-420 | From the admission that makes a credential outstanding on a key to the settlement that leaves none: the last settlement counts one failure, at its own time, exactly if some settlement of the credential in between had failed; nothing earlier counts any |
| `ThrottleGuesses.FlagRemembers` | src/auth.rs:406-408 | While a credential is outstanding its slot remembers exactly whether one of its requests has failed |
| `ThrottleBounds.SixFailuresSpanTheCooldown` | src/auth.rs:316-420 | Any six failures counted on one key span at least the cooldown (up to the 64-bit ceiling, where times saturate), over every run in which a full-map sweep does not shed that key's count |
| `ThrottleExamples.SheddingBreaksTheBound` | src/auth.rs:329-338 | The condition is needed: a run in which a full-map sweep sheds four failures and the key then fails twice more within a second |
| `ThrottleAddresses.SixGuessesSpanTheCooldown` | src/auth.rs:316-420 | The same bound for an address: any six failures counted on whichever of its networks counted it at the time span the cooldown, over every run that sheds no count of its networks |
| `ThrottleAddresses.OwnGuessCounts` | src/auth.rs:324-355 | A guess settles while the key it was admitted under still counts its address, so an address's own failures are among those |
| `ThrottleBounds.LockoutTakesFiveCloseFailures` | src/auth.rs:217-221 | A lockout engages only on five failures in a row, each within the cooldown of the one before, and lasts the cooldown from the last |
| `ThrottleLockouts.LockoutLasts` | src/auth.rs:359-361 | From the step a lockout engages until it ends, whatever happens meanwhile, every request of an address it counted is refused, right or wrong, for the remaining seconds rounded up, and changes nothing |
| `ThrottleLockouts.LockoutStays` | src/auth.rs:326-338 | Meanwhile the locked key stays tracked with its end unchanged and nothing in flight, and an address it counted stays counted under it |
| `ThrottleBounds.TableStaysTiered` | src/auth.rs:325-355 | In every reachable state finest keys take at most half the cap, finest and middle ones three quarters, the table at most the cap |
| `ThrottleBounds.FullnessTakesManyNetworks` | src/auth.rs:339-344 | An untracked address is refused only with the table full after its sweep and a quarter of it distinct coarsest networks |
| `ThrottleBounds.RefusalRevealsNothing` | src/auth.rs:312-315 | From any table, a valid credential and a wrong one not in flight get the same verdict, seconds and counting key |
| `ThrottleRefusals.RefusedIff` | src/auth.rs:358-392 | In every reachable state an address of a tracked network is refused exactly when the network is locked out, or the credential is new there and unforgiven failures plus outstanding credentials make five; the network is dropped exactly when a valid credential finds it idle, unlocked and a cooldown past its last failure |
| `ThrottleRefusals.RefusalHasCause` | src/auth.rs:358-382 | Told by the failures alone: a refusal on a tracked network takes a fifth failure in a row less than a cooldown ago, or failures in a row, the last less than a cooldown ago, that make five with the credentials outstanding |
| `ThrottleRefusals.LockoutHasCause` | src/auth.rs:415-419 | Every lockout in force comes from a fifth failure in a row and ends a cooldown after it |
| `ThrottleRefusals.CrowdingChoosesNetwork` | src/auth.rs:339-344 | An untracked address is counted under its finest network below half the cap, its middle one below three quarters, its coarsest below the cap, and is refused for the cooldown in whole seconds at the cap |
| `ThrottleRefusals.NewAddressLeaves` | src/auth.rs:345-355 | A wrong credential begins a window that holds it once and nothing else; a valid one leaves only the sweep behind |
| `ThrottleRefusals.SweepForgetsIff` | src/auth.rs:325-338 | A sweep runs from half the cap and once a second, and forgets exactly the networks unlocked and with nothing outstanding whose last failure is a cooldown old, at the cap the younger ones too |
| `ThrottleRefusals.OffRefusesNobody` | src/auth.rs:318-320 | With a cooldown of zero nothing is ever tracked and nobody is refused |
| `Shrink.ShrinkSearch` | examples/vopr.rs:6976-7025 | For every oracle the search ends within a bounded number of probes; the result is the base or still fails, lies inside the base and above each dimension's floor, keeps an operation class, and is locally minimal in every dimension, the partition and every class |
| `Shrink.ShrinkAxis` | examples/vopr.rs:6987-6998 | The result differs on that axis alone, at the smallest value that still fails, or unchanged if none below the current one does |
| `Breadcrumbs.BreadcrumbIntervals` | examples/vopr.rs:5678-5715 | The index is the paired lifetimes of the markers, then of the notes, key by key in key order, each put with its delete |
| `Breadcrumbs.IndexMembers` | examples/vopr.rs:5678-5715 | The index holds exactly the paired lifetimes of every key, markers and notes |
| `Breadcrumbs.LifetimeNamesItsEnd` | examples/vopr.rs:5696-5712 | A lifetime names the kind of its breadcrumb and the deletion that ended it, with node and attempt, or none while it is live |
| `Breadcrumbs.PutsAre` | examples/vopr.rs:5678-5695 | A key's puts are exactly those of its bucket, package and kind |
| `Breadcrumbs.DelsAre` | examples/vopr.rs:5678-5695 | And so its deletions |
| `Breadcrumbs.SortNatsIsSorted` | examples/vopr.rs:5699-5700 | Sorted puts are the same numbers as often, none before a smaller one |
| `Breadcrumbs.SortDelsIsSorted` | examples/vopr.rs:5699-5701 | Sorted deletions are the same ones as often, ordered by number, attempt and node |
| `Breadcrumbs.BeforeIsLexicographic` | examples/vopr.rs:5684-5699 | Keys are visited in the order that compares them character by character |
| `Breadcrumbs.CoveringMembers` | examples/vopr.rs:5719-5724 | The filter returns exactly the lifetimes across the mutation |
| `Breadcrumbs.KeyCoveredIffPresent` | examples/vopr.rs:5675-5724 | One key has a covering lifetime exactly when replaying the effects leaves it present |
| `Breadcrumbs.CoveredIffSomePresent` | examples/vopr.rs:5675-5724 | A mutation has a covering lifetime in the index exactly when replay leaves some breadcrumb of its bucket and package present |
| `Sct.ParseSctList` | src/attest.rs:561-575 | The index loop computes the parse that the lemmas below are about |
| `Sct.ParseInvertsEncode` | src/attest.rs:580-607 | Every timestamp within its field sizes parses back from its encoding |
| `Sct.EncodeInvertsParse` | src/attest.rs:580-607 | Every accepted timestamp re-encodes to exactly its bytes |
| `Sct.EncodedBytes` | src/attest.rs:580-607 | Byte by byte: version zero, log id, timestamp, extensions with their length, the SHA-256 and ECDSA bytes, the signature with its length |
| `Sct.ListRoundTrip` | src/attest.rs:561-575 | Every encodable non-empty list parses back to itself, whatever follows it |
| `Sct.AcceptedListReencodes` | src/attest.rs:561-575 | Every accepted list is encodable and re-encodes to exactly its declared bytes |
| `Sct.SctSignedEntry` | src/attest.rs:612-625 | The pushes, with their length truncations, build the signed structure |
| `Sct.SignedEntryIsInjective` | src/attest.rs:612-625 | Within the 24-bit and 16-bit lengths and a 32-byte hash the signed bytes determine timestamp, hash, certificate and extensions |
| `Sct.SignedBytes` | src/attest.rs:612-625 | Byte by byte: version and type zero, the timestamp, entry type one, the issuer hash, a 24-bit length and the certificate, a 16-bit length and the extensions |
| `AccessLog.QuotedIsEscape` | src/app.rs:2387-2389 | The two successive replacements are one escaping pass |
| `AccessLog.LineReadsBack` | src/app.rs:2332-2382 | For every target, user, referer and agent a reader of the printed line finds exactly the intended fields, unescaped; an absent or empty host, user, size, referer or agent as a dash |
| `AccessLog.RequestSplitsBack` | src/app.rs:2375-2377 | The request field splits back into verb, target and protocol, even with spaces in the target |
| `AccessLog.DecimalReadsBack` | src/app.rs:2350-2352 | Printed numbers are digits and read back |
| `AccessLog.UserForgesNoLine` | src/app.rs:2353-2364 | No user name puts a control character into the line |
| `AccessLog.CleanDropsOnly` | src/app.rs:2353-2364 | A user name loses exactly its control characters, spaces, quotes and brackets, and keeps every other character in order |
| `CoreMetadata.SplitHeadersBody` | src/coremeta.rs:124-150 | The line loop computes the split that the lemmas below are about |
| `CoreMetadata.SplitInvertsPrint` | src/coremeta.rs:124-150 | Headers with any white space around the colon, values folded with any indentation, lines that are no headers, continuations of nothing, a blank line and any body split back to exactly the headers in order and the body, with either line ending |
| `CoreMetadata.NoBlankLineNoBody` | src/coremeta.rs:124-150 | Without a blank line everything is headers and the body is empty |
| `CoreMetadata.NoControlCharSurvives` | src/coremeta.rs:115-119 | After stripping, no header and no body carries a stripped character |
| `CoreMetadata.StripDropsOnly` | src/coremeta.rs:115-119 | Stripping drops exactly the ASCII control characters other than tab and line breaks, and keeps every other character in order |

## Left out

- HTTP handlers, middleware, start-up, metrics, the admin caches and credential pairing: plumbing, or only easy members.
- Feed download, SSRF clients, zip and JSON parsing, advisory matching and report serving: network and foreign decoders.
- Certificate, DER, JSON and signature checks in src/attest.rs: foreign cryptography; only the byte framing is modelled.
- The metadata field mapping in src/coremeta.rs that follows the header split: one easy case per field.
- The simulator's driver, fault injection, blind-consumption test and command line in examples/vopr.rs.
- Replication, leases, origin claims and the worker loop; a sweep's walk enters as the set it derived.
- The storage backends; the model uses only what the protocol relies on, and a key that an outside writer changes is not modelled.
- Fleets that start from an already published set, and epochs at the 64-bit ceiling.
- Liveness under contention: what undisturbed work achieves, and how many publishes a call's giving up takes, is proved, not that disturbances are rare.
- ThrottleBounds.SixFailuresSpanTheCooldown: a run in which a full-map sweep sheds the key's count is outside the bound (`ThrottleExamples.SheddingBreaksTheBound`), and nothing is proved about how much sooner it may then fail.
- ThrottleBounds.LockoutTakesFiveCloseFailures: stated under the same condition on full-map sweeps.
- ThrottleRefusals.RefusalHasCause: stated under the same condition on full-map sweeps; `ThrottleRefusals.RefusedIff` needs none.
- ThrottleAddresses.SixGuessesSpanTheCooldown: stated under the same condition, for each of the address's networks.
- LoginThrottle.Throttle.AdmitAt: slot references are unbounded numbers; the 32-bit counter is not modelled, nor is fingerprint hashing.
- Shrink.ShrinkSearch: axis values are unbounded numbers, so the narrowing casts of the setters are not modelled; values only go down from the base, where they fit.
- ProbeCsv.WalkCsv: the server is taken to answer a range with a prefix of its file, and lossy decoding to work line by line; the decoder itself is a parameter.
- AccessLog.LineReadsBack: the host has no space, the time no closing bracket, and verb and protocol no space, quote or backslash, as the server's own fields do.
- CoreMetadata.SplitInvertsPrint: text is characters, and a first line of a value or a key that itself begins with white space is covered only by the split function.

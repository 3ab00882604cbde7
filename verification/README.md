# Verified model of the ingress controller's distribution and state protocols

This project models, in Dafny, the hand-written protocols of a Kubernetes ingress controller with an
out-of-cluster edge fleet, and proves what they are for. Values are datatypes with pure specification
functions; objects whose methods update fields are classes whose methods are proved equal to those functions on
their abstract value; protocols are state machines whose steps are the individual reads, writes and lock
operations, with theorems over every run. What libraries decide (PEM, X.509, YAML, CEL, hashing, durations, the
epoch table) enters as parameters or abstract values; a hash that stands for content is assumed injective.

| Modules | What they model |
|---|---|
| `PurgeJournal`, `EdgePurge`, `PurgeProtocol` | the bounded purge journal, the edge's cursor, epoch table and state file, and all their runs |
| `Certificates`, `CaJobs`, `CaProtocol`, `CaRunner` | the CA Secret, the four jobs that race on it, and their retry loop |
| `Signers`, `SignerReload`, `TrustWatch` | building the signer, reloading it under a monotonic floor, long-poll watchers |
| `TrustManager`, `Fleet`, `Remint` | the core's forward-only trust and its memo, rotation end to end, the edge's re-mint coordinator |
| `WindowMath`, `WindowReals`, `SlidingWindow` | the sliding-window limiter and the wait it reports |
| `KeyEncoding`, `LimitSet` | bucket and configuration keys, swapping a set of limits while counters carry over |
| `EndpointIndex`, `EndpointWatch` | the host to pod-IP table, rebuilt in full or one host at a time by two goroutines |
| `Fingerprint`, `ConfigMaps`, `ReloadGate`, `ReloadFeatures` | fingerprint-gated reloads that keep the last good result |
| `TransformRules`, `TransformServe`, `TransformStatus` | compiling and serving request and response transforms, and the statuses a zone can emit |

`dafny verify dfyconfig.toml` checks everything.

## Where the code does less than is said of it

Each of these is stated with the exact condition under which the promise holds, and a lemma showing it fail
otherwise.

- A poll that crosses a reset of the purge journal loses nothing exactly when it flushes: when the edge's cursor is
  above the new journal's numbers, or below what it retains. Otherwise purges that the lost journal had not handed
  out yet are never applied, even at cursor 0, where the first purge is followed by a restart of the control plane
  (`PurgeProtocol.CrossingIsSafeIff`). An edge that lost its state file is told to flush only if the journal has
  trimmed something, which the comment at `edge/purge.go:219-221` does not say (`PurgeJournal.RestartFromZero`).
- A state-file write whose rename landed but whose directory sync failed leaves `persistedVer` behind the file
  (`PurgeProtocol.UnsyncedWriteLagsVersion`), and an older snapshot that still waits may then overwrite the newer
  file, against the comment at `edge/purge.go:248-253` (`PurgeProtocol.FileCanRegressIff`). This is about the
  concurrency the table promises its callers: the program itself polls from one goroutine, which writes each
  snapshot before it polls again (`cmd/edge-proxy/main.go:414-419`).
- A limiter whose clock stepped back behind its window reports a wait that holds exactly for the keys whose counts
  of both generations leave room for one more, prev + cur + 1 <= max; any other key is refused at some instant at or
  after the one it was told to wait for (`SlidingWindow.BackwardWaitHoldsIff`). A burst that fills a window reaches
  such a state (`SlidingWindow.BackwardFailureIsReached`).
- Flipping the active key without a pin reports success, with an empty bundle, on a CA that was emptied after its
  flip, although the comment at `edgecp/ca.go:394-395` rules out success on a surprise bundle; every other job
  refuses an emptied CA (`CaJobs.BlankedIsReportedOkIff`). The revocation tool always pins
  (`cmd/edge-controlplane/revoke.go:157`).
- A replica serves the newest signer in every order of observations exactly when no signer tuple comes back once
  left (`SignerReload.AlwaysLevelIff`). An operator who flips the active key back by hand makes one come back
  (`SignerReload.FlipBackServesStale`); the four jobs alone never do (`CaProtocol.TuplesNeverRecur`).
- A long-poll watcher woken on a replica that lags behind its `since` may read nothing newer than `since`
  (`TrustWatch.WakeIsNewsIffCaughtUp`).
- The verification memo is keyed by the leaf alone, while the chain check also uses the intermediates
  (`TrustManager.MemoIsFreshIff`); generation 0 replays and leaves the memo stale
  (`TrustManager.OnlyZeroReplays`, `TrustManager.ZeroGenerationGoesStale`); the restart floor is lost with its file
  (`TrustManager.RestartKeepsTheFloorIff`).
- An EndpointSlice that moves to another Service leaves the old host's route behind
  (`EndpointWatch.RelabelIsSettledIff`).
- The status of a redirect rule is not checked when a zone is compiled, while the response writer panics on one
  outside 100..999. A parsed zone emits only statuses that can be written, in every world and for every request,
  exactly when every redirect that matters leaves its status out or gives one in range; one matters if its mode is
  not shadow and no unconditional redirect that is on comes before it, by priority and then as declared
  (`TransformStatus.ParsedZoneEmitsWellIff`). Any other status is answered as written
  (`TransformStatus.RedirectAnswersAsWritten`).
- An unparsable X-Real-IP that spells the four bytes of an address shares that address's bucket
  (`KeyEncoding.IpBucketsSharedIff`, which also covers sixteen bytes; those end in eight NULs, which no header value
  can carry).

## Model

| member | source | states |
|---|---|---|
| `PurgeJournal.Validate` | edgecp/purgestore.go:95-131 | a purge is accepted exactly when its scope is known and what the scope matches on is present; it then can match something and carries the normalised host, uri and tag of the request |
| `PurgeJournal.AppendRetains` | edgecp/purgestore.go:133-145 | the journal keeps exactly the newest maxKeep records of everything ever accepted, numbered without gaps |
| `PurgeJournal.AnswerAgainstHistory` | edgecp/purgestore.go:151-184 | a flush is demanded exactly when the cursor is ahead or its next record was trimmed; any other answer is, in order and once each, exactly the flush-all and tag purges past the cursor and those host, url and prefix purges whose host the edge may serve |
| `PurgeJournal.RestartFromZero` | edge/purge.go:219-243 | an edge starting over is told to flush exactly when the journal has trimmed a record |
| `PurgeJournal.PurgeStore.Add` | edgecp/purgestore.go:95-145 | appends a validated purge with the next number and trims; a rejected one changes nothing |
| `PurgeJournal.PurgeStore.Since` | edgecp/purgestore.go:151-184 | returns the journal's answer to a cursor: without a flush, the retained purges past it that are due to the edge |
| `EdgePurge.ApplyEntriesCovers` | edge/purge.go:113-158 | applying a batch invalidates every record above the old cursor and never weakens the table |
| `EdgePurge.ApplyEntriesExactly` | edge/purge.go:113-158 | a batch moves the global mark if and only if a record past the cursor is a flush-all, and any other mark if and only if one asks for its target |
| `EdgePurge.PurgeTable.ApplyBatch` | edge/purge.go:113-136 | table, cursor and snapshot after a batch; an idle poll changes nothing |
| `EdgePurge.PurgeTable.FlushAll` | edge/purge.go:162-169 | the global mark is raised and the cursor set unconditionally, downwards too |
| `EdgePurge.PurgeTable.Write` | edge/purge.go:254-272 | a stale snapshot is dropped; otherwise the file is the snapshot and the version advances on success |
| `EdgePurge.PurgeTable.RefreshOnce` | edge/purgerefresh.go:16-49 | a poll's outcome: nothing on failure, flush on demand or on a lower maxSeq, else apply |
| `EdgePurge.PollWritesIff` | edge/purgerefresh.go:16-49 | a poll takes a snapshot to write if and only if it flushes, moves the cursor or carries a record past it, and otherwise changes nothing |
| `PurgeProtocol.NeverUnderInvalidates` | edge/purge.go:113-169 | in every run in which polls that cross a reset flush, the live table, any pending snapshot's, the file's and that of every older file a power loss may bring back invalidate every relevant purge of all earlier incarnations and of their own up to the cursor |
| `PurgeProtocol.ResetRealigns` | edgecp/purgestore.go:164-167 | a reset polled while the cursor is above the new numbers flushes, realigns the cursor and invalidates every purge of every incarnation, also those never handed out |
| `PurgeProtocol.PollCatchesUp` | edge/purgerefresh.go:16-49 | a delivered poll that flushes if it crosses a reset leaves the edge level with the journal and every purge of every incarnation invalidated |
| `PurgeProtocol.CrossingIsSafeIff` | edgecp/purgestore.go:151-184 | for every cursor, length and capacity of the new journal, a poll that crosses a reset loses no purge of any incarnation, in any run, if and only if it flushes |
| `PurgeProtocol.FileIsASnapshot` | edge/purge.go:244-272 | the file is always one snapshot of one instant, that of persistedVer unless its write landed unsynced, and the newest as soon as that was written without an error, whatever failed before |
| `PurgeProtocol.PersistedVersionIsMonotone` | edge/purge.go:254-272 | within a process persistedVer never goes back and a stale snapshot changes nothing |
| `PurgeProtocol.SyncedFileNeverRegresses` | edge/purge.go:244-272 | without an unsynced landing the file never goes back within a process, however writes interleave |
| `PurgeProtocol.UnsyncedWriteLagsVersion` | edge/purge.go:277-313 | file and persistedVer part exactly on a write that landed without its directory sync |
| `PurgeProtocol.WriteRegressesIff` | edge/purge.go:254-272 | a write puts an older snapshot over a newer file exactly when it lands with a version between persistedVer and that of the file |
| `PurgeProtocol.FileCanRegressIff` | edge/purge.go:248-272 | some next step of the process takes the file back if and only if such a version still waits |
| `PurgeProtocol.UnsyncedThenOlderRegresses` | edge/purge.go:254-272 | an unsynced landing lets every older waiting snapshot above persistedVer overwrite it |
| `Certificates.EncodeRoundTrip` | edgecp/ca.go:217-257 | encoding certificates and splitting the bundle gives them and their fingerprints back in order |
| `Certificates.BundlesSplit` | edgecp/ca.go:240-257 | a bundle splits exactly when no certificate block is broken, other blocks give nothing, and joined bundles give what they give apart |
| `Certificates.SplitCertBundle` | edgecp/ca.go:240-257 | every certificate of a bundle in order, or nothing if one does not parse |
| `Certificates.CertBundleFps` | edgecp/signer.go:386-404 | the fingerprints of the certificate blocks in order, parsed or not |
| `CaJobs.OnlyTheseWrites` | edgecp/ca.go:137-553 | on every well-shaped Secret each job proposes only its own transition: populate, widen, flip to the certificate that was pinned if one was, or trim to the pinned one |
| `CaJobs.VirginDecisions` | edgecp/ca.go:137-194 | every job's decision on a stub: bootstrap populates it, the others refuse |
| `CaJobs.SingleDecisions` | edgecp/ca.go:272-553 | every job's decision on a single CA: rotate widens it; a trim succeeds if and only if it was trimmed and the pin is its certificate; a flip is refused |
| `CaJobs.OverlapDecisions` | edgecp/ca.go:374-528 | every job's decision in an overlap: a flip writes if and only if active is old, and succeeds without a write if and only if it is new, in both cases only if no other certificate is pinned; a trim writes if and only if active is new and the new certificate is pinned |
| `CaJobs.CorruptIsRefused` | edgecp/ca.go:150-166 | on any Secret whatever, material that does not match is neither adopted nor rotated, a broken bundle is refused, and flip and trim write only a two-certificate overlap whose staged key matches |
| `CaJobs.BlankedIsFrozen` | edgecp/ca.go:150-166 | a populated Secret that was emptied from outside is never written again, and bootstrap refuses |
| `CaJobs.BlankedIsReportedOkIff` | edgecp/ca.go:394-401 | on an emptied CA a job reports success if and only if it is a flip without a pin and the CA was flipped before; it then returns an empty bundle |
| `CaJobs.JobsProceed` | edgecp/ca.go:137-553 | each job does write on the shape it is meant for |
| `CaJobs.RerunEnsure` | edgecp/ca.go:150-157 | bootstrapping again adopts the CA unchanged |
| `CaJobs.RerunInOverlap` | edgecp/ca.go:292-300 | rotating or flipping again returns the bundle unchanged |
| `CaJobs.RerunTrim` | edgecp/ca.go:484-495 | trimming again returns the trimmed bundle unchanged |
| `CaProtocol.RunInv` | edgecp/ca.go:137-553 | every interleaving of reads, compare-and-swap updates, lost acknowledgements and external blanking keeps the Secret's whole lineage well-shaped and each returned content that of a revision |
| `CaProtocol.FifthConflictFails` | edgecp/ca.go:137-194 | a write that comes too late changes nothing and is decided anew until the fifth |
| `CaProtocol.EveryRevisionIsSane` | edgecp/ca.go:137-553 | never more than two certificates, tls.key matches the first, an overlap has a staged key matching the last, the guard names the bundle |
| `CaProtocol.GuardStays` | edgecp/ca.go:30-30 | the guard is never blank again once set |
| `CaProtocol.PopulatedAtMostOnce` | edgecp/ca.go:137-194 | a virgin Secret is populated at most once |
| `CaProtocol.WritesKeepTheSigner` | edgecp/ca.go:307-336 | a write never drops the certificate that was active before it; only trimming drops one, leaving exactly the pinned new one with its key |
| `CaProtocol.SignerIsNeverOrphaned` | edgecp/ca.go:497-528 | over every run and every two adjacent populated revisions the active certificate stays, and a revision that lacks any was trimmed to exactly the active, pinned one with its own key |
| `CaProtocol.BootstrappersAgree` | edgecp/ca.go:137-194 | bootstrap jobs that succeed before any rotation all return one valid CA |
| `CaProtocol.TuplesNeverRecur` | edgecp/ca.go:272-553 | no two populated revisions of a run share a (ca_id, active fingerprint) pair |
| `CaRunner.SecretApi.UpdateSecret` | edgecp/ca.go:176-186 | an update lands only at the revision that was read; its failure may hide a landed one |
| `CaRunner.RunJob` | edgecp/ca.go:137-194 | the retry loop returns the content of a revision no older than the call in which the job's purpose is achieved; if no call failed and nobody else wrote, it fails only if the Secret is refused |
| `Signers.BuildIsUnique` | edgecp/signer.go:79-157 | a signer is built exactly when everything parses and one entry alone matches key and pin, which is its active certificate |
| `Signers.NewProvidedSignerActive` | edgecp/signer.go:79-157 | the loop computes that signer |
| `Signers.PopulatedBuilds` | edgecp/signerreload.go:175-205 | a Secret of the jobs builds exactly when populated, with the bundle and the active certificate the jobs mean |
| `SignerReload.Server.Install` | edgecp/server.go:209-223 | a generation at or below the served one is refused; an accepted swap closes the old channel and opens a new one |
| `SignerReload.Server.Reload` | edgecp/signerreload.go:122-224 | one reload over a list, keeping the last good signer on any failure and skipping an unchanged tuple |
| `SignerReload.ReloadReadsTheFirst` | edgecp/signerreload.go:122-175 | a reload depends on the first Secret of its name alone; without one, or if its resource version is no number, it changes nothing |
| `SignerReload.ReloadWatches` | edgecp/signerreload.go:122-224 | reloading from a list whose first Secret of the name is a revision is one more observation of that revision |
| `SignerReload.LevelExactly` | edgecp/signerreload.go:207-216 | one more observation leaves the served signer level with the newest buildable revision unless a stale revision above the served generation carries another tuple |
| `SignerReload.ServedIsNewest` | edgecp/signerreload.go:122-224 | without recurrence, in any order of observations the served signer has the tuple of the newest buildable revision seen |
| `SignerReload.AlwaysLevelIff` | edgecp/signerreload.go:122-224 | every order of observations serves the tuple of the newest buildable revision seen if and only if no tuple comes back once left |
| `SignerReload.ServedGenerationIsMonotone` | edgecp/server.go:209-223 | over any observations the served generation never decreases and every swap strictly raises it |
| `SignerReload.ReplicasServeTheNewestRevision` | edgecp/signerreload.go:122-224 | for every run of the jobs and every order of observations a replica serves the newest populated revision seen, at its generation |
| `SignerReload.FlipBackServesStale` | edgecp/signerreload.go:207-216 | a tuple flipped back by hand makes a replica serve the abandoned signer |
| `TrustWatch.NoLostWakeup` | edgecp/issuance.go:144-177 | in every interleaving a waiting watcher's channel is open and current exactly while its generation is served, and closed or about to be once a newer one is |
| `TrustWatch.AcceptedSwapCloses` | edgecp/server.go:209-223 | the first swap accepted after a subscription closes that channel with its next step |
| `TrustWatch.WokenReadsNewer` | edgecp/issuance.go:165-177 | a watcher woken by a close answers with a generation above the one it subscribed at |
| `TrustWatch.WakeIsNewsIffCaughtUp` | edgecp/issuance.go:144-177 | a wake-up always brings a generation above since if and only if the replica served since at the subscription |
| `TrustManager.Manager.Apply` | trust/trust.go:525-556 | a bundle is applied if and only if it is well-formed, at or above the floor and above the live generation (0 is none), and is then the live pool, generation and ca_id; any other changes nothing |
| `TrustManager.Manager.constructor` | trust/trust.go:273-305 | a process start: empty trust, and the floor of a readable cache within its age bound |
| `TrustManager.Manager.Poll` | trust/trust.go:587-645 | one turn of the loop, with the cache written best effort |
| `TrustManager.PollAdoptsIff` | trust/trust.go:525-645 | over every state a fetched bundle becomes live, and is saved, exactly then; any other changes no trust and at most refreshes the age of the file |
| `TrustManager.VerdictsTellWhy` | trust/trust.go:525-556 | which verdict a bundle that is not applied gets |
| `TrustManager.NewestOfferIsLive` | trust/trust.go:525-645 | over every session nothing is trusted until a bundle at or above the floor was fetched, and then the live pool, generation and ca_id are those of one with the greatest generation fetched |
| `TrustManager.Manager.VerifyClientCert` | trust/trust.go:425-486 | answer and memo of one verification |
| `TrustManager.FirstBootInv` | trust/trust.go:273-305 | a first start from a file that loads, or from none, satisfies the invariant the run theorems start from |
| `TrustManager.AppliedIsForward` | trust/trust.go:525-556 | over any polls, failed writes and restarts that keep the floor, an applied bundle is at or above the greatest persisted generation and above the live one; a rejected one changes nothing |
| `TrustManager.PersistedNeverRegresses` | trust/trust.go:329-348 | the generation in the cache file never goes down |
| `TrustManager.RestartKeepsTheFloorIff` | trust/trust.go:273-305 | after a restart nothing below the persisted generation can be applied if and only if the cache loads or nothing was persisted |
| `TrustManager.OnlyZeroReplays` | trust/trust.go:535-551 | an applied bundle fails to raise the generation exactly when both are 0 |
| `TrustManager.ContactKeepsTheFloor` | trust/trust.go:612-632 | a successful contact keeps the file young enough for a restart within the age bound |
| `TrustManager.MemoIsBounded` | trust/trust.go:465-486 | the memo never exceeds its cap and holds only leaves that chained to the pool of its generation |
| `TrustManager.MemoForgetsOnlyForRoom` | trust/trust.go:465-486 | under one generation the memo forgets an entry only to make room at 4096 |
| `TrustManager.MemoIsFreshIff` | trust/trust.go:425-486 | over all swaps of positive generations the memoized answer is the fresh one if and only if the chain check ignores the intermediates |
| `TrustManager.ZeroGenerationGoesStale` | trust/trust.go:436-448 | two bundles of generation 0 leave a stale positive answer |
| `Fleet.TrustedIffInSpan` | edgecp/ca.go:272-553 | a core at one revision trusts a certificate of any other exactly when its number lies in the span of its own bundle |
| `Fleet.DroppedStaysDropped` | edgecp/ca.go:463-553 | a certificate dropped from the bundle is in no later revision |
| `Fleet.NeighboursTrustEachOther` | edgecp/ca.go:260-442 | one revision of lag either way never severs an edge |
| `Fleet.RevokedStaysRevoked` | trust/trust.go:525-645 | once a core has persisted a revision without a certificate, no stale replica, failed write or floor-keeping restart makes it trust that certificate again |
| `Remint.RemintCoordinator.constructor` | edge/remint.go:44-67 | configuration defaults and a fresh coordinator |
| `Remint.Defaults` | edge/remint.go:44-67 | the default of every setting |
| `Remint.RemintCoordinator.Observe` | edge/remint.go:82-100 | the target is recorded and a mint is asked for exactly on a known mismatch |
| `Remint.RemintCoordinator.Trigger` | edge/remint.go:106-137 | a mint starts unless one is in flight or its own breaker stands |
| `Remint.RemintCoordinator.Finish` | edge/remint.go:164-210 | counters, breakers and backoff after a mint, and how long to sleep |
| `Remint.RemintCoordinator.Release` | edge/remint.go:127-134 | the end of a mint, however it ended, frees the single flight and nothing else |
| `Remint.CoordinatorFollowsHistory` | edge/remint.go:82-224 | in every run at most one mint is live; both counters, both breakers and the backoff are the declared functions of the mint history |
| `Remint.MintIsScoredAgainstLastTarget` | edge/remint.go:150-206 | in every run a mint is scored against the last target observed, and the leaf held, when it began |
| `Remint.BackoffIsCappedDoubling` | edge/remint.go:206-208 | in every run the backoff is min(base * 2^n, max) for the n failures at the end of the history, if and only if n > 0 or base <= max |
| `Remint.FailureSleeps` | edge/remint.go:206-224 | each failure sleeps at least the backoff in force and at least Retry-After |
| `Remint.TriggerStartsIff` | edge/remint.go:106-121 | a trigger is accepted exactly when no mint is live and its own breaker, read off the history, is not cooling down |
| `Remint.ObserveRestsIff` | edge/remint.go:94-99 | an observed target is left alone exactly when minting it would count as reaching it, or only the held fingerprint is unknown |
| `WindowReals.BlockedIsExact` | ratelimitrule/slidingwindow.go:137-141 | the code's weighted count over exact reals blocks exactly as the integer form does |
| `WindowReals.AfterAtIsExact` | ratelimitrule/slidingwindow.go:147-179 | the code's wait over exact reals is the integer form |
| `WindowMath.AfterIsSound` | ratelimitrule/slidingwindow.go:147-179 | if nothing more is admitted the key is admissible at every instant from now + After on |
| `WindowMath.AfterIsTight` | ratelimitrule/slidingwindow.go:147-179 | it is blocked at every instant before now + After - 1ns |
| `WindowMath.AfterIsZero` | ratelimitrule/slidingwindow.go:147-150 | the wait is 0 exactly when the key is admissible |
| `WindowMath.RetryAfterIsHonoured` | ratelimitrule/limiter.go:643-648 | the whole seconds of Retry-After suffice, and no fewer cover the wait |
| `SlidingWindow.Strategy.Advance` | ratelimitrule/slidingwindow.go:74-87 | shifts on one boundary, clears on more, ignores a backward clock |
| `SlidingWindow.Strategy.Admit` | ratelimitrule/slidingwindow.go:92-106 | one Take, its counts those of the admission log |
| `SlidingWindow.Strategy.WaitFor` | ratelimitrule/slidingwindow.go:115-132 | the wait without any change of state, 0 exactly when a Take would admit |
| `SlidingWindow.GenerationsAreBounded` | ratelimitrule/slidingwindow.go:74-106 | for any clock the stored counts are those of the log, with at most max per key and generation and 2 * max - 1 over two |
| `SlidingWindow.AdmissionsAreBounded` | ratelimitrule/slidingwindow.go:74-106 | with a nondecreasing clock the counts are those of the aligned windows, with at most max per window and 2 * max - 1 in any span of one length |
| `SlidingWindow.SpanBoundIsReached` | ratelimitrule/slidingwindow.go:92-106 | for every limit and every window of at least twice as many units, a run admits 2 * max - 1 within one span |
| `SlidingWindow.AfterIsZeroIffTakeAdmits` | ratelimitrule/slidingwindow.go:115-132 | After is 0 exactly when Take would admit, in any state |
| `SlidingWindow.WaitIsKept` | ratelimitrule/slidingwindow.go:115-132 | whatever other keys do, a Take after the reported wait is admitted, unless the clock had stepped behind the window |
| `SlidingWindow.BackwardWaitHoldsIff` | ratelimitrule/slidingwindow.go:74-132 | asked for behind the window, the wait holds for every later Take if and only if prev + cur + 1 <= max |
| `SlidingWindow.BackwardFailureIsReached` | ratelimitrule/slidingwindow.go:74-132 | after a run of Takes that fills a window, the wait reported at any instant before that window does not hold |
| `SlidingWindow.BackwardClockBreaksTheWait` | ratelimitrule/slidingwindow.go:74-87 | for every instant behind the window some counts make the Take right at the end of the wait fail |
| `KeyEncoding.BucketKey` | ratelimitrule/limiter.go:674-686 | the builder computes the newline join of the part values |
| `KeyEncoding.PartValues` | ratelimitrule/limiter.go:688-740 | what each characteristic contributes to the bucket key of a request |
| `KeyEncoding.BucketKeyIsInjective` | ratelimitrule/limiter.go:53-64 | equal bucket keys mean equal part values although the ip part may contain the separator |
| `KeyEncoding.TwoWildPartsCollide` | ratelimitrule/limiter.go:53-64 | two parts that may contain the separator would collide |
| `KeyEncoding.IpBucketsSharedIff` | ratelimitrule/limiter.go:721-734 | exactly which clients share an ip bucket |
| `KeyEncoding.CompileKeys` | ratelimitrule/limiter.go:416-492 | the loop computes the parts of a key spec and their canonical names, or rejects it |
| `KeyEncoding.PlainSpellings` | ratelimitrule/limiter.go:448-470 | what the spellings without a name ask for |
| `KeyEncoding.NamedSpellings` | ratelimitrule/limiter.go:471-486 | a header or a cookie asks for its part exactly if its name is a token |
| `KeyEncoding.OtherSpellings` | ratelimitrule/limiter.go:430-490 | anything else is refused |
| `KeyEncoding.TokensHaveNoDelimiters` | ratelimitrule/limiter.go:494-511 | a token has the visible ASCII characters but the delimiters of RFC 7230, section 3.2.6 |
| `KeyEncoding.KeysCompileIff` | ratelimitrule/limiter.go:416-492 | a spec compiles if and only if every entry is one of the spellings and nothing is asked for twice, and then into what the entries ask for in order |
| `KeyEncoding.CompiledKeysAreDistinct` | ratelimitrule/limiter.go:416-492 | an accepted spec has at least one part, none twice, at most one ip part |
| `KeyEncoding.SameNormIff` | ratelimitrule/limiter.go:471-486 | two parts are spelled the same if and only if they are the same characteristic, header names compared without case |
| `KeyEncoding.CfgKeyIsInjective` | ratelimitrule/limiter.go:377-379 | equal configuration keys mean equal canonical keys, algorithm, rate and window although names may contain the separator |
| `KeyEncoding.SameCfgKeySameBuckets` | ratelimitrule/limiter.go:234-249 | counters carried by an equal configuration key keep counting the same buckets on every request |
| `LimitSet.CollectBatch` | ratelimitrule/limiter.go:203-231 | a batch is accepted exactly when every limit compiles and no id repeats |
| `LimitSet.CarryOver` | ratelimitrule/limiter.go:233-249 | each limit takes the live strategy of its id exactly when shaped alike |
| `LimitSet.LimitCompilesIff` | ratelimitrule/limiter.go:276-393 | exactly which limits compile, and that the compiled one has the written keys, rate, window, algorithm, mode, status, message, excludes and filter, with their defaults |
| `LimitSet.Limiter.SetLimits` | ratelimitrule/limiter.go:203-273 | a batch is applied if and only if it is well written; then limit by limit the live set has the written configuration and its strategies the written rate, window and algorithm; else the old one stays |
| `LimitSet.LiveSetIsAsWritten` | ratelimitrule/limiter.go:203-273 | after any batches the live limits are those of the last well-written batch, as written and enforced as written |
| `LimitSet.LiveStrategiesFit` | ratelimitrule/limiter.go:377-393 | after any batches a live limit's strategy was made for its own algorithm, rate and window, with a positive rate and a window of one second to one hour |
| `LimitSet.StrategyIsFromLastReshape` | ratelimitrule/limiter.go:233-249 | a live limit uses the strategy created the last time its id appeared new or reshaped, live ever since |
| `LimitSet.ReapplyIsIdentity` | ratelimitrule/limiter.go:203-273 | applying an accepted batch again is the identity on limits and counters |
| `LimitSet.CountersSurviveIff` | ratelimitrule/limiter.go:97-110 | an edit keeps a limit's counters exactly when canonical keys, algorithm, rate and window are unchanged |
| `EndpointIndex.BuildHostIsInjective` | controller.go:1117-1120 | services in dot-free namespaces have different hosts; with dots they may meet |
| `EndpointIndex.HostResolvesIff` | controller.go:1246-1275 | a host resolves to exactly the addresses of endpoints not marked unready in the address slices of its service, or without any slice to those of its legacy object |
| `EndpointIndex.OneMoreEndpoint` | controller.go:1254-1267 | addresses are collected endpoint by endpoint, leaving out those marked unready |
| `EndpointIndex.AggregateIsTarget` | controller.go:1076-1100 | recomputing one service gives what a full rebuild gives its host |
| `EndpointIndex.Controller.AggregateServiceIPs` | controller.go:1076-1100 | the visit in any order collects the service's addresses, slices first, else the legacy object |
| `EndpointIndex.Controller.SetHostRoute` | route/table.go:79-91 | one host replaced or deleted, every other untouched |
| `EndpointIndex.Controller.ReloadHost` | controller.go:1044-1068 | one host recomputed, every other untouched |
| `EndpointIndex.Controller.OnSlice` | controller.go:580-603 | a slice event keeps every host equal to the rebuild, if the label did not change |
| `EndpointIndex.Controller.OnEndpoints` | controller.go:605-626 | the same for a legacy Endpoints event |
| `EndpointIndex.Controller.ReloadAll` | controller.go:977-1036 | the full rebuild, in any order of visits, gives every host its target and keeps no empty host |
| `EndpointWatch.IncrementalEqualsRebuild` | controller.go:977-1100 | in every interleaving of writes, relists and locked recomputes, a host with nothing pending equals the full rebuild |
| `EndpointWatch.RelabelIsSettledIff` | controller.go:1044-1055 | after a slice moved to another service the table is right everywhere exactly when the move was harmless to the old one |
| `Fingerprint.FingerprintDocs` | controller_waf.go:311-320 | the loop hashes the length-prefixed documents |
| `Fingerprint.PreImageIsInjective` | controller_waf.go:303-320 | the pre-image determines the list of documents, boundaries included |
| `Fingerprint.FingerprintIsInjective` | controller_waf.go:303-320 | equal fingerprints mean equal document lists, and none is empty |
| `Fingerprint.ConcatenationCollides` | controller_waf.go:303-320 | plain concatenation would not do |
| `ConfigMaps.SortedDataValues` | controller_waf.go:326-337 | the data in key order, whatever order the map is visited in |
| `ConfigMaps.SortedDataAt` | controller_waf.go:326-337 | a map gives one document for each key, in the byte order of the keys |
| `ConfigMaps.GlobalDocsAre` | controller_waf.go:186-236 | the global documents are those of the maps of the controller's namespace labelled global and nothing else, by name |
| `ConfigMaps.Gather` | controller_waf.go:186-236 | the global documents and each zone's documents do not depend on the visiting order |
| `ReloadGate.Reloader.Reload` | controller_waf.go:238-301 | one pass: live instances and fingerprints of the global set and of every zone |
| `ReloadGate.GatingIsInvisible` | controller_waf.go:238-301 | over every history of passes, what is live is what recompiling on every pass with keep-last-good gives |
| `ReloadGate.ServesLastGood` | controller_waf.go:256-297 | a zone whose edits are rejected keeps serving the very instance the last accepted pass made of its documents, on what was live then |
| `ReloadGate.NeverGoodIsEmptyOrDropped` | controller_transform.go:217-241 | a new zone that was never accepted is empty (WAF, rate limits) or dropped (transforms) |
| `ReloadGate.AbsentZonesAreDropped` | controller_waf.go:262-300 | a zone without documents in the last pass is not served |
| `ReloadGate.ServesLastGoodGlobal` | controller_waf.go:238-256 | the global set keeps what its last accepted documents made of it |
| `ReloadFeatures.WafSkipIsInvisible` | controller_waf.go:238-301 | skipping is invisible for WAF rules |
| `ReloadFeatures.WafServesLastGood` | controller_waf.go:256-297 | a zone of rules is what its last good documents compile to |
| `ReloadFeatures.WafNeverGoodIsEmpty` | controller_waf.go:268-297 | a new zone of rules that never compiled is registered without any |
| `ReloadFeatures.WafServesLastGoodGlobal` | controller_waf.go:238-256 | the global rules are what their last good documents compile to |
| `ReloadFeatures.TransformSkipIsInvisible` | controller_transform.go:185-249 | skipping is invisible for transforms, the global nil set included |
| `ReloadFeatures.TransformServesLastGood` | controller_transform.go:210-241 | a zone of transforms is what its last good documents parse to |
| `ReloadFeatures.TransformNeverGoodIsDropped` | controller_transform.go:225-241 | a new zone of transforms that never parsed is not registered |
| `ReloadFeatures.TransformServesLastGoodGlobal` | controller_transform.go:195-213 | the global transforms are what their last good documents parse to |
| `ReloadFeatures.NoGlobalTransformsIsNil` | controller_transform.go:197-202 | without global documents there is no global zone |
| `ReloadFeatures.RateLimitSkipIsInvisible` | controller_ratelimit.go:198-253 | skipping is invisible for rate limits, counters included |
| `ReloadFeatures.RateLimitServesLastGood` | controller_ratelimit.go:212-249 | a zone whose limits have been rejected since a pass keeps that pass's limits with its strategy objects and so its counters |
| `ReloadFeatures.RateLimitServesLastGoodGlobal` | controller_ratelimit.go:198-212 | the global limits and their counters are those of the last good pass |
| `ReloadFeatures.RateLimitNeverGoodIsEmpty` | controller_ratelimit.go:233-249 | a new zone whose limits were never accepted is registered without any |
| `TransformRules.Parse` | transformrule/transformrule.go:191-232 | the loops compute the compiled zone or reject everything |
| `TransformRules.ParsesIff` | transformrule/transformrule.go:191-232 | exactly when a zone comes out; then each phase is the stable arrangement of its rules |
| `TransformRules.RuleCompilesIff` | transformrule/transformrule.go:240-290 | a rule compiles if and only if its filter does, its mode is known, its phase is, and it has operations of that phase that all compile |
| `TransformRules.DocumentsConcatenate` | transformrule/transformrule.go:191-224 | the rules of documents put together are theirs apart, in order; a bad one spoils all |
| `TransformRules.EveryRuleIsInItsPhase` | transformrule/transformrule.go:191-290 | every rule of every document is in its own phase with its own filter, mode, priority and operations, there are no others, and each phase runs by priority and then in document order |
| `TransformRules.ParsedZoneIsSafe` | transformrule/transformrule.go:240-480 | a zone that comes out has no empty rule, redirects alone in theirs, valid headers, status overrides in range and no wildcard origin with credentials |
| `TransformRules.SortArranges` | transformrule/transformrule.go:225-229 | sorting orders by priority and keeps declaration order within a priority |
| `TransformRules.ArrangementIsUnique` | transformrule/transformrule.go:225-229 | there is only one such arrangement |
| `TransformServe.Matched` | transformrule/transformrule.go:519-528 | a cached match is the match on a fresh snapshot; no filter fires, an error does not |
| `TransformServe.RunRequestPhase` | transformrule/transformrule.go:530-545 | the request phase with the cached snapshot is the one that re-snapshots before every filter |
| `TransformServe.ServeHandler` | transformrule/transformrule.go:487-592 | redirect, mutated request, response operations and CORS nesting are those of the re-snapshotting meaning |
| `TransformServe.FilterDecides` | transformrule/transformrule.go:519-528 | a rule applies exactly if it is not in shadow and has no filter or one that is true of the request as it is by then; a failing filter does not apply |
| `TransformServe.ServeFromTheTop` | transformrule/transformrule.go:530-545 | serving is serving by the other rules what the first request rule leaves of the request if it applies, and the request as it is if not |
| `TransformServe.OpsFromTheLeft` | transformrule/transformrule.go:538-542 | the operations of a rule act one after the other, and a redirect ends it |
| `TransformServe.OperationsDo` | transformrule/transformrule.go:295-399 | what each operation does to path, query and headers, and that it leaves the rest alone |
| `TransformServe.ResponseRulesAppend` | transformrule/transformrule.go:547-576 | one interceptor has the operations of every response rule that applies, in order, or there is none |
| `TransformServe.CorsNests` | transformrule/transformrule.go:578-589 | the CORS rules that apply nest around it, the lowest priority outermost |
| `TransformServe.RequestOpEndToEnd` | transformrule/transformrule.go:295-399 | a document of one request operation parses if and only if it is well written, and every request is then served as it asks |
| `TransformServe.ResponseOpEndToEnd` | transformrule/transformrule.go:421-480 | the same of response operations and CORS |
| `TransformServe.StaleSnapshotDiffers` | transformrule/transformrule.go:544-544 | without dropping the snapshot after a mutation a later filter would miss it |
| `TransformServe.ShadowIsInert` | transformrule/transformrule.go:535-583 | shadow rules change nothing on any request |
| `TransformServe.Intercept` | transformrule/transformrule.go:561-574 | header edits in order and the last status override, wherever it stands |
| `TransformServe.EditsDo` | transformrule/transformrule.go:561-574 | header edits act from the first on |
| `TransformStatus.AnswersAreReached` | transformrule/transformrule.go:530-545 | every redirect that answers a request is on and not behind an unconditional one |
| `TransformStatus.ReachedAnswers` | transformrule/transformrule.go:530-545 | every such redirect answers some request in some world |
| `TransformStatus.ZoneEmitsWellIff` | transformrule/transformrule.go:530-592 | over every world and request a zone emits only statuses that can be written if and only if those of its reached redirects can be |
| `TransformStatus.ParsedZoneEmitsWellIff` | transformrule/transformrule.go:329-344 | the same of the documents: if and only if every redirect that is on, and before which by priority and declaration no unconditional one stands, leaves its status out or gives one in 100..999 |
| `TransformStatus.RedirectAnswersAsWritten` | transformrule/transformrule.go:329-344 | for every status but 0, in range or not, a one-redirect document parses and every request is answered with that status |

## Left out

- The sequence numbers, generations and versions are unbounded naturals; wrap-around at 64 bits is not modelled.
- PurgeProtocol.NeverUnderInvalidates: for runs in which polls that cross a reset flush; the code cannot notice the
  other resets, and `PurgeProtocol.CrossingIsSafeIff` shows that each of them can lose a purge.
- One edge is modelled against the journal; edges share nothing but the journal, which polls do not change.
- The epoch table of the cache library is modelled by its contract: marks per target and a global mark that only
  grow, with records possibly folded into coarser marks. Its persisted form is taken whole.
- WindowMath.AfterIsSound: exact arithmetic, for a clock that is not negative and a positive window; rounding of
  64-bit floats is not modelled. `WindowReals` connects the code's fractions to the integer form.
- The fixed-window strategy of the library is not modelled; limits that use it appear in `LimitSet` by identity.
- Cryptography, PEM and X.509 parsing, key generation, certificate lifetimes and the signer's warnings: a
  certificate is its fingerprint and public key, fresh ones have numbers never used before.
- CaProtocol.RunInv: the read-back after a successful write, whose failure only changes what the job reports, is
  in `CaRunner` and not in the interleaving machine; the file-system backend, whose update is no
  compare-and-swap, is left out, as are operator edits other than emptying the Secret.
- SignerReload.ReplicasServeTheNewestRevision: resource versions are numbered without gaps; only their order matters.
- SlidingWindow.BackwardWaitHoldsIff: for windows of more than one unit; the shortest the program accepts is one
  second, which is 10^9 of them.
- TrustWatch.NoLostWakeup: the concurrency gate for watchers, which only sheds requests, is left out.
- TrustManager.MemoIsFreshIff: verifying and applying are atomic steps; a swap between the pool load and the
  generation load is not modelled, nor is expiry of certificates.
- The doubling retry delay of the trust poller, jitter, MaybeRenew's lifetime fraction, metrics and logging.
- Remint.CoordinatorFollowsHistory: the held leaf changes only through the coordinator's own mints.
- LimitSet.Limiter.SetLimits: the exclude list and the filter of a limit are kept as text once they parse; the
  serving loop around the strategies is left out except for bucket keys and Retry-After.
- EndpointIndex.Controller.OnSlice: the order of addresses within a host, and the choice among them, are left
  out; the table holds multisets. Port and external-name routes are left out.
- EndpointWatch.IncrementalEqualsRebuild: what a recompute reads while the other goroutine writes the same host
  is taken as arbitrary, which covers every torn read; the rebuild at start-up is the first relist.
- ReloadGate.GatingIsInvisible: a pass that panics half-way is not modelled; passes are serialized by the
  reload mutex.
- TransformServe.ServeHandler: what an expression evaluates to is a function of the snapshot; timeouts and
  cancellation, which make it an error, may befall each rule by itself. The CORS middleware itself is a layer
  without behaviour, with the origins, the credentials flag and the age of its settings.
- HTTP serving, TLS, dialing, tunnelling, the proxy and the host-name helpers: plumbing over libraries.

# Overlay node agent: a verified model

This project models the node agent of an overlay-network generator, and the address allocator of its compiler, in
Dafny, and proves what their protocols keep. The agent polls a controller, verifies a signed bundle, runs its
`install.sh` as root, updates its own binary and reports telemetry; it is killed, restarted and powered off at any
point while it does so. The model is about what survives that.

`dafny verify dfyconfig.toml` checks everything. Digests, signatures, clocks, the network, file-system outcomes and
cancellation are parameters or nondeterministic choices, and where a statement rests on a digest having no collision
it says which values would collide. No proof assumes anything; what the self-update model takes for granted about the
operating system is listed with it below.

## The parts

- **Applying bundles** (`ApplyGates`, `ApplyProtocol`, `ApplySafety`, `ApplyBinding`). The gates on the durable record and
  on a candidate are functions; processes, the lease, the guardian that inherits it, the installer, saves that are lost, published or
  durable, crashes and power loss are steps of a transition system. Installs never overlap and never go back in any
  run. Two promises turn out narrower than their comments. The recorded intent does not bind until its commit is durable
  (`UnsyncedCommitAdmitsOtherAction`): it binds exactly as long as the record the node reads still carries it, through a
  power loss that undoes a published commit too (`NextStartIsBoundIff`, `SameActionNextIff`). And an interrupted apply is
  accepted again exactly when its `compiled_at` has no surrounding space and its epoch is not negative
  (`ExactRetryConverges`), because one gate trims the stamp and another does not.
- **Self-update** (`Version`, `SelfUpdate`, `SelfUpdateSafety`). The comparator is a total preorder; the swap protocol with its
  breadcrumb, backup, attempt counter and floor is a transition system with a crash after every step, over any lawful
  comparator. It takes for granted one controller-mode process, renames that succeed when their source exists, durable
  renames, and that the exec of the restored binary after a rollback ends the process (internal/agent/selfupdate.go:531-534
  would stay on the old process if it failed); a failing exec after a swap is modelled. The comment on
  `confirmed` (internal/agent/state.go:167-171) describes an older flow; the model follows
  internal/agent/selfupdate.go:406-414.
- **The controller cycle** (`ControllerCycle`). A class with the loop's mutable cursor, proved against functions. A bundle
  without a checksum is reinstalled on every wake (`InstallsOnceIffChecksummed`), and the comment that a bundle served
  during a rekey is never applied again holds exactly when it was the last one applied (`StaleBundleAfterRekey`).
- **Bundles** (`Checksums`, `BundleVerification`, `SlashPaths`, `BundlePaths`, `BundleStaging`). What verification binds, which sets
  of names pass the preflight, and what writing them leaves on disk.
- **Telemetry** (`ReplayQueue`, `ProbeWindow`, `DeviceFence`, `IcmpChecksum`). Each is a class or a step system over its lock
  regions, for every interleaving. A device row from before a removal can be shown again, as a collection error, exactly
  when one is still cached or an earlier provider can bring one (`OldRowReturnsIff`).
- **Device identities** (`DeviceFrames`, `BlockIdentity`, `BlockResolver`, `GpuRowOrder`, `GpuRows`, `GpuReport`). Identity framing,
  the passes that separate block devices, and the grouping of GPU rows.
- **Overlay addresses** (`Decimal`, `OverlayAddresses`, `OverlayAllocation`). Allocation from CIDR domains in 32-bit arithmetic. A kept
  address in a non-canonical spelling does not block its own value (`AliasIsHandedOutAgain`); that is the only exception,
  and `SharedWithAliasIff` says when it happens.
- `Common`, `Text`, `Ordering`, `Sorting`: shared values, text operations, orders and the sort.

## Model

| member | source | states |
|---|---|---|
| ApplySafety.GatesRespectLog | internal/agent/agent.go:135-248 | a candidate that passes every gate on a record protecting the log never goes behind a logged start |
| ApplySafety.GatesRespectIntent | internal/agent/apply_intent.go:117-143 | a candidate accepted on a record bound to a start has its action and anchors, and the same or newer content |
| ApplySafety.IntentIsSafe | internal/agent/apply_intent.go:148-207 | the saved intent protects all earlier starts and the start it authorizes |
| ApplySafety.SuccessIsSafe | internal/agent/agent.go:578-624 | the committed record protects every start so far |
| ApplySafety.FailureIsSafe | internal/agent/agent.go:633-668 | recording a failure loses no protection and keeps the intent |
| ApplySafety.SelfUpdateSaveIsSafe | internal/agent/agent.go:258-286 | a save that only touches self-update custody keeps protection |
| ApplySafety.StepKeepsInv | internal/agent/agent.go:97-347 | every step, crash and power loss included, keeps the protocol invariant |
| ApplySafety.InstallsAreOrdered | internal/agent/agent.go:121-326 | in every run installs never overlap and never regress in compiled_at, epoch or operator credential; any start is followed only by its own action under its anchors until a commit stands, commits undone by a power loss not counting |
| ApplySafety.RunningInstallExcludesOthers | internal/agent/installer_command_unix.go:14-40 | while an install runs, its Go parent dead or alive, nobody takes the lease, starts an install or changes the record |
| ApplySafety.LastGoodMovesAtCommit | internal/agent/agent.go:578-624 | only a published commit moves the last-good fields, and to exactly the content and policy last started |
| ApplySafety.SurvivorsAgreeUnlessUnsynced | internal/agent/state.go:201-251 | the records a power loss may reveal agree on last-good unless a commit was left unsynced |
| ApplySafety.PowerLossKeepsLastGood | internal/agent/state.go:201-251 | with every commit synced or lost, no power loss moves last-good |
| ApplySafety.RunReachesInstall | internal/agent/agent.go:97-326 | from any idle system whose record admits a candidate, a run reaches its install |
| ApplySafety.UnsyncedCommitAdmitsOtherAction | internal/agent/apply_intent.go:117-143 | a concrete run in which the opposite action starts while no commit is durable |
| ApplyBinding.NextStartIsBoundIff | internal/agent/apply_intent.go:20-143 | at every idle point of every run, whatever starts next before a power loss may follow the last start iff the record it reads still carries that start's intent or an unreadable one; the recorded node id must not be blank text, which no configuration matches |
| ApplyBinding.SameActionNextIff | internal/agent/apply_intent.go:117-143 | at every idle point of every run, only the action last started can start next before a power loss iff that record holds an intent of that action or an unreadable one |
| ApplyBinding.HeldBindsNextStart | internal/agent/agent.go:121-326 | while the visible record and what running processes hold bind a start, the next start of any run without a power loss may follow it |
| ApplySafety.PaddedInstallThenCrashIsStuck | internal/agent/apply_intent.go:20-84 | an install with a readable stamp padded by a space passes every gate, and a crash after it leaves a record nothing loads |
| ApplySafety.WedgedIntentBlocksForever | internal/agent/apply_intent.go:20-84 | with only such records on disk no run starts anything again |
| ApplySafety.ExactRetryConverges | internal/agent/apply_intent.go:20-224 | under a readable signing key an interrupted apply is accepted again from its own record iff compiled_at is unpadded and the epoch not negative |
| ApplySafety.AnchorsMayBeAdded | internal/agent/apply_intent.go:20-84 | an intent made without a signing key admits a configuration that adds one |
| Version.CompareReleaseCore | internal/version/version.go:71-94 | the field loop computes the comparison of zero-extended release cores |
| Version.ComparePrerelease | internal/version/version.go:97-118 | the identifier loop computes the pre-release comparison |
| Version.CompareIsAntisymmetric | internal/version/version.go:27-158 | the comparator is total and antisymmetric on all texts |
| Version.CompareIsTransitive | internal/version/version.go:27-158 | it is transitive, strictly when one side is strict |
| Version.EqualVersionsCompareAlike | internal/agent/selfupdate.go:46-52 | versions that compare equal are interchangeable |
| Version.LeadingVIsIgnored | internal/version/version.go:27-57 | a leading v does not change a version |
| SelfUpdate.CompareIsLawful | internal/version/version.go:27-158 | the comparator meets the laws the update protocol is proved from, the empty version being least |
| SelfUpdate.DecisionIsExactlyUpgrade | internal/agent/selfupdate.go:152-191 | the agent swaps iff the target is a strict upgrade at the floor and minimum and not the abandoned one |
| SelfUpdateSafety.StepKeepsInv | internal/agent/selfupdate.go:199-538 | every step of the swap, boot, finalize and rollback code keeps the invariant |
| SelfUpdateSafety.NeverBricked | internal/agent/selfupdate.go:301-331 | at every point the executable is whole, and with a breadcrumb it is the old build or the target with the old build whole in .bak |
| SelfUpdateSafety.BreadcrumbsAreUpgrades | internal/agent/selfupdate.go:206-218 | every breadcrumb is written with a strict upgrade above floor and minimum and not the abandoned target |
| SelfUpdateSafety.BootsAreBounded | internal/agent/selfupdate.go:357-392 | at most three boots of the target get past Phase A with the breadcrumb unresolved |
| SelfUpdateSafety.UpdateEnds | internal/agent/selfupdate.go:444-538 | a breadcrumb ends finalized with the floor raised, abandoned with the old build on disk, or dropped with nothing swapped |
| SelfUpdateSafety.SwappedCrumbSurvivesRecords | internal/agent/agent.go:603-657 | recordSuccess and recordFailure never erase the breadcrumb of a swapped binary |
| SelfUpdateSafety.FourthBootAbandons | internal/agent/selfupdate.go:487-538 | after three unresolved boots the next one restores the old build and remembers the target |
| SelfUpdateSafety.FloorMovesOnlyAtFinalize | internal/agent/selfupdate.go:444-474 | only finalization writes the floor, with the breadcrumb's target |
| SelfUpdateSafety.FloorNeverDecreases | internal/agent/selfupdate_retry.go:31-77 | over any run, on the apply and the retry path, the floor never moves down |
| ControllerCycle.Agent.RunControllerCycle | internal/agent/cycle.go:88-231 | one cycle yields the cursor, host and signals of the cycle function |
| ControllerCycle.Agent.Step | internal/agent/controller_loop.go:146-187 | one loop iteration yields the state of the step function |
| ControllerCycle.SettledStays | internal/agent/cycle.go:105-231 | once a bundle is applied with the cursor at its generation, no wake runs it again |
| ControllerCycle.AtMostOneInstall | internal/agent/cycle.go:105-231 | under every schedule a served bundle with a checksum is installed at most once more than its failed applies |
| ControllerCycle.ReachesTenantInTwoCycles | internal/agent/cycle.go:105-231 | two healthy cycles bring the cursor to the tenant generation with at most one install |
| ControllerCycle.HealthyInstallsOnce | internal/agent/cycle.go:105-231 | any number of healthy cycles install it at most once, and not at all once settled |
| ControllerCycle.NoChecksumNeverSettles | internal/agent/cycle.go:105-231 | without a checksum a lagging bundle is reinstalled on every wake |
| ControllerCycle.InstallsOnceIffChecksummed | internal/agent/cycle.go:105-231 | a lagging bundle is installed at most once iff it has a checksum |
| ControllerCycle.StaleBundleAfterRekey | internal/agent/cycle.go:105-160 | after a rekey the earlier bundle is applied again at the next bump iff it was not the last one applied |
| ControllerCycle.SeamsKeepPace | internal/agent/controller_loop.go:146-195 | over any run deferred retries are an interval apart, and the first comes a whole interval after loop start |
| ControllerCycle.FinalizesOnce | internal/agent/controller_loop.go:146-187 | after any number of cycles, failed ones included, finalize has run exactly once |
| ControllerCycle.KicksFollowInstalls | internal/agent/controller_loop.go:146-187 | the heartbeat is kicked at most once for each install |
| ReplayQueue.TelemetryReplayQueue.Enqueue | internal/agent/heartbeat_reliable.go:301-313 | appends, evicting the oldest of 32, and signals |
| ReplayQueue.TelemetryReplayQueue.RemoveFront | internal/agent/heartbeat_reliable.go:330-341 | removes exactly the front it was asked for, else nothing |
| ReplayQueue.EverySampleLeavesOnce | internal/agent/heartbeat_reliable.go:288-352 | under every interleaving the queue is the suffix of enqueued samples without a fate, at most 32 and consecutive, and only posted samples count as delivered or rejected |
| ReplayQueue.PostsAscend | internal/agent/heartbeat_reliable.go:371-429 | post attempts never go back in sequence |
| ReplayQueue.SleeperCanWake | internal/agent/heartbeat_reliable.go:371-429 | an uploader asleep while there is work has its wake-up enabled |
| ReplayQueue.LateAnswerIsHarmless | internal/agent/heartbeat_reliable.go:330-352 | the answer to an evicted sample removes no other |
| DeviceFence.StepKeepsInv | internal/agent/device_collector.go:107-233 | every step of heartbeat, worker and provider keeps the generation fence |
| DeviceFence.NothingStaleIsExposed | internal/agent/telemetry_device.go:91-211 | under every interleaving no shown value or rate baseline predates the last removal of authority; older rows show only as collection errors |
| DeviceFence.OneProviderAtATime | internal/agent/device_collector.go:107-189 | at most one platform collection runs, also across removals |
| DeviceFence.OldWorkerIsFenced | internal/agent/telemetry_device.go:135-211 | nothing a worker or provider from before the removal does reaches the snapshot, nor the baseline once it was reset; between deactivate's unlock and the reset an old provider does write the baseline |
| DeviceFence.NothingStartsBeforeReset | internal/agent/telemetry_device.go:91-133 | in that window no provider starts, only the reset ends it, and the reset clears the baseline |
| DeviceFence.OldInventoryIsShownAsError | internal/agent/device_collector.go:204-233 | a concrete run in which an older row is shown again, as a collection error |
| DeviceFence.OldRowReturnsIff | internal/agent/device_collector.go:107-247 | in every run, after a removal and while inactive, an older row can be shown again without another removal iff one is still cached or a provider in flight can bring one |
| ProbeWindow.ActiveProbeSampler.AppendCompletedSample | internal/agent/probe_runner.go:396-412 | pushes a completed attempt into the window and raises the high-water kick once |
| ProbeWindow.ActiveProbeSampler.RetainAuthorized | internal/agent/probe_runner.go:173-214 | keeps, in order, exactly the attempts the new policy authorizes |
| ProbeWindow.ActiveProbeSampler.Snapshot | internal/agent/probe_runner.go:242-263 | copies the window and re-arms the kick |
| ProbeWindow.WindowIsAuthorizedAndOrdered | internal/agent/probe_runner.go:121-337 | after any steps the window holds at most 64 authorized attempts in completion order; since the last snapshot, whatever was cleared, at most one kick was raised, and one was if 32 attempts completed |
| ProbeWindow.SnapshotMissesNothing | internal/agent/probe_runner.go:242-263 | with at most 64 completions since the last snapshot, the next contains every still-authorized one |
| ProbeWindow.FirstSurvivesIffWithinWindow | internal/agent/probe_runner.go:396-412 | of n completions the first survives iff n is at most 64 |
| IcmpChecksum.Accumulate | internal/agent/probe_runner.go:601-609 | the word loop sums the padded big-endian words modulo 2^32 |
| IcmpChecksum.FoldedTotalIsOnesSum | internal/agent/probe_runner.go:610-613 | folding a wide sum at the end is one's complement addition word by word (section 1 of RFC 1071) |
| IcmpChecksum.ComputeChecksum | internal/agent/probe_runner.go:601-614 | the result is the standard's checksum for every message of up to 65537 words, and for every message iff the accumulator's wraps cancel out |
| IcmpChecksum.StoredFieldVerifies | internal/agent/probe_runner.go:552-562 | stored in the zeroed field the checksum makes the message check out; the only other value that does is the other zero |
| IcmpChecksum.ChangedByteIsDetected | internal/agent/probe_runner.go:601-614 | no single changed byte goes unnoticed |
| Checksums.ParseChecksums | internal/agent/verify.go:37-71 | the line loop computes the listing function, or refuses |
| Checksums.ParseReadsRenderBack | internal/bundlesig/bundlesig.go:171-188 | parsing a rendered listing gives it back iff there is a path and every path is non-empty and one line |
| BundleVerification.VerifyBundle | internal/agent/verify.go:149-255 | accepts exactly the bundles whose listed files match, whose required files are listed and whose signature, when pinned, verifies |
| BundleVerification.CheckListed | internal/agent/verify.go:149-255 | the per-file loop, in any order, accepts iff every listed file matches |
| BundleVerification.VerifyMembership | internal/agent/verify.go:315-441 | with a credential accepts iff the signed list binds this bundle and its epoch reaches the floor; without one is a no-op |
| BundleVerification.ScanMembers | internal/agent/verify.go:315-441 | one scan finds this node's entry and the signed keys |
| BundleVerification.OneSignatureOneBundle | internal/agent/verify.go:149-441 | two bundles accepted under one signed list agree on every listed file and on install.sh, artifacts.json and the policies, unless they exhibit a digest collision at one path |
| BundleVerification.UnlistedFileIsNotBound | internal/agent/verify.go:149-255 | two file sets that agree on the inspected and listed files are both accepted or both refused |
| SlashPaths.CleanRelativeIffPlain | internal/agent/agent.go:510-513 | a relative path is its own cleaned form and no step up iff every component is plain |
| BundlePaths.CanonicalCheckIffSafe | internal/agent/agent.go:501-515 | the checks on one name accept exactly the names of plain components without NUL, backslash or drive |
| BundlePaths.DestinationStaysInside | internal/agent/agent.go:437-440 | an accepted name joined to any staging directory lands strictly below it |
| BundlePaths.IndexNames | internal/agent/agent.go:470-486 | the first loop indexes all names by folded form, or names an unsafe or doubled one |
| BundlePaths.FindAncestor | internal/agent/agent.go:491-496 | the ancestor walk ends and finds a file on the way up iff there is one |
| BundlePaths.CheckParents | internal/agent/agent.go:490-496 | the second loop ends without a finding only if no name lies on the way to another, and names a real clash otherwise |
| BundlePaths.ValidateBundlePaths | internal/agent/agent.go:470-499 | in any map order accepts iff every name is safe and no folded name is equal to or above another, and returns the names sorted; an error names files that do clash |
| BundleStaging.MkdirAllMakes | internal/agent/agent.go:441-446 | making directories fails iff a file is in the way and otherwise adds only what is missing |
| BundleStaging.PutWrites | internal/agent/agent.go:441-452 | one file is refused iff a file is above its place or a directory at it |
| BundleStaging.StagesIffNoParents | internal/agent/agent.go:437-453 | a list of files is written whole iff none has to be another's directory |
| BundleStaging.AcceptedOnFinerFileSystems | internal/agent/agent.go:477-480 | names accepted under case folding are accepted by every file system that tells more names apart |
| BundleStaging.AcceptedStagesInAnyOrder | internal/agent/agent.go:437-453 | an accepted bundle is written whole in any order and always leaves the same tree |
| BundleStaging.ParentClashNeverStages | internal/agent/agent.go:488-490 | a file that is another's parent is never written with it, in any order |
| BundleStaging.AliasOrderDecides | internal/agent/agent.go:477-480 | with two names for one place, the order decides the bytes |
| BundleStaging.Materialize | internal/agent/agent.go:437-453 | the write loop leaves the tree of the staging function |
| BundleStaging.Stage | internal/agent/agent.go:411-455 | staging writes iff the names are accepted, and then exactly the bundle's tree |
| DeviceFrames.FrameDeviceIdentity | internal/agent/device_collector_linux.go:1384-1395 | the buffer loop writes the frame |
| DeviceFrames.FrameInjective | internal/agent/device_collector_linux.go:1384-1395 | frames with NUL-free namespaces and any parts are equal only if namespace and parts are |
| DeviceFrames.SeriesPreimageInjective | internal/devicemetric/metric.go:132-140 | the bytes hashed into a series id determine kind and identity |
| BlockIdentity.CanonicalInjective | internal/agent/device_collector_linux.go:344-376 | identities of different kinds or content have different canonical forms |
| BlockIdentity.NoTwins | internal/agent/device_collector_linux.go:396-418 | after one round of refreshing and separating, refreshing again brings no two devices together |
| BlockResolver.IndexByPath | internal/agent/device_collector_linux.go:332-335 | every device is found by its own path |
| BlockResolver.CountSeries | internal/agent/device_collector_linux.go:421-429 | the counts are those of the ids in use |
| BlockResolver.FirstIdentity | internal/agent/device_collector_linux.go:336-381 | the identity a device starts from is one it can own: its strongest attribute, its parent's id and its number, or its place |
| BlockResolver.Resolver.Resolve | internal/agent/device_collector_linux.go:336-381 | resolves parents first, keeps what has an id, and uncancelled gives exactly the starting identity |
| BlockResolver.Resolver.Rekey | internal/agent/device_collector_linux.go:391-400 | whole devices that share an id, and only they, fall back |
| BlockResolver.Resolver.SeparateDuplicates | internal/agent/device_collector_linux.go:402-407 | devices that share an id, and only they, fall back |
| BlockResolver.Resolver.Refresh | internal/agent/device_collector_linux.go:431-449 | derives a partition's id after its parent's without disturbing finished ones |
| BlockResolver.Resolver.RecomputePartitions | internal/agent/device_collector_linux.go:431-452 | afterwards every partition's id follows its parent's and nothing else changed |
| BlockResolver.LastPassIsIdle | internal/agent/device_collector_linux.go:411-418 | barring a digest collision the last separation changes nothing |
| BlockResolver.StrongIffUncontested | internal/agent/device_collector_linux.go:387-407 | a device keeps its strong identity iff no other contests it |
| BlockResolver.Resolver.ResolveIdentities | internal/agent/device_collector_linux.go:331-419 | cancelled anywhere or not, barring a collision among the identities hashed, no two devices end with one id and every partition follows the id its parent ends with; uncancelled all are resolved and strong identities survive iff uncontested |
| GpuRowOrder.RowLessIsCompare | internal/agent/device_collector_linux.go:1054-1089 | the sort's test is the strict part of a three-way order |
| GpuRowOrder.RowOrder | internal/agent/device_collector_linux.go:1054-1089 | that order is total and transitive |
| GpuRowOrder.KeyDeterminesParsedRow | internal/agent/device_collector_linux.go:944-954 | rows as parsed that tie in the order are equal |
| Sorting.Sort | internal/agent/device_collector_linux.go:997 | the insertion loop computes the sort function |
| Sorting.SortSorts | internal/agent/device_collector_linux.go:1054-1089 | under any weak order the result is sorted |
| Sorting.SortPermutes | internal/agent/device_collector_linux.go:1032 | the result is a permutation of the input |
| GpuRows.Explore | internal/agent/device_collector_linux.go:1005-1016 | the work list ends with every neighbour of a marked row marked |
| GpuRows.ComponentIsGroup | internal/agent/device_collector_linux.go:1005-1016 | the work list is exactly the connected group of its start |
| GpuRows.Choose | internal/agent/device_collector_linux.go:1017-1029 | the group's first row is chosen, without readings iff another differs |
| GpuRows.MergeGroups | internal/agent/device_collector_linux.go:998-1031 | one pass reports every connected group once, from its first row, and flags a conflict iff a group disagrees |
| GpuRows.NormalizeRows | internal/agent/device_collector_linux.go:996-1034 | sort, merge and sort again compute the report and the conflict flag, for all rows |
| GpuReport.ReportIsNormalized | internal/agent/device_collector_linux.go:996-1034 | for rows with an identity the report is strictly sorted and stands for each group once, with the conflict flag set iff a group disagrees |
| GpuReport.ReportsShareNothing | internal/agent/device_collector_linux.go:1036-1039 | no two reported rows share a uuid or PCI address |
| GpuReport.EveryRowIsReported | internal/agent/device_collector_linux.go:1017-1031 | every row is accounted for by its group's report: equal to it when the group agrees, without readings when it does not |
| GpuReport.ParsedRowsInAnyOrder | internal/agent/device_collector_linux.go:930-993 | two lists of the same parsed rows, in any order and with any repetition, have the same report and conflict flag |
| GpuReport.OrderIrrelevantIffLeastUnique | internal/agent/device_collector_linux.go:996-1034 | all orders of a list give one report iff every group has one first row |
| GpuReport.CaptionsMakeOrderMatter | internal/agent/device_collector_linux.go:1054-1077 | two rows that differ only in their label are reported differently in the two orders |
| OverlayAddresses.RenderInjective | internal/allocator/ip.go:235-247 | distinct addresses have distinct dotted texts |
| OverlayAddresses.NetworkFits | internal/allocator/ip.go:144-178 | the last address of a network is still a 32-bit word |
| OverlayAddresses.AllocateFromCIDR | internal/allocator/ip.go:122-229 | the candidate scan computes the first free address, the refusal, or is cancelled |
| OverlayAddresses.AllocateIPs | internal/allocator/ip.go:50-118 | the three passes compute the allocation function, or are cancelled |
| OverlayAllocation.AllocatedIsLeastFree | internal/allocator/ip.go:144-229 | the address handed out is assignable, unreserved, unused and the least such |
| OverlayAllocation.ExhaustedIffAllUsed | internal/allocator/ip.go:144-229 | exhaustion is reported iff every assignable unreserved address is in use |
| OverlayAllocation.EnoughHostsSuffice | internal/allocator/ip.go:144-229 | with more unreserved hosts than addresses in use a domain is never exhausted |
| OverlayAllocation.FreshAddressesAreDistinct | internal/allocator/ip.go:60-116 | addresses inside their CIDR never change; every other node gets the least free address of its turn, a text no other node has |
| OverlayAllocation.SharedOnlyWithAlias | internal/allocator/ip.go:84-116 | a fresh address is shared only with a kept one in non-canonical spelling |
| OverlayAllocation.SharedWithAliasIff | internal/allocator/ip.go:84-116 | a fresh node shares the value of a kept non-canonical address iff that value is the next free one of its domain at its turn |
| OverlayAllocation.AliasIsHandedOutAgain | internal/allocator/ip.go:84-116 | a concrete topology where that happens |
| OverlayAllocation.AllocationIsIdempotent | internal/allocator/ip.go:50-118 | allocating over the result changes nothing |
| OverlayAllocation.AppendingIsStable | internal/allocator/ip.go:50-118 | appending nodes without addresses changes no earlier node |
| OverlayAllocation.AllocationSucceeds | internal/allocator/ip.go:50-118 | domains with at least as many unreserved hosts as the topology has nodes always suffice |

## Left out

- HTTP handlers, sessions, passkeys and settings under internal/api, and the controller's store.
- The compiler, renderer, validator and local-compile packages other than address allocation.
- Real cryptography, PEM and certificate parsing: digests, signature checks and trust-list decoding are function parameters.
- WireGuard configuration parsing: the set of peer keys a bundle mentions is a parameter of membership verification.
- JSON encoding of the durable record: the record is a value, and an unreadable stamp or key is a constructor.
- File permissions, ownership and Windows paths: paths are slash-separated, and staging starts from a fresh directory without I/O errors.
- Unicode: case folding and trimming are ASCII except in bundle names, where the fold is any function that keeps slash and dot.
- In-place update by concurrent goroutines: the apply, self-update, device-fence, replay and probe protocols are steps over values, one step for each lock region or durable write; the replay queue, probe sampler, controller loop and block resolver are also classes.
- A guardian killed by itself while install.sh keeps running, which the operating system does not tell the agent about.
- Power loss during self-update, two controller-mode processes at once, and a failing exec of the binary restored by a rollback.
- Telemetry retry delays, capability negotiation, metric admission and the wrap of 64-bit sequence numbers.
- Sorting.Sort: sorts by insertion, keeping ties in order, as the program's library sort does for up to 12 elements; for longer lists that sort may order ties differently.
- GpuReport.ReportIsNormalized: is for rows with a uuid or PCI address, which are the only ones the parser passes on; readings are compared by their decimal text.
- BlockResolver.Resolver.Resolve: leaves out the guard against parent cycles, which a partition's parent path, always shorter than its own, rules out.
- BlockResolver.Resolver.ResolveIdentities: requires distinct device paths, and its first two clauses speak of digest collisions among the identities hashed in that run.
- Reading CSV, sysfs attributes and device links: the values read are parameters.

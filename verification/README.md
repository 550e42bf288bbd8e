# Velox control plane: a verified model of its decision code

The control plane keeps its decisions free of cluster calls. This project models
those decisions in Dafny and proves what they promise over whole runs, with the
cluster (API server, operator, OpenSearch, clocks) as an environment that may do
anything the cited code allows it to do.

- **The admin-password reset.** `AdminReset` holds the rules (gate, marker,
  backstop), `SecretPatch` what the merge patches do to the Secret, `ResetRuns` the
  marker under arbitrary polls, `ResetProtocol` the whole protocol as a state machine
  (requests, backstop passes, Jobs, with every write free to fail), `ResetWatch` the
  bridge from the protocol to the polls, `ResetVerdicts` what a seen success is worth,
  `ResetAgreement` whether the password to go back to is one that works, `ResetRetry` when
  a retry still happens.
- **The collectors.** `AgentConfig` rewrites a Fluent Bit config line by line,
  `ConfigLines` says what that does to lines written out, `TailerExclusion` which tailers
  the exclusion reaches and `PruneReach` which collectors the events filter does.
  `AgentManifests` builds and repairs the objects, `AgentCluster` is the fleet and the
  credential tick, `CollectorSwitch` runs the tick together with the reset protocol. What
  a collector runs with is the password its pods read when they started, through the
  variable of their template.
- **The activity verdict.** `Activity` is the ladder, the settled predicate, the
  verdict and the status read's short-circuit; `RollRun` derives the counters from the
  pods of a pool that is rolled; `CreateRun` follows a deployment coming up.
- **Codecs and folds.** `SessionToken`, `LdapFilter`, `RoleMapping`, `AuthSpec`.

`Text` and `Decimal` are the string and number readings these share (whitespace
words, lines that keep their newline, splitting, trimming, decimal integers as Rust
prints and parses them).

Code that loops or updates is a method or a class here (`ExternalizePasswordLoop`,
`ExcludePlatformLoops`, `BuildManifests`, the class `Cluster`, `StageFloor`,
`ConstantEq`, `EscapeFilterValue`, `RolesMapping`, the class `AuthStore`), proved
against a function or a predicate about which the properties are then proved.

## Where the code and its promises part

Each of these is a lemma with the exact condition, or a lemma with the input.

- The kept password is the one the Secret held, which need not be one that works. A
  request answered Partial leaves no marker, so the gate lets the next one in, and that
  one overwrites the copy of the password OpenSearch still takes
  (`ResetAgreement.PartialThenApplied`, `ResetAgreement.PartialThenNotApplied`; the exact
  condition is `ResetAgreement.SecondRequestOverwrites`). The two passwords are one
  exactly when the Secret's login worked as the reset began
  (`ResetAgreement.KeptIsAcceptedIff`), and orderly runs keep it so
  (`ResetAgreement.WayBackIsAccepted`).
- A reset forgotten at its window drops the kept password without asking whether the new
  one was taken. If OpenSearch still takes the old one, that one is lost exactly when the
  Secret keeps another password than it holds (`ResetAgreement.BlindForgetLosesIff`, with
  the input in `ResetAgreement.ExpiryLosesTheAccepted`). After a restore or a stall it
  never is (`ResetAgreement.RestoredForgetIsHarmless`).
- A reset that is stamped within the clock skew of an earlier *succeeded* Job takes
  that Job for its own: the first pass that still sees it forgets the reset, and the
  way back with it, while OpenSearch has another password
  (`ResetVerdicts.EarlySuccessForgetsTooSoon`, an if-and-only-if); so does a Job that
  was under way and succeeds later (`ResetVerdicts.LateSuccessForgetsTooSoon`). With
  quiet starts a seen success does mean agreement (`ResetVerdicts.SuccessMeansAgreement`),
  and without them exactly when the newest Job is one of the reset or pushed the same
  password (`ResetVerdicts.SuccessMeansAgreementIff`).
- A Job that had *failed* within the skew of the reset is not ignored either: the first pass
  puts the old password back before a Job of the new one has run
  (`ResetVerdicts.EarlyFailureRestoresTooSoon`).
- A restore that fails midway is said to be retried whole on the next read. A retry that
  deleted the failed Job and did not rewrite the marker is retried exactly while the
  deleted Job's pod is still listed (`ResetRetry.NextReadRetriesIff`); after that only a
  Job the operator starts on its own can bring the retry back
  (`ResetRetry.GoneJobIsNotRetried`, `ResetRetry.RetriedOnANewFailure`).
- The gate is read before the Secret is written, and nothing holds it in between: two
  requests that both passed it lose the password in force before the first
  (`ResetProtocol.RacingRequestsLoseTheWayBack`; the exact condition is
  `ResetProtocol.LateRequestIsSafe`).
- Forgetting is two writes. A reset that lands between them loses its kept password
  (`ResetProtocol.SplitForgetLosesTheWayBack`); the two writes are safe exactly when
  there is no marker by the second, or the Secret then keeps no other password than it
  holds (`ResetProtocol.SplitForgetIsSafe`).
- A stall costs three failed Jobs, but two exactly when the retry is refused the delete of
  the failed Job (`ResetRuns.BoundedRetries`, with the input in `ResetRuns.TwoJobsStall`).
- When a nudge lands and its answer is lost, the rollback drops the kept copy although
  the marker is there (`ResetProtocol.AnswerTellsTheTruth`). The password itself is back,
  so the way back still exists (`ResetProtocol.RunKeepsRecoverable`).
- The comment on `percent_for` says a rung's ceiling is not reached inside the rung. It
  is, from 30 volumes and from 90 nodes on (`Activity.BelowTheCeiling`).
- A rolled pool that has exactly one pod more than asked for passes a state that reads
  as settled with a pod missing (`RollRun.FalselySettled`, `RollRun.LargerPoolReadsSettled`).
- A role mapping row named `_meta` replaces the header of `roles_mapping.yml`
  (`RoleMapping.HeaderSurvives`, `RoleMapping.HeaderLost`).
- The exclusion edits one line of the file, and Fluent Bit reads an Exclude_Path by
  section: a scoped tailer in another section, or above a bare Exclude_Path, or below a
  comment with the glob, stays without it (`TailerExclusion.MissedConfigs`,
  `TailerExclusion.CommentHidesTheTailer`; the exact condition is
  `TailerExclusion.EveryTailerExcludesIff`). A config that ends on its `Path` line without
  a newline gets the inserted text on that same line (`AgentConfig.ExcludeByLine`).
  Idempotence holds in every case.
- The comment on the token's tag says no admin name can be mistaken for it. The name
  `v2:x:t` is: its token is that of tenant `t`'s user `x`
  (`SessionToken.AdminNameSpellsATenant`); what every name reads as is
  `SessionToken.AdminTokenReads` and `SessionToken.TenantTokenReads`.

## Model

| member | source | states |
|---|---|---|
| AdminReset.Gate | src/admin_reset.rs:86-109 | a reset may start exactly when the deployment is settled and no marker of any kind, readable or not, is there |
| AdminReset.GateTells | src/admin_reset.rs:86-109 | a refusal says which it is: not settled, stalled exactly for a text that reads as a stalled marker, and pending for any other text, unreadable ones included |
| AdminReset.MarkerWords | src/admin_reset.rs:252-261 | a written marker is its seconds and the words of its stage, and nothing else |
| AdminReset.StageRoundTrip | src/admin_reset.rs:285-292 | every stage with a restore number from 1 to 255 is read back from its words |
| AdminReset.MarkerRoundTrip | src/admin_reset.rs:252-294 | printing then parsing a marker is the identity for every positive i64 time and every stage |
| AdminReset.MarkerReads | src/admin_reset.rs:283-294 | a text reads as a marker exactly when its words are a positive i64 and the words of one stage, with no word more |
| Decimal.ParseReads | src/admin_reset.rs:283-292 | an i64, u64 or u8 reads exactly the digits of its range, after a plus or nothing, and the i64 after a minus |
| AdminReset.MarkerCanonical | src/admin_reset.rs:283-294 | the parser accepts only such markers, and printing what it read parses to the same marker |
| AdminReset.MarkerSameReading | src/admin_reset.rs:252-294 | two spellings have the same canonical form exactly when they read as the same marker |
| SecretPatch.StartPatchEffect | src/admin_reset.rs:187-195 | under RFC 7396 and stringData folding, a start sets the user, the new password and the kept one, and touches no other key |
| SecretPatch.RestorePatchEffect | src/admin_reset.rs:197-207 | a restore puts the password back, drops the kept copy only when asked to, and touches no other key |
| SecretPatch.DropKeptPatchEffect | src/admin_reset.rs:209-215 | dropping removes the kept copy and nothing else |
| ResetRuns.StagesClimb | src/admin_reset.rs:318-340 | from any written stage, under any polls, the stages entered are a prefix of the ladder above it; from a reset or its first restore they are the short ladder, whole, exactly when the retry was refused the delete of the failed Job |
| ResetRuns.ChargesAreFresh | src/admin_reset.rs:296-303 | every restore or stall is charged to a failed Job created strictly after the one charged before: no failed Job is charged twice |
| ResetRuns.StalledIsFinal | src/admin_reset.rs:315-316 | a stalled marker enters no further stage and charges no Job |
| ResetRuns.BoundedRetries | src/admin_reset.rs:63-66 | a reset's stages climb Restore(1), Restore(2), Stalled, with a fresh failed Job each; they skip the retry exactly when its delete was refused, and a stall costs two failed Jobs then and three otherwise |
| ResetRuns.LadderIsClimbed | src/admin_reset.rs:318-340 | with every delete allowed and nothing seen but failures, each failure takes the next rung whatever passes come in between: the stages are as much of the ladder as there are failures, charged to those |
| ResetRuns.WholeLadder | src/admin_reset.rs:326-335 | from a reset three failures climb the whole ladder, to the stall |
| ResetRuns.TwoJobsStall | src/k8s.rs:5350-5375 | a reset and a restore whose Jobs fail, and a refused delete, stall on two failed Jobs |
| ResetRuns.LivesWithinBudget | src/admin_reset.rs:318-340 | a marker at any stage outlives its own nudge by less than that stage's budget |
| ResetRuns.ForgottenInTime | src/admin_reset.rs:55-70 | a reset marker written at t is gone before t + 4*(WINDOW_SECS + d) + MAX_RESTORES*(2*CLOCK_SKEW_SECS + 1), whatever the Jobs do |
| ResetProtocol.ResetKeepsRecoverable | src/k8s.rs:5111-5167 | a request, however its writes fare, keeps the invariant that a marked reset has its way back |
| ResetProtocol.RestoreKeepsRecoverable | src/k8s.rs:5320-5379 | a restore that stops after any of its writes keeps it |
| ResetProtocol.PassKeepsRecoverable | src/k8s.rs:5247-5282 | so does any backstop pass |
| ResetProtocol.RunKeepsRecoverable | src/admin_reset.rs:9-33 | so does every run of requests and passes that do not overlap: in each state with the marker, the marker is readable and the Secret keeps exactly the password it held when the unconfirmed reset began |
| ResetProtocol.MarkerGuardsTheWayBack | src/k8s.rs:5098-5109 | under a marker no request starts, and no step changes which password the reset replaced or which OpenSearch took then |
| ResetProtocol.BeforeStands | src/k8s.rs:5098-5109 | nor by any run during which the marker stands |
| ResetProtocol.KeptUntilForgotten | src/admin_reset.rs:28-33 | from an applied reset until its marker goes, the Secret keeps the password it had when the reset began, and from the first restore on that is the Secret's password again |
| ResetProtocol.KeptIsLostExactly | src/k8s.rs:5113-5169 | a kept password, under a marker or not, stays through every step but a pass that forgets and a request that begins and writes its own in its place or rolls back, and through none of those |
| ResetProtocol.DroppedOnlyWhenDone | src/admin_reset.rs:263-277 | under a marker the kept password goes only for a success the pass saw or a full window since the latest nudge, and the marker goes first |
| ResetProtocol.AnswerTellsTheTruth | src/admin_reset.rs:113-134 | Applied, NotApplied and Partial each describe the Secret, whole and key by key, and the marker they are answered over |
| ResetProtocol.UnreadableIsForgotten | src/k8s.rs:5250-5252 | a marker nobody can read is dropped by the next pass with the kept password, and nothing else moves |
| ResetProtocol.LateRequestIsSafe | src/k8s.rs:5103-5167 | the gate is read before the Secret is written: the password that a reset in between replaced survives the late writes, however they fare, exactly when the Secret they find keeps no other password than it holds, or keeps the one asked for and that one stays |
| ResetProtocol.RacingRequestsLoseTheWayBack | src/k8s.rs:5103-5132 | two requests that both passed the gate lose the password in force before the first |
| ResetProtocol.SplitForgetIsSafe | src/k8s.rs:5298-5305 | with any run between its two writes, a forget leaves no marker without its way back exactly when there is no marker by the second write, or the Secret then keeps no other password than it holds |
| ResetProtocol.SplitForgetLosesTheWayBack | src/k8s.rs:5301-5305 | a reset that lands between the two writes loses its way back |
| ResetWatch.PassIsAPoll | src/k8s.rs:5247-5282 | a pass moves the marker text exactly as a poll moves the parsed marker |
| ResetWatch.RunIsAWatch | src/k8s.rs:5247-5282 | every run's marker is the watched marker of its polls |
| ResetWatch.ResetEndsInTime | src/admin_reset.rs:55-70 | every protocol run after an applied reset loses its marker within the bound, and until then climbs only the ladder, charged to fresh failures, skipping the retry exactly when its delete was refused |
| ResetVerdicts.ResetKeepsAttributed | src/k8s.rs:5111-5145 | a reset with a quiet start keeps the link between the newest Job and the Secret's password |
| ResetVerdicts.PassKeepsAttributed | src/k8s.rs:5215-5238 | so does a pass that sees the newest Job or none |
| ResetVerdicts.RunKeepsAttributed | src/admin_reset.rs:305-340 | so does every quiet run |
| ResetVerdicts.RunKeepsTracked | src/k8s.rs:5215-5238 | over every run of honest passes, a succeeded newest Job is what OpenSearch takes, and one of this reset that did not fail pushes the Secret's password |
| ResetVerdicts.SuccessMeansAgreement | src/admin_reset.rs:313-313 | in every quiet run, a pass that forgets on a seen success leaves OpenSearch and the Secret with the same password |
| ResetVerdicts.SuccessMeansAgreementIff | src/admin_reset.rs:313-313 | over every run of honest passes, quiet or not, a pass that sees a success leaves OpenSearch and the Secret agreeing exactly when the newest Job started after the reset or pushed the Secret's password all the same |
| ResetVerdicts.EarlySuccessForgetsTooSoon | src/admin_reset.rs:318-330 | right after a reset, the first pass drops the way back exactly when the newest Job succeeded within the skew of the reset, and then the passwords differ |
| ResetVerdicts.LateSuccessForgetsTooSoon | src/admin_reset.rs:318-330 | so does the first pass after an older Job under way succeeds, exactly when that Job is no older than the skew |
| ResetVerdicts.EarlyFailureRestoresTooSoon | src/admin_reset.rs:308-315 | right after a reset the first pass puts the old password back exactly when the newest Job had failed and is no older than the skew |
| ResetRetry.VerdictByStage | src/admin_reset.rs:318-340 | at every stage the whole answer of a pass that can write: forgotten on a success or after an hour with no failure to act on; on a failure moved to the next stage, dated to the pass and past the failed Job by its skew; otherwise left |
| ResetRetry.WritesByStage | src/k8s.rs:5298-5379 | and what it leaves besides the marker: a restore puts the kept password back and keeps its copy, the retry deletes the failed Job, a forget drops the copy, and nothing else moves |
| ResetRetry.StallsIff | src/admin_reset.rs:330-335 | at the last restore a pass that can write its marker stalls exactly on a failure it sees that is the restore's |
| ResetRetry.RetriesIff | src/k8s.rs:5350-5378 | at the first restore, a pass that can write and delete retries exactly on a failure it sees that is the restore's, and then the failed Job is gone |
| ResetRetry.LostMarkerWrite | src/k8s.rs:5350-5378 | a retry whose delete lands and whose marker write does not leaves the marker, the password put back, and no Job |
| ResetRetry.NextReadRetriesIff | src/k8s.rs:5310-5313 | the next read then retries exactly when it still sees the deleted Job's pod |
| ResetRetry.GoneJobIsNotRetried | src/k8s.rs:5310-5319 | once that pod is gone no number of passes retries: they wait, and forget at the end of the window |
| ResetRetry.RetriedOnANewFailure | src/k8s.rs:5315-5319 | unless the operator starts a Job on its own and it fails, exactly when that Job counts for the restore's marker |
| ResetAgreement.KeptIsAcceptedIff | src/admin_reset.rs:28-33 | from an applied reset until its marker goes, the kept password is the one OpenSearch took when the reset began exactly when the Secret's login worked then |
| ResetAgreement.RequestKeepsSound | src/k8s.rs:5111-5167 | a request with a quiet start that does not end Partial without a marker keeps Secret and OpenSearch in agreement, or the way back on the accepted password |
| ResetAgreement.SuccessAgrees | src/admin_reset.rs:313-313 | a success that a pass sees is of the newest Job, which pushed the Secret's password |
| ResetAgreement.PassKeepsSound | src/k8s.rs:5247-5282 | so does any honest pass, one that forgets a reset at its window included, unless it forgets where the Secret's login does not work |
| ResetAgreement.OrderlyKeepsSound | src/admin_reset.rs:9-33 | so does every orderly run, past restores, stalls and windows that run out |
| ResetAgreement.WayBackIsAccepted | src/admin_reset.rs:9-33 | over every orderly run from a Secret that works, past any number of resets forgotten on a success or harmlessly, the backstop would go back to the password OpenSearch took when the unconfirmed reset began, and with no marker OpenSearch takes the Secret's |
| ResetAgreement.FatesAreReported | src/admin_reset.rs:128-134 | the three fates the next rows speak of are answered Applied, Partial and NotApplied |
| ResetAgreement.SecondRequestOverwrites | src/k8s.rs:5098-5167 | after a request answered Partial the gate lets the next one in, and what OpenSearch takes is then under neither key exactly when it is neither what the Secret held by then nor a password asked for again that stays |
| ResetAgreement.PartialThenApplied | src/k8s.rs:5101-5102 | Partial, then Applied: a marked reset that keeps every invariant of the marker, with the accepted password under neither key |
| ResetAgreement.PartialThenNotApplied | src/admin_reset.rs:117-123 | Partial, then NotApplied: the accepted password is under neither key, and there never was a marker |
| ResetAgreement.BlindForgetLosesIff | src/admin_reset.rs:55-61 | a reset forgotten without its success loses what OpenSearch takes exactly when the Secret's login does not work; while OpenSearch has not moved since the reset began, exactly when the Secret keeps another password than it holds |
| ResetAgreement.HarmlessIff | src/admin_reset.rs:55-61 | while OpenSearch has not moved, forgetting is harmless exactly when the Secret keeps no other password than it holds |
| ResetAgreement.RestoredForgetIsHarmless | src/admin_reset.rs:314-317 | a restored or stalled reset forgotten at its window leaves a Secret whose login works, while OpenSearch has not moved |
| ResetAgreement.ExpiryLosesTheAccepted | src/admin_reset.rs:55-61 | the input: a reset whose Job never ran is forgotten after its window together with the password that still works |
| AgentConfig.ExternalizePasswordLoop | src/agents.rs:100-121 | the loop returns the rewritten text, and says it rewrote exactly when some line carries a password |
| AgentConfig.ExternalizedLine | src/agents.rs:110-118 | a rewritten line is one line with the same end, its own key and the variable; any other line is left |
| AgentConfig.ExternalizeByLine | src/agents.rs:94-121 | the lines of the result are the lines of the config, each rewritten on its own, and no password line is left in any letter case |
| AgentConfig.ExternalizeSettled | src/agents.rs:99-107 | a config without a password line comes back unchanged |
| ConfigLines.PasswordLine | src/agents.rs:94-121 | of any line written as indent, key and value, the value becomes the variable exactly when the key spells HTTP_Passwd in any letter case, and nothing else of it moves |
| AgentConfig.ExcludePlatformLoops | src/agents.rs:134-183 | the two loops return the specified text |
| AgentConfig.EditFirst | src/agents.rs:147-179 | a loop with a done flag edits exactly the first matching line and keeps the rest in order |
| AgentConfig.ExtendedLine | src/agents.rs:153-159 | an extended Exclude_Path line is one line with the same end that carries the exclusion |
| AgentConfig.ExtendedStaysExclude | src/agents.rs:149-159 | it still is an Exclude_Path line exactly when something followed its key |
| AgentConfig.InsertedLine | src/agents.rs:174-178 | an inserted line is an Exclude_Path line whose one value is the exclusion |
| ConfigLines.ScopedLine | src/agents.rs:134-142 | such a line is a service's tailer exactly when its key spells Path and its value is under the container logs and is not all of them |
| ConfigLines.ExclusionEdits | src/agents.rs:147-179 | the two edits of such a line, spelled out, for every namespace |
| ConfigLines.OnePathConfig | src/agents.rs:123-183 | a config with one Path line, a service's, gets the exclusion right below it in the same indent and no other change; any other path is left |
| AgentConfig.ExcludeByLine | src/agents.rs:123-183 | nothing changes, or exactly the first Exclude_Path is extended, or exactly one line is inserted after the first Path: exactly for configs that do not end on that Path without a newline; and the text of a config with a scoped tailer then mentions the glob |
| TailerExclusion.EveryTailerExcludesIff | src/agents.rs:123-183 | every scoped tailer ends up with an Exclude_Path in its own section that lists the glob exactly when all of them stand in the section of the one line that is edited and the edit leaves an Exclude_Path there; a config that mentions the glob, or has no scoped tailer, is left as it is |
| TailerExclusion.ExtendedLists | src/agents.rs:153-159 | an extended line lists the glob as an entry of its value exactly when it had more than its key |
| TailerExclusion.InsertedLists | src/agents.rs:174-178 | an inserted line lists it |
| TailerExclusion.OneSectionIsReached | src/agents.rs:123-183 | with all the Path and Exclude_Path lines in one section, every tailer is reached exactly when the edit leaves an Exclude_Path |
| TailerExclusion.SecondInputIsMissed | src/agents.rs:164-181 | with another Path in an earlier input, the scoped tailer of a later one is not reached |
| TailerExclusion.BareExcludeIsLost | src/agents.rs:149-159 | a bare Exclude_Path below the tailer loses its key, and the tailer is not reached |
| TailerExclusion.CommentHidesTheTailer | src/agents.rs:143-145 | the glob in a comment leaves the config, and its tailer, alone |
| TailerExclusion.MissedConfigs | src/agents.rs:134-183 | concrete configs of the first two kinds, for every namespace |
| AgentConfig.ExcludeIdempotent | src/agents.rs:134-146 | excluding the platform a second time changes nothing |
| AgentConfig.ExcludeAddsNoPlain | src/agents.rs:134-183 | the exclusion brings back no password line |
| AgentConfig.PruneByLine | src/agents.rs:480-499 | the filter goes in whole, right before the first [OUTPUT] line that has a line above it, and no other line moves |
| AgentConfig.PruneIdempotent | src/agents.rs:482-484 | there is never a second filter |
| AgentConfig.PruneLines | src/agents.rs:486-499 | the filter adds no line that any line predicate false of it could see |
| AgentConfig.PrunesIff | src/agents.rs:486-499 | a config gets the filter exactly when it watches events, does not name the script and has an [OUTPUT] line below another |
| PruneReach.RewritesBringNone | src/agents.rs:517-519 | the rewrites before the filter bring in neither the events input nor the script's path: what has one after them had it before |
| PruneReach.ScriptShipsIff | src/agents.rs:517-531 | the script ships exactly with a config that names it after those rewrites, or watches events and has an output |
| PruneReach.OrdinaryConfigGetsNoScript | src/agents.rs:480-485 | a collector whose config neither watches events nor names the script gets its rewritten config, without the filter, and no script |
| AgentConfig.NoPasswordLeft | src/agents.rs:517-519 | after the whole normalisation no password line is left, in any letter case |
| AgentConfig.PartlyNormalised | src/agents.rs:517-519 | a config that some of the steps have been through normalises to the same text |
| AgentConfig.NormalisedIdempotent | src/agents.rs:517-519 | normalising a deployed config gives the same text, for every config |
| AgentConfig.NoSpaceIsUnmistakable | src/agents.rs:100-105 | a password without whitespace is one the rewrite cannot mistake |
| AgentConfig.HoleBecomesReference | src/agents.rs:110-118 | the template's password line becomes the one reference line exactly when the rewrite cannot mistake the password |
| AgentConfig.PasswordIndependent | src/agents.rs:94-121 | any two such passwords give the same normalised config |
| AgentManifests.BuildManifests | src/agents.rs:510-586 | the builder returns the specified ConfigMap and workload |
| AgentManifests.ManifestsFit | src/agents.rs:521-585 | every mount has its volume, every ConfigMap key is mounted and every mounted key exists, the script is there exactly when the config runs it, and a collector runs on every node exactly when it tails logs |
| AgentManifests.PodFinds | src/agents.rs:521-531 | the files a built collector finds, and no others: its rewritten config where Fluent Bit looks for it, and the script exactly when that config names it |
| AgentManifests.PodSeesNode | src/agents.rs:532-538 | it sees of its node the logs, exactly when it tails them |
| AgentManifests.BuiltReadsThePassword | src/agents.rs:564-565 | following the variable the config names to the deployment's Secret gives the password written there |
| AgentManifests.RestartsIffContentChanges | src/agents.rs:538-559 | two builds give the same workload exactly when ConfigMap content and login are the same |
| AgentManifests.RebuildIsFixed | src/agents.rs:510-519 | building from a deployed config gives the deployed objects |
| AgentManifests.OnlyTheHashKnowsThePassword | src/agents.rs:506-509 | two passwords give the same ConfigMap, and workloads that differ in the credentials hash alone |
| AgentManifests.RepairedIff | src/agents.rs:642-690 | a collector is repaired exactly when it is this deployment's events watcher, can carry the filter, and misses the filter, the current script or its mount; what is re-applied is its own config |
| AgentManifests.InstalledNeedsNoRepair | src/agents.rs:588-596 | an installed collector needs no repair, whatever config it was installed from |
| AgentManifests.NewScriptRepairs | src/agents.rs:677-688 | once the platform carries another script, every installed events watcher is repaired with the config it has, and with the same script none is |
| AgentManifests.RepairIsAFreshInstall | src/agents.rs:642-650 | from a config any of the rewriting steps has been through, the repair gives the objects of a fresh install, and the next decision leaves them alone |
| AgentCluster.Cluster.constructor | src/agents.rs:790-798 | the cluster starts as the fleet given |
| AgentCluster.Cluster.OwnAgents | src/agents.rs:732-765 | the deployment's own collectors, named and annotated for it, each once |
| AgentCluster.Cluster.Sort | src/agents.rs:799-814 | the plaintext and the stale collectors, each once, the plaintext ones with their configs |
| AgentCluster.Cluster.ApplyAgentWorkload | src/agents.rs:419-478 | login, ConfigMap and workload of one collector, and nothing else |
| AgentCluster.Cluster.RebuildEach | src/agents.rs:823-829 | the first loop leaves the fleet with exactly the plaintext collectors rebuilt |
| AgentCluster.Cluster.RestampEach | src/agents.rs:830-855 | the second loop leaves the fleet with exactly the stale collectors restamped |
| AgentCluster.Cluster.ReconcileCreds | src/agents.rs:790-860 | the tick leaves the specified fleet and counts what it brought up to date; nothing without a password or without OpenSearch accepting it |
| AgentCluster.ReconciledAt | src/agents.rs:823-855 | each collector is rebuilt, restamped or untouched, and none changes hands |
| AgentCluster.ConfAfter | src/agents.rs:826-829 | a plaintext collector's config ends normalised, every other config as it was |
| AgentCluster.PlaintextIsRebuilt | src/agents.rs:823-829 | a tick that acts installs anew, from its own config, each of the deployment's collectors whose config carries a password |
| AgentCluster.InstalledIsOwned | src/agents.rs:732-756 | an installed collector belongs to the deployment it was installed for and to no other, however their names overlap |
| AgentCluster.SameTemplateStays | src/agents.rs:538-540 | a collector whose pod template a tick leaves as it was is not restarted |
| AgentCluster.SecondTickFindsNothing | src/agents.rs:799-818 | right after a tick that acts, the next finds nothing plaintext and nothing stale and changes nothing |
| AgentCluster.TickStaysAtHome | src/agents.rs:732-734 | a collector not named and annotated for the deployment is untouched; one that is keeps its kind and name, and moves to no password but the tick's, and only when that is accepted |
| AgentCluster.TickWritesAtHome | src/agents.rs:790-860 | no other deployment's Secret and no config without a password is written, and the deployment's own Secret only with an accepted login |
| AgentCluster.TickBringsEveryoneUp | src/agents.rs:767-776 | in a fleet whose template hashes are truthful, after a tick with an accepted password every collector of the deployment is stamped with it, every one that takes a password runs with what its template has it read, which is that one, and the hashes stay truthful |
| CollectorSwitch.AdvanceKeeps | src/agents.rs:819-821 | one step brings in no password but one accepted at that moment |
| CollectorSwitch.SwitchedOnlyToAccepted | src/agents.rs:774-776 | over every history, a collector ends with a password it had, one its Secret held, or one OpenSearch accepted when a tick switched to it |
| CollectorSwitch.PassKeepsSecret | src/k8s.rs:5298-5379 | a pass leaves as password the one there or the one to go back to |
| CollectorSwitch.PendingKeepsCollectors | src/agents.rs:776-778 | while a reset is pending and no Job of the new password succeeds, the collectors keep the old one |
| CollectorSwitch.FailedResetLeavesCollectorsAlone | src/agents.rs:776-778 | from a reset to its being forgotten without a Job of the new password succeeding, OpenSearch and every collector still have the old password |
| CollectorSwitch.TickActsIff | src/k8s.rs:5024-5041 | a tick acts, with the login of the admin Secret, exactly when OpenSearch can be asked and the Secret's user and password are the ones it takes |
| CollectorSwitch.TickSwitchesEveryCollector | src/agents.rs:772-776 | after any history, with a login that works a reachable tick leaves every collector that takes a password running with the one OpenSearch takes, and the next tick does nothing; with one that does not work no tick does anything |
| CollectorSwitch.RestartReads | src/agents.rs:65-68 | a restarted collector runs with what the Secret of its template holds by then, or keeps the password its config carries |
| CollectorSwitch.RestartKeepsConsistent | src/agents.rs:428-440 | a restart, of a stamped collector or of one without a hash yet, keeps the template hashes truthful |
| CollectorSwitch.AdvanceKeepsConsistent | src/agents.rs:790-860 | so does every event |
| CollectorSwitch.HistoryKeepsConsistent | src/agents.rs:790-860 | so does every history |
| Activity.StageFloor | src/activity.rs:82-91 | the loop returns the ceiling of the rung below, and 100 for what is not on the ladder |
| Activity.LadderIsContiguous | src/activity.rs:62-99 | the rungs meet end to end, climb, and end at 100 |
| Activity.PercentStaysInRung | src/activity.rs:101-109 | inside a rung the percent stays between floor and ceiling and never falls as the count grows |
| Activity.CeilingReachedEarly | src/activity.rs:101-109 | it reaches the ceiling early exactly when what is missing rounds away |
| Activity.BelowTheCeiling | src/activity.rs:101-103 | it stays below for every count exactly with fewer than 30 volumes, and with fewer than 90 nodes |
| Activity.PercentSays | src/activity.rs:101-109 | the percent of any verdict by its rung: where the rung begins, or, with a count, the whole number nearest to as far in as the count is |
| Activity.StageSays | src/activity.rs:651-703 | an unsettled deployment is on the rung of the first thing missing, with the count it waits for |
| Activity.TerminalStatuses | src/activity.rs:453-458 | a component is done with any of five words in any letter case, or with none |
| Activity.VerdictIsCoherent | src/activity.rs:726-769 | for any input, 100 and no lock exactly when settled, no counter above its total, the percent inside the rung shown, no stall claimed without a long enough age |
| Activity.VerdictSays | src/activity.rs:726-769 | stalled is exactly unsettled for four minutes without a move, settled exactly settled but for Dashboards with Dashboards up, and kind, counters and serving are as the inputs say |
| Activity.FastPathAgrees | src/k8s.rs:2826-2887 | the short-circuit gives the full verdict but for the clock, exactly unless volumes are pending under a missing Dashboards; and it never differs on settled |
| Activity.FastPathClock | src/k8s.rs:2826-2870 | and the clock it shows is none at rest and the Dashboards pod's while only that is missing, which alone decides the stall |
| RollRun.SettledMeansDone | src/activity.rs:539-571 | in any state of a pool no larger than asked for, settled means every pod ready and on the new revision; a pool scaled partway is never settled |
| RollRun.NodesSettledIff | src/activity.rs:556-571 | the hold on Dashboards is released exactly when every pod asked for is there, ready and on the new revision, with health green, the bootstrap done and nothing moving |
| RollRun.FalselySettled | src/activity.rs:552-571 | in a roll, an unfinished pool reads settled exactly when it has one pod more than asked for and the counters hide the missing one |
| RollRun.LargerPoolReadsSettled | src/activity.rs:552-571 | for every size such a roll passes such a state |
| RollRun.ServingBetweenRestarts | src/activity.rs:590-606 | in a roll of a pool of the size asked for, serving says exactly that no pod is down and no primary is missing, while settled says more |
| RollRun.RollKeepsOneDown | src/activity.rs:8-13 | one pod at a time is down, in every state of a roll |
| RollRun.RollsInOrder | src/activity.rs:8-13 | the roll can be carried out pod by pod to its end |
| RollRun.PercentOfPods | src/activity.rs:673-692 | while the pool is unfinished the percent is a function of its pods alone |
| RollRun.PodsDoneClimbs | src/activity.rs:673-685 | the counter shown does not fall in a step, across the change of numerator |
| RollRun.PercentNeverFalls | src/activity.rs:62-64 | between two looks at an unfinished roll of a pool no larger than asked for the percent does not fall, with health, Dashboards, upgrade and components changing at will |
| RollRun.PercentFallsIff | src/activity.rs:673-703 | in a roll of a pool of any size the percent falls between two looks exactly when every place asked for was already counted and Dashboards, or having settled, is lost |
| RollRun.RollEnds | src/activity.rs:8-13 | every step uses up one unit of work: no roll is longer than three steps a pod |
| RollRun.StopsOnlyWhenDone | src/activity.rs:8-13 | a step is possible exactly while the roll is unfinished |
| CreateRun.RungClimbs | src/activity.rs:651-703 | from look to look of a create the rung does not fall, nor the fraction inside it |
| CreateRun.StepClimbs | src/activity.rs:726-769 | nor the stage and percent of the verdict, up to the first settled one |
| CreateRun.CreateNeverFallsBack | src/activity.rs:62-64 | up to the first settled look no later look shows a lower stage or percent than an earlier one |
| CreateRun.CreatingFlipsOnce | src/activity.rs:705-723 | a create reads as creating exactly until the bootstrap is done, and never again after |
| CreateRun.LateVolumeFallsBack | src/activity.rs:663-671 | a volume added after the node rung takes stage and percent back down |
| SessionToken.ConstantEq | src/auth.rs:250-259 | the XOR loop decides equality of byte strings |
| SessionToken.FieldsFit | src/auth.rs:328-354 | a token with the right fields is its payload, a colon and its signature, and what is checked is that payload |
| SessionToken.AcceptedIffSigned | src/auth.rs:325-356 | exactly the signed, unexpired payloads of colon-free sessions are accepted, each as its own session |
| SessionToken.TokenRoundTrip | src/auth.rs:301-323 | a token minted for a colon-free session gives that session back for a day and nothing after |
| SessionToken.AdminTokenReads | src/auth.rs:296-310 | what any admin name's live token reads as: the admin exactly when the name has no colon, a tenant's session exactly when the name spells one, and otherwise nothing |
| SessionToken.TenantTokenReads | src/auth.rs:312-323 | a tenant's live token reads as its session exactly when neither name has a colon, and otherwise as nothing |
| SessionToken.AdminNameSpellsATenant | src/auth.rs:296-299 | the admin name v2:x:t gets the token of tenant t's user x, text for text |
| SessionToken.RoundTripNeedsColonFree | src/auth.rs:301-323 | a session, admin's or tenant's, comes back from its live token exactly when its names have no colon |
| SessionToken.OneSessionPerToken | src/auth.rs:296-323 | two sessions, with any names, share a token exactly when they share the expiry and are spelled alike; without colons they are then one session |
| SessionToken.CookieRoundTrip | src/auth.rs:362-370 | a minted session is found in a header with any whitespace around its cookie, first, last, alone or among any others |
| SessionToken.CookieSpellings | src/auth.rs:362-370 | both ways a browser sends the cookie carry the token |
| SessionToken.MintedFits | src/auth.rs:301-323 | a token has no semicolon exactly when its names have none |
| LdapFilter.EscapeFilterValue | src/auth_probe.rs:209-222 | the loop returns the specified text |
| LdapFilter.EscapeRoundTrip | src/auth_probe.rs:204-222 | the decoder of section 3 of RFC 4515 reads back exactly the value escaped, for every value |
| LdapFilter.EscapeIsInjective | src/auth_probe.rs:204-222 | two values are never escaped alike |
| LdapFilter.EscapedIsInert | src/auth_probe.rs:204-208 | the output has no bare star, parenthesis or NUL, and every backslash opens a two-digit escape |
| LdapFilter.PlainIsUntouched | src/auth_probe.rs:212-219 | a value is changed exactly when it has a character that needs it |
| RoleMapping.FirstRowIsFirst | src/auth_provider.rs:735-745 | the rank of a value is its first granting row, after the built-in admin |
| RoleMapping.FoldRows | src/auth_provider.rs:726-745 | the fold leaves, per role, the granted values each once in the order of their first rows |
| RoleMapping.RolesMapping | src/auth_provider.rs:716-772 | the document is a mapping of the rows and accounts as described |
| RoleMapping.GrantedIsUnique | src/auth_provider.rs:735-745 | that description allows one list |
| RoleMapping.MappingIsUnique | src/auth_provider.rs:716-772 | and one document |
| RoleMapping.BreakGlass | src/auth_provider.rs:717-733 | whatever the rows, admin comes first under all_access and both accounts keep their roles |
| RoleMapping.HeaderSurvives | src/auth_provider.rs:747-770 | the header survives exactly when no row grants a role named like it |
| RoleMapping.HeaderLost | src/auth_provider.rs:747-770 | one such row loses it |
| AuthSpec.AuthStore.Read | src/auth_provider.rs:372-387 | a read returns the redacted spec and changes nothing |
| AuthSpec.AuthStore.Set | src/k8s.rs:6467-6473 | a save stores the merged spec only after it passed validation |
| AuthSpec.ReadShowsOnlyPresence | src/auth_provider.rs:369-387 | two specs read alike exactly when they differ in nothing but a set credential |
| AuthSpec.ReadBackIsIdentity | src/auth_provider.rs:390-413 | merging an untouched read back is the identity for every kind |
| AuthSpec.MergedSecret | src/auth_provider.rs:389-413 | the sentinel stands for the stored credential of the same kind; anything else replaces it, and no other field changes |
| AuthSpec.ValidateVerdict | src/auth_provider.rs:215-260 | a refusal names the first thing wrong, in the order of the checks, and nothing wrong is what passes |
| AuthSpec.SaveStoresIff | src/k8s.rs:6467-6473 | a save is stored exactly when its rows are named, its kind can come back over TLS, an echoed sentinel finds a credential of its own kind and the fields fit; what is stored is what came in with that credential, and internal users clear the spec |
| AuthSpec.PublicUrlIff | src/auth_provider.rs:355-363 | the public origin is the deployment's name at the base domain without its outer blanks and dots, and there is none exactly without ingress or without such a domain |
| AuthSpec.OriginRefusals | src/k8s.rs:6471-6473 | with the origin a save computes itself, a kind that redirects is refused HTTPS exactly when ingress is on without a base domain |
| AuthSpec.SentinelNeedsItsKind | src/auth_provider.rs:247-252 | a sentinel that changed kind stays unresolved and is refused |
| AuthSpec.StoredSecret | src/k8s.rs:6467-6473 | one save stores no sentinel, and no credential but the one there or the one sent |
| AuthSpec.SentinelIsNeverStored | src/auth_provider.rs:247-274 | over any saves the sentinel is never stored, and what is stored was stored before or typed in |
| AuthSpec.EchoKeepsTheSpec | src/auth_provider.rs:389-391 | saving back what was read changes nothing |

## Left out

- Kubernetes, HTTP, LDAP and TLS calls: they are environment steps, free to fail at each write; which answer they give is a parameter.
- Overlapping requests and passes: each runs as one step, except that any run may come between the gate and the writes of a request (`ResetProtocol.LateRequestIsSafe`) and between the two writes of a forget (`ResetProtocol.SplitForgetIsSafe`).
- ResetProtocol.RunKeepsRecoverable: holds of runs whose requests and passes do not overlap, because overlapping ones break it as the two lemmas above say; and it speaks of the password the Secret held, not of one that works, which is what `ResetAgreement` is about.
- The nudge annotation's value: it only forces a reconcile, and each write restates it.
- The operator itself: a Job pushes the password the Secret held when it started, Jobs are listed in the order of their creation, and only the newest one can still end. A deleted Job's pod may stay listed for any time; `ResetRetry.GoneJobIsNotRetried` speaks of the passes after it is gone.
- The user name of a collector's login stands in its config text; of the login only the password is read by the pods.
- Collectors of the deployment that take no password, neither in the config nor through a variable, are stamped by a tick like the others; `CollectorSwitch.TickSwitchesEveryCollector` says of the others that they run with the password.
- PruneReach.OrdinaryConfigGetsNoScript: is about platform namespaces without a slash, which no Kubernetes namespace has.
- Base64 of Secret data: the model holds the decoded text.
- Wrap-around of the i64 sum in `restore_since`: times are required to leave room for the skew.
- ResetProtocol.DroppedOnlyWhenDone: speaks of drops under a marker; a kept password without one also goes when a later request begins, as `ResetProtocol.KeptIsLostExactly` says.
- The OTel stack's branch of the credential reconcile, and an installation of an integration in the middle of a tick.
- Failure of an API call inside a tick: a tick runs to its end or not at all.
- Hashes: a credentials or config hash is its input, so it never collides; bcrypt and HMAC are not computed.
- `AgentConfig` reads whitespace as Unicode does for the characters listed in `Text.IsSpace`, and letter case in ASCII, as the code does.
- JSON and YAML rendering: manifests, Secrets and securityconfig files are the maps and lists the properties speak of.
- f32 rounding: the fraction inside a rung is the exact quotient; a percent that falls exactly on a half could round the other way in f32.
- The fields of `Blocked` and the gathering of diagnosis for a stall.
- Pods that crash during a roll: `RollRun.SettledMeansDone` covers them, the percent does not.
- UTF-8: tokens are compared as characters, and `SessionToken.ConstantEq` as bytes; that equal characters have equal bytes is not part of the model.
- `TailerExclusion` reads a section as the lines from one bracketed header to the next, and an Exclude_Path value as entries between commas or whitespace; Fluent Bit's own parser is not part of the model.
- CollectorSwitch.TickSwitchesEveryCollector: starts from a fleet whose template hashes are truthful, which every fleet without stamped collectors is (`CollectorSwitch.UnstampedIsConsistent`).
- LdapFilter.EscapeRoundTrip: the decoder refuses escaped bytes from 0x80 up, which belong to longer characters and which the escaper never writes.
- The per-field checks of each provider kind: they are an arbitrary predicate that validation asks last.
- Parsing of a stored spec: an unreadable one is the default, which is not part of the model.
- The middleware's path tables, cached login state, access modes and build information: short tables that would only add easy members.

# FreeLocker: a verified model of its decision-making core

FreeLocker is a server and agent for endpoint control. This project models the parts of it
that decide something, and proves what they guarantee over every input, every run or every
reachable state. `dafny verify dfyconfig.toml` checks all of it (Dafny 4.11).

| component | files | what is proved |
|---|---|---|
| Notification outbox | `Outbox`, `OutboxStore` | Any number of workers on a shared clock. A row is sent or failed exactly by the outcomes of its sends. No row ever has two holders, and a finished row never changes, although the finishing update is unguarded. Both hold **if and only if** the lease outlasts a batch of slowest sends. |
| Staged rollouts | `Rollouts`, `RolloutPass`, `RolloutRuns`, `RolloutTheorems`, `RolloutTermination`, `RolloutLaws`, `RolloutStore` | Over every interleaving of passes, heartbeats, results, sweeps, revocations, group moves, pauses, resumes, cancels and rollbacks: the batch bound, the failure overshoot bound, bounded resolution, conservation of the summary, progress, completion and termination; which device is updated or failed, by what it reported. |
| Signed commands | `Commands`, `CommandService` | Over every interleaving of sends, losses, redeliveries, late marks, repeated results, restarts and sweeps: at most one run per process, a result that says how that run ended, terminal states final. |
| Authenticode ranges | `Authenticode`, `AuthenticodeBytes` | Exactly three parts are left out, at the positions of the PE format; signing, stripping and setting the checksum leave the hashed bytes alone; everything else is hashed. |
| WDAC compiler | `WdacRules`, `Wdac`, `WdacMeaning`, `WdacBaseline`, `WdacDeterminism` | Which rules are accepted, by character; the compiled policy allows what the rules say; ids are unique and references resolve; the output is independent of the input order **if and only if** rules with equal keys carry equal labels. |
| Kernel decision core | `Decision`, `DecisionCore` | Binary search, path matching and validation, with their 32-bit arithmetic, refine a specification by sets and path components; the laws about reasons, modes and added rules. |
| Alerting | `Alerting`, `AlertingTrace`, `AlertingLaw`, `AlertingService` | The alert tables against a specification that looks at the samples and edits alone, down to which samples are over the threshold. |
| Ringfences | `Ringfence`, `RingfenceVersion`, `RingfenceDecoding`, `RingfenceRuns`, `RingfenceEnforcer` | Reconciliation is exact, path-independent and confined; the version text determines the content **if and only if** no path reads like two programs. |
| Syslog and CEF | `Syslog`, `SyslogRecords`, `SyslogReading`, `SyslogFormat` | A receiver reads back header, pairs, structured data and records, with the exact condition. |
| Approvals | `Approvals`, `ApprovalRuns`, `ApprovalStore` | Aggregation is independent of batching; decisions are final, and every status names the operation it came from; new rows are reported once. |

`Common`, `Bags` and `Text` hold what these share. Code that updates tables or objects in place
is a class with methods, each tied by its contract to a function of the old state; the theorems
are about those functions and the runs built from them. The clock, send outcomes, host names,
process ids and what the operating system holds are parameters or steps of the environment.

## Where the code and its comments differ

- `internal/appcontrol/wdac/wdac.go:11-13` promises identical output for an identical rule set. This fails when two rules have the same kind and value but different descriptions: `WdacDeterminism.OrderShowsThrough` gives two such rules, `WdacDeterminism.DeterministicIff` the exact condition.
- `internal/server/store/ringfence.go:274-276` relies on the version changing with the content. A program path may hold a line break (the console only trims it), and two ringfences share a version text exactly when some path holds `|true` or `|false`, a line break and `prog=`: `RingfenceDecoding.CollidesIff`, with the effect on the agent in `RingfenceRuns.SeamIsSkipped`. Any other line break is harmless: `RingfenceDecoding.VersionTextDetermines`.
- `internal/agent/ringfence/ringfence_windows.go:113-125` takes a rule name from the first prefix anywhere in a line, so a foreign rule whose name contains the name of an own rule keeps that rule from being added: `Ringfence.ShadowHidesRule`, with the exact condition in `Ringfence.NetworkExactIff`.
- `driver/core/fl_decision.c:213-228` rejects every array of more than 2^27 records, because the first offset that wraps compares the last record with the first one. So acceptance alone rules wrap-around out in the search: `DecisionCore.SortedRecords`, `DecisionCore.HashPresent`.

## Model

| member | source | states |
|---|---|---|
| `Outbox.Backoff` | internal/server/notify/notify.go:56-67 | Gives up exactly from the maximum attempt on; otherwise a delay between one and thirty minutes that never shrinks with the attempt number |
| `Outbox.LeaseExclusivity` | internal/server/notify/notify.go:41-67 | In every run of any number of workers, with crashes, lost finishes and unheard answers, no row has two holders; a row is claimed at most the maximum number of attempts plus its own lost outcomes; it is received at most once per claim, and at most once plus its lost outcomes and its sends that arrived but were recorded as errors |
| `Outbox.ReceivedTwice` | internal/server/notify/notify.go:170-187 | Whatever the time limits, a receiver whose answer is lost gets the notification a second time, with no outcome lost |
| `Outbox.FinishedIsAbsorbing` | internal/server/store/notifications.go:244-261 | Once sent or failed, no later step of any run changes any column of the row, despite the unguarded update |
| `Outbox.StateIsOutcome` | internal/server/notify/notify.go:164-206 | In every run a row is sent if and only if a send of it ended well, failed if and only if one ended in a permanent error or in any error at the fifth attempt or later, and pending otherwise |
| `Outbox.FinishWrites` | internal/server/notify/notify.go:56-67 | Recording an outcome: sent with its time, failed at once after a permanent error, otherwise pending again for one minute after the first attempt, five after the second, thirty after the third and fourth, and failed from the fifth on |
| `Outbox.ExclusiveIff` | internal/server/notify/notify.go:42-46 | Exclusivity in all runs holds if and only if the lease covers the claim and ten slowest sends |
| `Outbox.SentStaysIff` | internal/server/notify/notify.go:42-46 | A sent row stays sent in all runs if and only if the same condition holds |
| `Outbox.SourceLimitsCovered` | internal/server/notify/notify.go:41-54 | The transports' time limits (10 s and 30 s) meet that condition |
| `OutboxStore.Store.EnqueueDeliveries` | internal/server/store/notifications.go:190-199 | Adds one pending row per channel, due at once, and leaves the others |
| `OutboxStore.Store.ClaimDeliveries` | internal/server/store/notifications.go:204-240 | Takes the due rows with the smallest ids up to the limit, raises their attempts and leases exactly those |
| `OutboxStore.Store.FinishDelivery` | internal/server/store/notifications.go:244-261 | Overwrites the row whatever its state or lease |
| `OutboxStore.Store.Settle` | internal/server/notify/notify.go:164-190 | Records one outcome: sent; failed for good after a permanent error or from the fifth attempt on; otherwise pending again after 60, 300 or 1800 seconds by attempt; counts exactly the rows that stop being pending |
| `OutboxStore.Store.Dispatch` | internal/server/notify/notify.go:164-190 | Leases a claimable batch and records each outcome once; sent plus failed is the drop in pending rows |
| `OutboxStore.Store.Drain` | internal/server/notify/notify.go:137-160 | The inner loop ends after at most one more batch than rows it finished |
| `OutboxStore.RecordAllRow` | internal/server/notify/notify.go:164-190 | Over a batch each claimed row is recorded exactly once and no other row is touched |
| `OutboxStore.BatchIsARun` | internal/server/notify/notify.go:164-190 | Sending a batch in a loop is a run of finish steps of the concurrent model |
| `RolloutPass.SummaryConservation` | internal/server/store/rollouts.go:292-334 | Targeted plus moved-out rows equals current, remaining, issued, updated and failed together |
| `RolloutPass.CandidatesAreRemaining` | internal/server/store/rollouts.go:197-212 | The separately written candidate query returns exactly the devices the summary counts as remaining |
| `RolloutPass.CandidateListUnique` | internal/server/store/rollouts.go:200-212 | The order by host name and id leaves one possible list |
| `RolloutPass.ResolveCounts` | internal/server/store/rollouts.go:244-287 | Resolution only moves live issued rows; failures grow by exactly the reported number |
| `RolloutPass.TakenIsGreedy` | internal/server/rollout/rollout.go:119-150 | A reachable candidate is left out only when every slot went to candidates listed before it |
| `RolloutPass.IssueEffect` | internal/server/rollout/rollout.go:119-150 | Issuing adds exactly one fresh row per taken device and the commands of those asked, and nothing else |
| `RolloutPass.PassCounts` | internal/server/rollout/rollout.go:81-164 | The counts after a pass in terms of those before; an issuing pass ends within the batch size |
| `RolloutPass.PassPauses` | internal/server/rollout/rollout.go:87-117 | A pass pauses exactly when a new failure brings the total to the threshold, and then issues nothing |
| `RolloutPass.PassCompletes` | internal/server/rollout/rollout.go:119-164 | A pass completes the rollout exactly when no device needs it any more |
| `RolloutPass.PassProgress` | internal/server/rollout/rollout.go:81-164 | Each issue and each resolution lowers twice remaining plus issued by one |
| `RolloutRuns.PassIsConfined` | internal/server/rollout/rollout.go:81-164 | A pass changes only its own rollout's rows and phase and adds only its own commands |
| `RolloutRuns.StepKeepsBatch` | internal/server/rollout/rollout.go:119-150 | Every step keeps issued rows within the batch size |
| `RolloutRuns.StepKeepsFailures` | internal/server/rollout/rollout.go:87-117 | Every step keeps the failure bound, counting one batch per activation |
| `RolloutTheorems.BatchBound` | internal/server/rollout/rollout.go:119-150 | In every reachable state the devices in flight are at most the batch size |
| `RolloutTheorems.FailureOvershootBound` | internal/server/rollout/rollout.go:87-117 | In every reachable state failures are at most the threshold minus one plus one batch per activation |
| `RolloutTheorems.RunKeepsRows` | internal/server/store/rollouts.go:214-219 | Over any run a device's row is never replaced and a resolved row never changes |
| `RolloutTheorems.ReachableSummary` | internal/server/store/rollouts.go:292-334 | In every reachable state the summary adds up, one rollout at most is open, and the candidates are the remaining devices |
| `RolloutTheorems.BoundedResolution` | internal/server/store/rollouts.go:244-287 | Once a sweep has run after the command's time to live, any pass a confirmation timeout later resolves the row, whatever results came when |
| `RolloutTheorems.CompletionIsTotal` | internal/server/rollout/rollout.go:152-164 | A pass marks a rollout completed only when every targeted device reports the version or has a finished row |
| `RolloutTheorems.RolloutProgress` | internal/server/rollout/rollout.go:81-164 | With a fixed fleet the total work along any run is bounded by the drop of the measure, which never rises |
| `RolloutTheorems.StepKeepsOneOpen` | internal/server/store/rollouts.go:57-146 | Every step keeps at most one rollout open, and a completed or cancelled one never changes |
| `RolloutTheorems.RollbackKeepsOneOpen` | internal/server/store/rollouts.go:85-111 | A rollback either changes nothing or closes the old rollout and opens the new one; exactly when it succeeds |
| `RolloutTermination.GoodPassEffect` | internal/server/rollout/rollout.go:81-164 | A pass that finds every row swept in time and every remaining device reachable completes the rollout, or lowers what is outstanding and leaves some |
| `RolloutTermination.RolloutCompletes` | internal/server/rollout/rollout.go:81-164 | In any run over a fixed fleet in which no operator stops it, a rollout that never pauses itself is completed after as many such passes as were outstanding, whatever happens in between |
| `RolloutTermination.RolloutsTerminate` | internal/server/app/app.go:398-417 | From any reachable state, as many rounds of time to live, sweep, confirmation period and pass as were outstanding (one, if none was) leave the rollout completed |
| `RolloutLaws.PassDecides` | internal/server/store/rollouts.go:244-287 | After a pass over an active rollout an issued row is cancelled exactly if its device is revoked, updated exactly if the device reports the version, failed exactly if it reports another and its command failed, expired or succeeded a confirmation period ago; finished rows stay |
| `RolloutLaws.PassIssues` | internal/server/rollout/rollout.go:119-150 | Every new row is issued now under a new command for its device that lives for a day |
| `RolloutLaws.PassFills` | internal/server/rollout/rollout.go:119-150 | A connected candidate whose command is accepted and recorded is left without a row only if the pass pauses or the batch is full |
| `RolloutLaws.CandidateIff` | internal/server/store/rollouts.go:197-212 | The candidates are the devices that are not revoked, report another version, are in one of the groups if there are any, and have no row, listed by host name and id |
| `RolloutLaws.UpdatedWasReported` | internal/server/store/rollouts.go:244-287 | In every run a row is updated only if its device has reported the rollout's version |
| `RolloutLaws.FaithfulNeverFails` | internal/server/store/rollouts.go:244-287 | A device that reports the version before its row is resolved, and nothing else from then on, is never failed, whatever becomes of its command |
| `RolloutLaws.FailedWasCaused` | internal/server/store/rollouts.go:244-287 | In every run a row is failed only if a result of its command was reported, or a sweep ran at or after the end of its time |
| `RolloutLaws.CommandsEndAsReported` | internal/server/store/commands.go:55-76 | In every run a rollout's command has succeeded or failed only if just that was reported, and expired only if a sweep ran at or after the end of its time |
| `RolloutStore.Store.SetRolloutState` | internal/server/store/rollouts.go:129-146 | Changes the phase only from one of the given phases, stamps the end of a completed or cancelled rollout, and tells an unknown rollout from a wrong phase |
| `RolloutStore.Store.CreateRollout` | internal/server/store/rollouts.go:57-78 | Inserts only a released version and only while none is open |
| `RolloutStore.Store.ReplaceRollout` | internal/server/store/rollouts.go:85-111 | Cancels and inserts in one transaction, or leaves everything |
| `RolloutStore.Store.ResolveRolloutDevices` | internal/server/store/rollouts.go:244-287 | Resolves the rows case by case; the numbers are those of devices that report the version and of devices left behind by a spent command, and the summary's failures grow by exactly the second |
| `RolloutStore.Store.RolloutCandidates` | internal/server/store/rollouts.go:200-212 | Returns all candidates in order, each once |
| `RolloutStore.Store.AddRolloutDevice` | internal/server/store/rollouts.go:214-219 | Adds an issued row, or reports a conflict and changes nothing |
| `RolloutStore.Store.Reconcile` | internal/server/rollout/rollout.go:81-164 | The pass over the tables, with its running counters, is the pass the theorems speak of |
| `RolloutStore.Store.IssueBatch` | internal/server/rollout/rollout.go:119-150 | The issuing loop and its two counters follow the rows it adds |
| `Commands.CommandProtocol` | internal/server/commands/commands.go:74-130 | In every run a process starts a command at most once and only if addressed to its device, and a recorded result is what the one run in some process of that device returned |
| `Commands.RecordedAsEnded` | internal/agent/executor/executor.go:34-75 | In every run a command is recorded as succeeded only if it is a ping or its one run in a process of its device ended without an error, and as failed only if that run ended with an error, whose text is the result; commands of an unknown kind are never recorded |
| `Commands.ReceiveStarts` | internal/server/commands/sign.go:43-59 | A delivered command starts its action if and only if it is addressed to the device of the process, its time ran out at most five minutes ago, and it was not finished before |
| `Commands.LinksAreBounded` | internal/server/hub/hub.go:54-67 | No run makes a link hold more than 64 messages |
| `Commands.StatementsWrite` | internal/server/store/commands.go:33-76 | What each statement writes, column by column: a new command is pending for a day, only a pending one becomes sent, a report finishes an open command of the reporting device as it says, a sweep expires an open one whose time has come, and nothing else changes |
| `Commands.TerminalIsFinal` | internal/server/store/commands.go:51-76 | A finished command never changes in any column |
| `Commands.MemoIsFinal` | internal/agent/executor/executor.go:34-52 | After a process finished a command its memo and its one run stay, and every later accepted delivery adds exactly the report of the first result and changes nothing else |
| `Commands.SweepCloses` | internal/server/store/commands.go:72-76 | A sweep closes exactly the open commands whose time has come |
| `CommandService.Hub.Register` | internal/server/hub/hub.go:32-42 | A new connection takes the device's place and cuts off the old one |
| `CommandService.Hub.Unregister` | internal/server/hub/hub.go:44-50 | A replaced connection that ends late does not remove its successor |
| `CommandService.Hub.Send` | internal/server/hub/hub.go:54-67 | Never blocks: appends if there is a connection with room, else drops |
| `CommandService.Service.OpenCommands` | internal/server/store/commands.go:44-49 | Exactly the open, unexpired commands of the device, oldest first |
| `CommandService.Service.Deliver` | internal/server/commands/commands.go:85-112 | Sends a command of a known kind and marks it only if it was pending and the link took it |
| `CommandService.Service.DeliverPending` | internal/server/commands/commands.go:74-83 | The link receives the open commands in order as far as they fit, and exactly those are marked |
| `CommandService.Service.CompleteCommand` | internal/server/store/commands.go:55-64 | Records a result, as success or failure as it says, only for an open command of that device, and tells whether it did |
| `CommandService.Service.ExpireCommands` | internal/server/store/commands.go:72-76 | Expires the due open commands and counts them |
| `CommandService.Executor.Run` | internal/agent/executor/executor.go:34-75 | Runs an unseen command once and memoises its result: a ping succeeds, an unsupported kind fails, any other succeeds exactly if its action ended without an error; a seen one is answered from the memo |
| `Authenticode.HeaderBounds` | internal/agent/scan/authenticode.go:46-104 | Every header field read lies before the directory entry and outside the checksum, and all parts lie in the file |
| `Authenticode.RangesAreExact` | internal/agent/scan/authenticode.go:46-127 | The ranges are ordered, disjoint, in bounds and cover exactly the bytes outside checksum, entry and table |
| `Authenticode.RangesAreKept` | internal/agent/scan/authenticode.go:46-127 | The concatenated ranges are the kept bytes in file order |
| `Authenticode.HashSeesTheRest` | internal/agent/scan/authenticode.go:19-42 | Images of one layout and size hash the same bytes if and only if they differ only in omitted positions |
| `Authenticode.SigningInvariance` | internal/agent/scan/authenticode.go:46-127 | Setting the checksum, filling in the entry and appending the table it names leave the hashed bytes unchanged |
| `Authenticode.StrippingInvariance` | internal/agent/scan/authenticode.go:46-127 | Removing a trailing certificate table and its entry leaves the hashed bytes unchanged |
| `Authenticode.ChecksumInvariance` | internal/agent/scan/authenticode.go:46-127 | Setting the checksum of any accepted image leaves the hashed bytes unchanged |
| `Authenticode.Feed` | internal/agent/scan/authenticode.go:19-42 | The streaming loop feeds exactly the ranges, in order |
| `Authenticode.AuthenticodeHash` | internal/agent/scan/authenticode.go:19-42 | What is fed to the hash is exactly what is not omitted; other files are hashed whole |
| `AuthenticodeBytes.ImageHash` | internal/agent/scan/authenticode.go:46-127 | For a file with "MZ", "PE" at the offset named at 0x3C, a PE32 or PE32+ magic and room in its headers, the hashed bytes leave out exactly the four at pe+88; with at least five directories the eight at pe+152 or pe+168; and the table those name, if it lies behind them and in the file |
| `AuthenticodeBytes.OthersAreWhole` | internal/agent/scan/authenticode.go:19-42 | Any other file is hashed whole |
| `AuthenticodeBytes.SigningByPosition` | internal/agent/scan/authenticode.go:46-127 | Writing any four bytes at pe+88, the position and size of a new table at pe+152 or pe+168, and the table behind the file leaves the hashed bytes unchanged |
| `WdacRules.NormalizeIdempotent` | internal/appcontrol/rules/rules.go:33-53 | Normalising twice is normalising once |
| `WdacRules.NormalIsKnown` | internal/appcontrol/rules/rules.go:33-53 | A normal rule has a known kind, and a hash or publisher value is 64 upper-case hexadecimal digits |
| `WdacRules.HashNormalForm` | internal/appcontrol/rules/rules.go:25-53 | A hash or publisher rule is accepted if and only if its trimmed value is 64 characters of 0-9, a-f, A-F; the normal value writes the same digits in upper case |
| `WdacRules.HashNormalFormsAgree` | internal/appcontrol/rules/rules.go:33-53 | Two accepted values have the same normal value if and only if they differ in the case of letters only |
| `WdacRules.UpperIsNormal` | internal/appcontrol/rules/rules.go:33-53 | A value in upper case is its own normal value |
| `WdacRules.PathNormalForm` | internal/appcontrol/rules/rules.go:25-53 | A path rule is accepted if and only if its trimmed value, without one trailing wildcard, is a drive letter, a colon, a backslash and none of the forbidden characters; it stays as it is but for the trimming |
| `WdacRules.RuleOrder` | internal/appcontrol/wdac/wdac.go:103-108 | Hash rules come before path rules, those before publisher rules, and rules of one kind in the order of their values |
| `WdacRules.SortRules` | internal/appcontrol/wdac/wdac.go:103-108 | The result is a permutation ordered by kind and value |
| `Text.EscapeRoundTrip` | internal/appcontrol/wdac/wdac.go:202-205 | An XML reader gets the text back, and the escaped text holds no quote or angle bracket |
| `Text.DecimalInjective` | internal/appcontrol/wdac/wdac.go:127-151 | Different numbers have different decimal texts, so numbered ids differ |
| `Text.DecimalReadsBack` | internal/appcontrol/wdac/wdac.go:127-151 | A number is written in decimal digits that write it, without leading zeros |
| `Text.StrLessMeaning` | internal/appcontrol/wdac/wdac.go:103-108 | Lexicographic order: the first difference decides, and a proper prefix comes first |
| `Text.TrimMeaning` | internal/appcontrol/rules/rules.go:33-37 | Trimming takes away the white space before and after a text and nothing else |
| `Wdac.Compile` | internal/appcontrol/wdac/wdac.go:94-194 | Fails exactly when some rule has no normal form; otherwise emits the policy of some sorted arrangement of the normal rules, in audit mode unless the mode is enforce |
| `Wdac.EmitRules` | internal/appcontrol/wdac/wdac.go:126-151 | The loop with its running id fills file rules, references, signers and user references as specified, references matching entries |
| `Wdac.EmitBaseline` | internal/appcontrol/wdac/wdac.go:110-124 | Every baseline signer is emitted and referenced in its own scenario |
| `Wdac.NormalizeRules` | internal/appcontrol/wdac/wdac.go:95-102 | The normal forms in order, or an error if one rule has none |
| `WdacMeaning.PolicyIdsDistinct` | internal/appcontrol/wdac/wdac.go:110-194 | Position by position: no id is declared twice among signers and file rules together, and no list of references repeats one |
| `WdacMeaning.SignerIdsDistinct` | internal/appcontrol/wdac/wdac.go:110-151 | Built-in and generated signers, and the user-mode references to them, have pairwise different ids |
| `WdacMeaning.FileRuleIdsDistinct` | internal/appcontrol/wdac/wdac.go:126-151 | Any two file rules have different ids, each made from the number of its rule |
| `WdacMeaning.ReferencesResolve` | internal/appcontrol/wdac/wdac.go:110-194 | Every signer, file-rule and usage reference names a declared entry |
| `WdacMeaning.RuleIsWritten` | internal/appcontrol/wdac/wdac.go:126-151 | Every rule has an entry numbered by its position, from which an XML reader gets back the description, the path and the name, or "Publisher" for a missing name |
| `WdacMeaning.KernelMeaning` | internal/appcontrol/wdac/wdac.go:169-173 | Kernel mode allows exactly what a baseline kernel signer allows, whatever the rules |
| `WdacMeaning.CompiledMeaning` | internal/appcontrol/wdac/wdac.go:94-194 | User mode allows exactly the baseline user signers plus the files some given rule names, for every outcome of the sort |
| `WdacBaseline.BaselineIsOk` | internal/appcontrol/wdac/wdac.go:40-91 | The built-in table has distinct ids, clear of the generated ones, and its usages are declared |
| `WdacBaseline.StandardPolicyMeaning` | internal/appcontrol/wdac/wdac.go:40-194 | The meaning theorem for the policy with the built-in signers |
| `WdacDeterminism.SameKeys` | internal/appcontrol/wdac/wdac.go:103-108 | All results of the unstable sort have the same key at each position |
| `WdacDeterminism.DeterministicIff` | internal/appcontrol/wdac/wdac.go:94-194 | All results of the sort give the same policy if and only if rules with equal kind and value agree in their label |
| `WdacDeterminism.PermutationInvariance` | internal/appcontrol/wdac/wdac.go:94-194 | With distinct normal keys every permutation of the input compiles to the same policy |
| `WdacDeterminism.OrderShowsThrough` | internal/appcontrol/wdac/wdac.go:103-108 | Two hash rules for one file with different descriptions: the policy depends on their order |
| `Decision.BoundaryIsComponents` | driver/core/fl_decision.c:80-108 | The separator test at the end of the prefix decides containment of whole path components |
| `Decision.AllowedIff` | driver/core/fl_decision.c:132-209 | An image is allowed exactly when nothing is loaded, it is the agent's own, or some rule names it |
| `Decision.ReasonLaw` | driver/core/fl_decision.c:132-209 | Which reason a decision carries, each by its exact condition: the agent's own path before a listed hash, that before a listed verified publisher, that before a path rule; an image without hash, signer and path is unknown; blocked only in enforce mode |
| `Decision.CoversMeaning` | driver/core/fl_decision.c:80-108 | What a path rule covers, in bytes: its own path, and for a prefix rule any longer one that goes on at a backslash or a slash |
| `Decision.ModeLaw` | driver/core/fl_decision.c:132-209 | The mode changes no reason, and audit reports exactly what enforce blocks |
| `Decision.NeverLosesAllowIff` | driver/core/fl_decision.c:125-209 | Adding rules with hashes of record size never takes an allowance away if and only if the ruleset already has a hash, publisher or path rule |
| `DecisionCore.BytesCmp` | driver/core/fl_decision.c:16-25 | The sign of the result is the lexicographic order of the two byte strings |
| `DecisionCore.HashPresent` | driver/core/fl_decision.c:48-68 | Finds only what is there; over ascending records everything as long as offsets do not wrap, and misses the last record as soon as they can |
| `DecisionCore.SortedRecords` | driver/core/fl_decision.c:213-228 | Accepts exactly the strictly ascending arrays of at most 2^27 records |
| `DecisionCore.PathsValid` | driver/core/fl_decision.c:230-248 | Accepts exactly the lists of rules with a path of legal length and a known kind |
| `DecisionCore.RulesetValid` | driver/core/fl_decision.c:250-277 | Accepts exactly the well-formed rulesets |
| `DecisionCore.PathMatches` | driver/core/fl_decision.c:80-108 | Matches exactly the paths the rule covers, by equality or by whole components |
| `DecisionCore.AnyPathMatches` | driver/core/fl_decision.c:110-123 | True exactly when some listed rule covers the path |
| `DecisionCore.FlDecide` | driver/core/fl_decision.c:132-209 | For a well-formed ruleset, verdict and reason of the specification by set membership; without a ruleset or request, allow; never block outside enforce mode (1) and never a would-block in it |
| `Alerting.EvaluateRuleView` | internal/server/alerting/alerting.go:59-102 | Evaluating one rule moves the state of its own device and rule as the sample demands and no other |
| `Alerting.RunView` | internal/server/alerting/alerting.go:59-102 | After any run of samples and edits the tables hold for each device and rule what its own history makes of it |
| `AlertingTrace.HistoryMeaning` | internal/server/alerting/alerting.go:132-141 | The stored onset is the start of the current stretch of breaching samples; the alert is open exactly when a stretch was sustained and no sample has cleared it since |
| `AlertingTrace.AlertTrace` | internal/server/alerting/alerting.go:59-141 | For every run, with edits and other devices interleaved: at most one open alert per device and rule, open exactly as the history demands, and raised and resolved notifications alternate |
| `AlertingTrace.UneditedTrace` | internal/server/alerting/alerting.go:59-141 | For an unedited rule and samples in time order: open exactly when the trailing breaching samples span the duration |
| `AlertingLaw.OpenIff` | internal/server/alerting/alerting.go:59-141 | For every run of samples of any devices and edits of other rules, a rule has an unresolved alert row for a device if and only if it is enabled and the device's latest samples are all over (or under) the threshold in its metric and span its duration in seconds |
| `AlertingService.Service.ListEnabledAlertRules` | internal/server/store/metrics.go:75-87 | The enabled rules in their order |
| `AlertingService.Service.MarkBreachOnset` | internal/server/store/ratelimit.go:40-47 | Stores the time unless an onset is stored, and returns the stored one |
| `AlertingService.Service.RaiseAlert` | internal/server/store/metrics.go:126-135 | Inserts a row exactly when the device and rule have no open one |
| `AlertingService.Service.ResolveAlert` | internal/server/store/metrics.go:139-146 | Closes the open rows of the device and rule and tells whether there was exactly one |
| `AlertingService.Service.SustainedFor` | internal/server/alerting/alerting.go:132-141 | Without a duration at once; otherwise when the stored onset is that long ago |
| `AlertingService.Service.Evaluate` | internal/server/alerting/alerting.go:59-102 | The loop over the rules is one sample step of the runs the theorems speak of |
| `AlertingService.Service.UpdateAlertRule` | internal/server/store/metrics.go:91-105 | Replaces the row in place and deletes the rule's onsets one by one, keeping every other onset and all alerts, or reports that there is no such rule |
| `Ringfence.ForeignKept` | internal/agent/ringfence/ringfence_windows.go:83-110 | A rule without the prefix is there afterwards exactly if it was before |
| `Ringfence.NetworkExactIff` | internal/agent/ringfence/ringfence_windows.go:83-125 | One application leaves exactly the ringfence's rules if and only if no foreign name hides the name of a rule still to be added |
| `Ringfence.FindMeaning` | internal/agent/ringfence/ringfence_windows.go:113-125 | A name is listed if and only if it holds the prefix somewhere, and then from the first such place on, trimmed |
| `Ringfence.EqualFoldIff` | internal/agent/ringfence/ringfence_windows.go:63-70 | Two paths are equal to the agent if and only if they differ in the case of ASCII letters only |
| `Ringfence.ShadowHidesRule` | internal/agent/ringfence/ringfence_windows.go:113-125 | A foreign rule with an own name inside its name keeps that rule from being added |
| `Ringfence.AsrBecomesExact` | internal/agent/ringfence/ringfence_windows.go:127-165 | Of the curated values exactly the protections are set, each by its last action: to 2 to audit, otherwise to 1 |
| `Ringfence.AsrForeignKept` | internal/agent/ringfence/ringfence.go:41-63 | Values outside the curated set are neither written nor deleted |
| `RingfenceVersion.WriteVersion` | internal/server/store/ringfence.go:277-287 | The two writing loops produce the specified text |
| `RingfenceDecoding.VersionTextDetermines` | internal/server/store/ringfence.go:274-287 | For all ringfences, line breaks or not, whose paths do not read like the end of one program and the start of the next: two texts are equal if and only if mode, programs and protections are |
| `RingfenceDecoding.CollidesIff` | internal/server/store/ringfence.go:277-287 | A text is also that of a ringfence with more programs if and only if some path, at any place in the list, holds such a seam |
| `RingfenceDecoding.CutKeepsText` | internal/server/store/ringfence.go:277-287 | Cutting any path at any seam gives a ringfence with one more program and the same text |
| `RingfenceDecoding.SeamlessReading` | internal/server/store/ringfence.go:277-287 | Every text has exactly one reading without seams |
| `RingfenceRuns.SkipIsSound` | internal/agent/ringfence/ringfence_windows.go:60-62 | A ringfence with the applied version has the applied version text, and the applied content when no path has a seam |
| `RingfenceRuns.EveryApplication` | internal/agent/ringfence/ringfence_windows.go:57-79 | After any sequence of applications, for all paths and foreign rules: a refused one names an agent image and changes nothing; after any other the host holds that ringfence (or one with the same text, if it was skipped) up to rules hidden by foreign names; foreign entries are as at the start and no agent image has a rule |
| `RingfenceRuns.EverySeamlessApplication` | internal/agent/ringfence/ringfence_windows.go:57-79 | Without seams an application is refused exactly when it names an agent image, and otherwise the host holds that very ringfence; exactly it, if no rule it wants is hidden |
| `RingfenceRuns.SeamIsSkipped` | internal/agent/ringfence/ringfence_windows.go:60-62 | A ringfence with a seam is skipped while the one it reads like is applied, and if it enforces a block on the path with the seam, the host fails it: that path has no rule |
| `RingfenceRuns.PathIndependence` | internal/agent/ringfence/ringfence_windows.go:57-165 | Whatever was applied before, the same ringfence leads to the same values and, but for wanted rules hidden by foreign names, the same rules; to the same firewall if none is hidden |
| `RingfenceEnforcer.Diff` | internal/agent/ringfence/ringfence.go:107-127 | Adds exactly the blocked programs without a listed rule, removes exactly the listed rules not wanted |
| `RingfenceEnforcer.StaleMeaning` | internal/agent/ringfence/ringfence.go:41-63 | A name is stale exactly when it is present, curated in any letter case, and not wanted |
| `RingfenceEnforcer.StaleASRValues` | internal/agent/ringfence/ringfence.go:51-63 | The stale names in the order and spelling in which they are present |
| `RingfenceEnforcer.Enforcer.ExistingRules` | internal/agent/ringfence/ringfence_windows.go:113-125 | Exactly the names that the listing yields |
| `RingfenceEnforcer.Enforcer.ApplyNetwork` | internal/agent/ringfence/ringfence_windows.go:83-110 | List, compare, delete and add give the specified firewall |
| `RingfenceEnforcer.Enforcer.ApplyASR` | internal/agent/ringfence/ringfence_windows.go:127-165 | Reading, deleting and setting give the specified values, under the names they are stored with |
| `RingfenceEnforcer.Enforcer.ApplyFence` | internal/agent/ringfence/ringfence_windows.go:57-79 | Skip, refusal or reconciliation, as in the runs the theorems speak of |
| `Syslog.HeaderRoundTrip` | internal/server/notify/syslog.go:100-137 | Splitting at the first seven unescaped pipes gives back the scrubbed kind and title in their places and then the extension |
| `Syslog.ReadEscaped` | internal/server/notify/syslog.go:66-74 | Reading up to the delimiter undoes the escaping of any text |
| `SyslogRecords.OneSignPerPair` | internal/server/notify/syslog.go:112-130 | The extension holds exactly one unescaped equals sign per pair |
| `SyslogRecords.ExtensionRoundTripIff` | internal/server/notify/syslog.go:112-130 | A receiver reads the time as rt, the body as msg, the tenant as cs1 with its label, and the details by ascending key, all scrubbed, if and only if no detail key holds a blank or line break |
| `SyslogRecords.CefOneLine` | internal/server/notify/syslog.go:100-137 | A CEF record holds no CR or LF |
| `SyslogRecords.Rfc5424OneLine` | internal/server/notify/syslog.go:76-98 | An RFC 5424 record holds no CR or LF |
| `SyslogReading.SeverityLaw` | internal/server/notify/syslog.go:32-50 | Priority 108 and CEF severity 6 for a raised alert or a paused rollout, 109 and 4 for a new approval request, 110 and 3 for anything else |
| `SyslogReading.CefFrameIff` | internal/server/notify/syslog.go:100-137 | Priority with time, host and program are read back in front of the CEF part if and only if time and host hold no blank |
| `SyslogReading.Rfc5424ReadsBackIff` | internal/server/notify/syslog.go:76-98 | By section 6 of RFC 5424 a receiver reads back priority, version, time, host, program, process, kind, the structured tenant and kind, and title, body and detail as the message, if and only if the words hold no blank and the structured values no quote or backslash |
| `SyslogRecords.StreamRoundTrip` | internal/server/notify/syslog.go:55-61 | Under the framing of section 3.4.2 of RFC 6587 a receiver reads back exactly the records sent |
| `SyslogRecords.SortedKeysUnique` | internal/server/notify/syslog.go:118-127 | The details have one ascending order, so equal events give equal records |
| `SyslogFormat.FormatCEF` | internal/server/notify/syslog.go:100-137 | Collecting, sorting, escaping and joining give the specified record |
| `SyslogFormat.Record` | internal/server/notify/syslog.go:144-186 | The record of the chosen format, on one line; an unknown format is a permanent error |
| `Approvals.TouchTwice` | internal/server/store/approvals.go:80-115 | Two writes for one device are one write of the merged facts |
| `Approvals.BatchIsFold` | internal/server/store/approvals.go:29-117 | Aggregating a batch and writing each hash once is writing event by event |
| `Approvals.BatchIndependence` | internal/server/store/approvals.go:29-117 | Timed events give the same rows however they are cut into consecutive batches |
| `ApprovalRuns.RowMeaning` | internal/server/store/approvals.go:25-117 | After any run, rows exist exactly for keys with an event and hold their number, first and last time, first non-empty texts, whether any was verified, and the number of distinct devices |
| `ApprovalRuns.ReportKeepsStatus` | internal/server/store/approvals.go:25-28 | A report changes neither status nor decision of any row and removes none |
| `ApprovalRuns.DecisionIsFinal` | internal/server/store/approvals.go:148-179 | Whatever happens later, a row that is not pending keeps its status and decision |
| `ApprovalRuns.StatusHistory` | internal/server/store/approvals.go:148-179 | In every run a request is approved or denied if and only if it was pending when that was decided, and carries that admin and time; expired if and only if it was pending and without recent activity at a sweep; otherwise pending without a decision |
| `ApprovalRuns.ReportedOnce` | internal/server/store/approvals.go:76-117 | Over a run each row is reported as new exactly once |
| `ApprovalStore.AggregateBatch` | internal/server/store/approvals.go:37-71 | The loop over the events builds the merged facts of each hash and the order of first appearance |
| `ApprovalStore.Store.UpsertRow` | internal/server/store/approvals.go:83-114 | Inserts or merges the row, records the device and counts it once |
| `ApprovalStore.Store.UpsertApprovalRequests` | internal/server/store/approvals.go:29-117 | The new tables and the keys reported as new are those of the report step of the runs |
| `ApprovalStore.Store.DecideApprovalRequest` | internal/server/store/approvals.go:151-165 | Decides a pending request, approved or denied with admin and time; tells an unknown one from a decided one |
| `ApprovalStore.Store.ExpireApprovalRequests` | internal/server/store/approvals.go:175-179 | Walks the rows, changes exactly the pending ones without recent activity, and returns how many they are |

## Left out

- HTTP handlers, gRPC plumbing, the React console and generated protobuf code: transport and user interface only.
- Cryptography: SHA-256 and its truncations are functions that tell the inputs in play apart, signatures are predicates, and the hash of a file is modelled by the bytes fed to it.
- PostgreSQL: each statement or transaction is one atomic step; tables hold one tenant, and host names stand for their place in the database's sort order.
- Rollouts: passes are serial and read a current snapshot; concurrent passes and stale snapshots are not modelled. Command ids are unique per pass and device. The events a pass emits and its log lines are dropped.
- Outbox: payload, channel and last-error columns are dropped, and the claim's update and the reading of the claimed rows are one step. The dispatcher's timer and wake channel are not modelled.
- Commands: the executor handles one command at a time, as the runner calls it; payloads are part of the command's identity.
- Authenticode: read errors of the file are not modelled.
- WDAC: the policy is a tree of entries with escaped attribute texts instead of one XML text, the fixed options and GUIDs are dropped, path patterns are matched by an arbitrary function, and the white-space normalisation of XML attributes by readers is not modelled. Upper-casing is that of ASCII letters.
- DecisionCore: the memory that the C code only reads is given as constant sequences, so aliasing is not captured.
- Alerting: percentages are reals without NaN, times are exact nanoseconds instead of the database's microseconds, message texts are dropped. Creating a rule during a run, deleting a rule or device, and the retention job that deletes resolved alerts (`internal/server/store/retention.go:18`) are not modelled.
- Ringfences: operating-system calls succeed, so failures between the firewall and the registry part are not modelled; two firewall rules with the same name and program are one; the reading of violation events is not modelled. Case folding is that of ASCII letters.
- Syslog: dialling and writing are not modelled; the JSON text of the details and the printed detail values are inputs; the missing escape of quotes in RFC 5424 structured data is reproduced, not judged.
- Approvals: an event without a time takes one clock reading per batch; the row id is its key; the device table is a set beside each row.
- USB, elevation and network controls, sessions, bootstrap, certificates and key sealing: a few foreign calls or wrappers each.

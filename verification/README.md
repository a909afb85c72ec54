# Fan control that nobody loses: a verified model of OpenHardwareOS

OpenHardwareOS reads sensors, runs automation rules over them and drives fans. This project
models the parts of it whose mistakes leave a fan at a speed nobody chose, and proves what
they promise:

* the **control-responsibility engine** (`Engine`, `Handovers`, `EngineMachine`), a state machine
  over rules, what each rule holds, the book of channels that are owed the fail-safe duty, and the
  record on disk that survives a crash (`Responsibility`, `Limits`, `Ownership`, `Recording` and
  `CrashSafety` prove what every run keeps; `Closing`, `Turns` and `Edits` prove what a cycle, a
  rule's turn and an edit bring about);
* the **rule evaluator and its curve** (`Curves`, `Evaluator`, `Tracking`, `Requests`), run after run;
* the **hwmon ownership protocol** (`Hwmon`, `Duties`), over process generations;
* the **LibreHardwareMonitor mapping** (`Pairing`, `Naming`, `DeviceMap`);
* the **version catalogue tool** (`Transaction`, `Catalogue`, `Drawing`);
* the **thermal model** of the simulated hardware (`Thermal`).

Code that updates its state in place is modelled as a class or as a method with loops, and each
such method is proved to compute a specification function of the old state, or to keep a stated
relation to it; the theorems are about those functions, over all inputs and all runs.
`EngineMachine.RunSession`, `Evaluator.RunLoop`, `Hwmon.RunGenerations` and
`Transaction.Disk.WriteFiles` carry them over to the objects.

Environment choices (how a device write ends, whether a file operation fails, what other programs
write and when, whether readings are stale, what resolves) are parameters of the operations.
`real` stands for `f64`, an option for a number that may be NaN, `int` for a time in milliseconds;
64-bit saturation is written out where the program saturates. Automatic induction is switched off
for every lemma, so each proof is the one that is written.

## What the code does that its comments do not say

The model follows the code. Where a comment or a promise says otherwise, the members named below
state exactly what holds instead.

* Rule files `a.yaml` and `a.yml` give two rules one id, and one memory. A channel can then be lost:
  `Limits.AmbiguousIdsLose` constructs the loss whenever an id is ambiguous about its channel after
  a load, and `Limits.UnambiguousIdsKeep` shows that nothing is lost otherwise.
* A refused device write is returned as a report, not as an error
  (`crates/ohm-runtime/src/runtime.rs:966-1000`), so the branch `engine.rs` calls unreachable is
  taken: no hold, no failure policy (`Limits.RefusedWriteLeavesNoTrace`).
* The hysteresis anchor moves before a write is tried. After a refused fall the rule does not ask
  again until the reading is a whole hysteresis lower (`Tracking.RefusedFallWaits`); after a
  fail-safe write the old anchor stays and can hold the rule at the fail-safe duty
  (`Tracking.FailSafeKeepsAnchor`). Both are stated as equivalences.
* A write the device settles without a number leaves a hold of unknown value and does not mark the
  record for saving. `Recording.TickCovers` says exactly which cycles then end with the hold off the
  record: nothing is saved after the write, not even at the end of the cycle, and neither an earlier
  save nor the record on disk lists that hold already. `CrashSafety.SettledWithoutNumber` is a run
  that reaches one.
* A recovered unconfirmed write of an enabled rule is not put back in memory, so the record survives
  one crash but not always two. `CrashSafety.LaterRecordsHold` says exactly what is left after any
  cycles that leave the channel alone: what was on disk until a cycle saves, then what the restart
  put on the books. `CrashSafety.SecondCrashForgets` is a run that forgets.
* The mark of a claim on a parked handover outlives re-arming, a restart and its verification
  (`Ownership.MarkOutlives`), so an item whose attempts are spent can resume by itself with a fresh
  budget (`Ownership.SpentHandoverWaits`). A channel listed twice can then be written twice in one
  cycle: `Ownership.OneHandoverWritePerCycle` says exactly when, and
  `Ownership.RestoredClaimWritesTwice` is a run that does it with no user in it.
* hwmon forgets an original in exactly three cases, one of them a failed duty write whose restore
  fails too: the memory is dropped before the mode is written back (`Hwmon.StepKeeps`).
* A hardware node becomes a device exactly when each of its sensors finds one of its 99 names free
  (`DeviceMap.TopMappedExactly`); one with a hundred sensors of one name is not mapped, silently
  (`DeviceMap.CrowdedDeviceVanishes`).
* Looking up a missing ancestor while climbing the version tree is a key error of the lookup, not
  the error the check is written to report (`Catalogue.WalkUp`).

## Model

| member | source | states |
|---|---|---|
| Ids.QualifiedIdInjective | crates/ohm-core/src/ids.rs:17-42 | comparing `device/capability` texts decides the same question as comparing the channels, because ids hold no slash |
| Handovers.QueueOwes | crates/ohm-automation/src/handover.rs:266-305 | queueing owes exactly one more channel and forgets none; duplicates stay unverified |
| Handovers.SettleOwes | crates/ohm-automation/src/handover.rs:542-586 | settling can only close the settled channel |
| Handovers.RestoreOwes | crates/ohm-automation/src/handover.rs:427-432 | restoring owes exactly the recovered channel more |
| Handovers.RearmKeeps | crates/ohm-automation/src/handover.rs:589-601 | re-arming keeps every item, its place and its channel |
| EngineMachine.AutomationEngine.BuildRecoveryRecord | crates/ohm-automation/src/engine.rs:1463-1497 | the record lists the whole book and every issued-but-unconfirmed write, in rule order |
| EngineMachine.AutomationEngine.PersistControlState | crates/ohm-automation/src/engine.rs:1403-1443 | a save replaces the record and clears the mark; a failed one changes nothing |
| EngineMachine.AutomationEngine.RecoverControlState | crates/ohm-automation/src/engine.rs:1504-1621 | every stored handover and every stored write whose rule no longer drives its channel comes back, unverified |
| EngineMachine.AutomationEngine.QueueHandover | crates/ohm-automation/src/engine.rs:2032-2061 | a held channel is queued unless the configuration named another one |
| EngineMachine.AutomationEngine.ReactToRuleChange | crates/ohm-automation/src/engine.rs:1957-2023 | an edit that leaves control queues, records, then forgets; any semantic edit makes the rule due |
| EngineMachine.AutomationEngine.ResolveLoadedConflicts | crates/ohm-automation/src/engine.rs:1857-1909 | the list of owners kept by the loop stands down exactly the later claimants of each target |
| EngineMachine.AutomationEngine.LoadRules | crates/ohm-automation/src/engine.rs:311-400 | the whole load, with recovery once per process |
| EngineMachine.AutomationEngine.ConflictingRule | crates/ohm-automation/src/engine.rs:1375-1387 | finds another enabled rule on the target exactly when there is one |
| EngineMachine.AutomationEngine.SaveRule | crates/ohm-automation/src/engine.rs:2064-2117 | a save is accepted exactly without a conflict, and its whole effect |
| EngineMachine.AutomationEngine.SetRuleEnabled | crates/ohm-automation/src/engine.rs:2159-2182 | enabling and disabling are saves, refused on a conflict or an unknown id |
| EngineMachine.AutomationEngine.DeleteRule | crates/ohm-automation/src/engine.rs:2123-2156 | what a deleted rule held is queued before its memory is gone |
| EngineMachine.AutomationEngine.VerifyRecoveredState | crates/ohm-automation/src/engine.rs:737-818 | recovered items become live or failed by what the device is now, and nothing happens on stale data |
| EngineMachine.AutomationEngine.PerformPendingHandovers | crates/ohm-automation/src/engine.rs:510-722 | the handover pass over the items as they were when it began |
| EngineMachine.AutomationEngine.AttemptHandover | crates/ohm-automation/src/engine.rs:623-720 | an unclaimed item resumes, waits, or is written and settled on a confirmed number only |
| EngineMachine.AutomationEngine.RunOneRule | crates/ohm-automation/src/engine.rs:955-1174 | what a rule remembers and what is written down after each way a write can end |
| EngineMachine.AutomationEngine.ReactToWriteFailure | crates/ohm-automation/src/engine.rs:1178-1275 | the rule stays answerable, on disk before going on, and the failure policy writes unless it holds |
| EngineMachine.AutomationEngine.RunDueRules | crates/ohm-automation/src/engine.rs:889-947 | the loop with its list of claimed targets is the sequence of turns |
| EngineMachine.AutomationEngine.TickOnce | crates/ohm-automation/src/engine.rs:863-953 | one cycle: handovers first, then the rules that are due, then the record |
| EngineMachine.AutomationEngine.Shutdown | crates/ohm-automation/src/engine.rs:463-478 | what is still owed is recorded on the way out |
| EngineMachine.RunSession | crates/ohm-automation/src/engine.rs:311-480 | any sequence of operations on the object, crashes included, ends in the state the run names |
| Responsibility.ResponsibilityNeverLost | crates/ohm-automation/src/engine.rs:1957-2061 | over every run, a channel a rule wrote to is held or owed until a fail-safe write to it is confirmed |
| Responsibility.RunKeeps | crates/ohm-automation/src/engine.rs:1017-1129 | the invariant of every run: holds name their rule's target, the list is sorted, duplicates are unverified, everything answerable is covered |
| Responsibility.LoadKeeps | crates/ohm-automation/src/engine.rs:311-400 | a reload keeps every channel covered, including those of rules whose file is gone |
| Responsibility.TickKeeps | crates/ohm-automation/src/engine.rs:863-953 | a cycle keeps every channel covered, and the channels it newly writes |
| Limits.AmbiguousIdsLose | crates/ohm-automation/src/store.rs:96-144 | an id that is ambiguous about its channel after a load makes some continuation lose a written channel |
| Limits.UnambiguousIdsKeep | crates/ohm-automation/src/store.rs:96-144 | otherwise no continuation without another load loses one |
| Limits.DistinctIdsAreUnambiguous | crates/ohm-automation/src/store.rs:96-144 | distinct ids are enough |
| Limits.RefusedWriteLeavesNoTrace | crates/ohm-automation/src/engine.rs:1140-1143 | after a due write, the memory names the target exactly when the write was not refused or it was named before |
| Recording.TickCovers | crates/ohm-automation/src/engine.rs:863-953 | a cycle whose saves succeed leaves the record covering the memory exactly when it has no gap: a settled write without a number that neither a later save nor the record it started from lists |
| Recording.TurnsTracked | crates/ohm-automation/src/engine.rs:889-947 | after any number of turns: what every idle rule holds, that every unlisted hold is a numberless write of this cycle, and which of those the record lists |
| Recording.RecordExact | crates/ohm-automation/src/engine.rs:1483-1496 | a saved record lists exactly the holds of unknown value |
| Recording.LoadCovers | crates/ohm-automation/src/engine.rs:311-400 | a reload whose save succeeds leaves the record covering the memory |
| CrashSafety.RecordCoversMemory | crates/ohm-automation/src/engine.rs:1463-1497 | when saves succeed, the record covers every owed channel and every unconfirmed hold at the end of every operation of a run, across crashes, exactly when no cycle of the run has a gap |
| CrashSafety.StepCovers | crates/ohm-automation/src/engine.rs:1403-1443 | from a covering record, an operation whose saves succeed leaves a covering record exactly when it is not a cycle with a gap |
| CrashSafety.RestartRecovers | crates/ohm-automation/src/engine.rs:1504-1621 | after a restart a channel is owed exactly when the record owed it or lists an orphaned write to it |
| CrashSafety.CrashSafety | crates/ohm-automation/src/engine.rs:1504-1621 | crash after any run without a gap: every owed channel is owed again or its writer returns, every unconfirmed write is owed or its own rule still drives it |
| CrashSafety.SettledWithoutNumber | crates/ohm-automation/src/engine.rs:1020-1036 | one rule and one cycle reach a gap: the hold is in memory, nothing is on disk, and after a crash nobody owes the channel |
| CrashSafety.FirstRecordHolds | crates/ohm-automation/src/engine.rs:1560-1577 | the first record a restarted process can save lists a channel exactly when the old record owed it or lists an orphaned write to it |
| CrashSafety.LaterRecordsHold | crates/ohm-automation/src/engine.rs:1560-1577 | after any cycles that leave the channel alone, the record on disk says what it said if none of them saved, and otherwise lists the channel exactly when the restart put it on the books |
| CrashSafety.SecondCrashForgets | crates/ohm-automation/src/engine.rs:1560-1577 | a run whose recovered write the next saved record forgets |
| Ownership.OneOwnerPerOutput | crates/ohm-automation/src/engine.rs:1857-1890 | every run keeps the list sorted with at most one enabled rule per target, whatever the files and ids |
| Ownership.LoadIgnoresFileOrder | crates/ohm-automation/src/engine.rs:332-334 | with distinct ids the loaded rules are the same for every order of the files |
| Ownership.LoadKeepsHighestPriority | crates/ohm-automation/src/engine.rs:1852-1890 | an enabled rule survives a load exactly when it leads its target by priority, then id |
| Ownership.OneWriterPerCycle | crates/ohm-automation/src/engine.rs:891-946 | two writes of one cycle to one channel come from one rule's turn or both from handovers, even if the ownership rule is broken |
| Ownership.HandoverClosesOnEvidence | crates/ohm-automation/src/engine.rs:540-720 | an owed channel leaves the book only in a cycle, by its own confirmed write or for an enabled rule with a confirmed value |
| Ownership.RunsCloseOnEvidence | crates/ohm-automation/src/engine.rs:844-852 | the same in every state a run reaches, whatever the files and ids |
| Ownership.OneHandoverWritePerCycle | crates/ohm-automation/src/engine.rs:624-664 | an unclaimed channel is written more than once in a cycle exactly when its first item is pending, marked by a claim, due for its last attempt and not settled by it, and a later item names the channel |
| Ownership.RunsWriteOnce | crates/ohm-automation/src/engine.rs:510-720 | the same equivalence in every state a run reaches, whatever the files and ids |
| Ownership.SpentHandoverWaits | crates/ohm-automation/src/handover.rs:392-420 | a failed item is left alone exactly when it does not carry the mark of a claim |
| Ownership.MarkOutlives | crates/ohm-automation/src/handover.rs:392-458 | the mark of a claim survives queueing, waiting, attempts, re-arming, restoring and verifying; only releasing the claim or failing a recovered item clears it |
| Ownership.RestoredClaimWritesTwice | crates/ohm-automation/src/engine.rs:1504-1621 | a restart and 21 unconfirmed cycles reach a cycle that writes a channel twice |
| Closing.CycleBalance | crates/ohm-automation/src/engine.rs:510-722 | the balance of a cycle: a channel some rule took over is listed no more; of any other, each confirmed fail-safe write closes exactly one item and nothing else closes any, and a claimed channel gets no such write |
| Closing.TakenOverCloses | crates/ohm-automation/src/engine.rs:540-569 | when the first enabled rule on a channel remembers holding it with a confirmed value, the next cycle closes the handover |
| Closing.ClosesExactly | crates/ohm-automation/src/engine.rs:510-722 | in every state a run reaches, an owed channel is owed no more after an operation exactly when it was a cycle and a rule had taken the channel over or every item listing it was closed by a confirmed write |
| Closing.WrittenExactly | crates/ohm-automation/src/engine.rs:623-664 | a channel nobody claims is written in a cycle exactly when its first item is due, waits for a claim that is gone, or was parked because of one |
| Closing.VerifiedExactly | crates/ohm-automation/src/engine.rs:737-818 | of the recovered items, exactly the first of each channel is made live with its whole budget or failed, by what the device is now, and only on fresh readings |
| Closing.QueuedIsDue | crates/ohm-automation/src/handover.rs:266-305 | a queued channel has an item in the name of the rule that left it, live and due at once unless a stopped one was listed first |
| Closing.RetryWrites | crates/ohm-automation/src/handover.rs:589-632 | after the user's retry, a failed handover of a channel nobody claims is written in the very next cycle |
| Closing.UnmetClaimParks | crates/ohm-automation/src/handover.rs:329-386 | over any cycles in which a rule claims a channel without driving it, a live handover, listed once, waits through fifty and is parked by the fifty-first |
| Closing.ReleasedIsWritten | crates/ohm-automation/src/handover.rs:392-420 | when the claim goes, the waiting or parked item is written in the next cycle |
| Closing.FiveTries | crates/ohm-automation/src/handover.rs:498-537 | over any cycles that confirm nothing, a due handover, listed once, is written in the first and in every fifth after it, five times in all, and then has failed |
| Turns.RunOutcome | crates/ohm-automation/src/engine.rs:1009-1174 | for every way a write can end: what the rule holds, how many unconfirmed writes in a row it remembers, when it is due, and what it writes |
| Turns.PolicyWrites | crates/ohm-automation/src/engine.rs:1178-1262 | the failure policy writes exactly when it is not to hold and the rule's own write failed or was the third in a row nobody confirmed |
| Turns.EveryThirdUnconfirmed | crates/ohm-automation/src/engine.rs:1056-1112 | the same over any cycles, for a rule with an id of its own: the policy writes exactly after a failed write and after the third, sixth, ninth unconfirmed one since the last settled write |
| Turns.WritesWhenDue | crates/ohm-automation/src/engine.rs:889-947 | a rule with an id of its own that asks for a write is written in a cycle exactly when it is enabled, no earlier enabled rule names its target, and it is due or forced |
| Turns.KeepsItsInterval | crates/ohm-automation/src/engine.rs:920-973 | after a turn of a rule with an id of its own, the next one is in the first cycle with automation on that is forced or comes an interval later, however the cycles are spaced |
| Edits.SaveTakesEffect | crates/ohm-automation/src/engine.rs:2064-2117 | an accepted save on a free target puts the rule in force, due at once, makes what it left owed and touches no other rule or memory; any other save changes nothing |
| Edits.SwitchTakesEffect | crates/ohm-automation/src/engine.rs:2159-2182 | switching puts the rule on or off, and what it held is owed; without agreement or on a taken target nothing changes |
| Edits.SwitchedOffIsWritten | crates/ohm-automation/src/engine.rs:1957-2061 | the channel of a rule that is switched off gets its fail-safe write in the very next cycle, unless another rule claims it or a stopped handover of it is on the books |
| Edits.DeleteTakesEffect | crates/ohm-automation/src/engine.rs:2123-2156 | a deleted rule is gone with its memory, exactly what it held is owed besides, and no other rule is touched |
| Edits.LoadTakesEffect | crates/ohm-automation/src/engine.rs:311-400 | a reload with distinct ids, rule by rule: what each memory becomes, and exactly which channels are owed besides |
| Curves.New | crates/ohm-automation/src/curve.rs:46-59 | too few points, then non-finite ones, then shared inputs are refused; otherwise the points in strictly increasing input, each once |
| Curves.NewIgnoresOrder | crates/ohm-automation/src/curve.rs:46-59 | every permutation of the points gives the same curve or the same error |
| Curves.RebuildsItself | crates/ohm-automation/src/curve.rs:109-111 | a curve written out as tuples builds itself again |
| Curves.Eval | crates/ohm-automation/src/curve.rs:151-175 | the scan computes the curve; a broken reading commands the least output |
| Curves.OnSegment | crates/ohm-automation/src/curve.rs:161-173 | every segment that holds the input gives the value, so a knee has one value |
| Curves.EvalBounded | crates/ohm-automation/src/curve.rs:129-141 | never below the least output nor above the greatest |
| Curves.SlopesBound | crates/ohm-automation/src/curve.rs:151-175 | bounds on the segment slopes bound the change between any two inputs, across knees and flat ends |
| Curves.Lipschitz | crates/ohm-automation/src/curve.rs:151-175 | two outputs differ by at most the steepest slope times the distance of the inputs |
| Curves.EvalRises | crates/ohm-automation/src/curve.rs:151-175 | rising outputs make a rising curve |
| Curves.InputForOutput | crates/ohm-automation/src/curve.rs:177-190 | an answer lies in the input range and evaluates to the output, and no earlier input does except on a segment that hardly moves; there is none exactly when no steep segment spans the output |
| Curves.EveryOutputIsReached | crates/ohm-automation/src/curve.rs:177-190 | a curve of level and steep segments that moves at all answers for every output between its extremes |
| Evaluator.RuleState.EvaluateInput | crates/ohm-automation/src/evaluator.rs:264-412 | one evaluation as the program updates its fields is the specification's step |
| Evaluator.RuleState.ResolveGate | crates/ohm-automation/src/evaluator.rs:439-478 | the gate by a fresh reading, a reading in its window, or not at all |
| Evaluator.RuleState.EvaluateGated | crates/ohm-automation/src/evaluator.rs:482-541 | standing down clears the anchor and writes only a change |
| Evaluator.RunLoop | crates/ohm-automation/src/engine.rs:986-1129 | a run of evaluations with the engine's feedback after each |
| Tracking.TrackingBound | crates/ohm-automation/src/evaluator.rs:334-367 | over every run of confirmed writes (gate closures, grace and unknown values allowed) a steering step ends within margin below and margin plus slope times hysteresis above the demand |
| Tracking.StepAnchored | crates/ohm-automation/src/evaluator.rs:334-356 | the inductive step: the output stays within the margin of the demand at its anchor, deadband re-anchoring included |
| Tracking.NeverBelowDemand | crates/ohm-automation/src/evaluator.rs:334-367 | from any memory at all, a confirmed steering step is never below the demand by more than the margin |
| Tracking.FallsWhen | crates/ohm-automation/src/evaluator.rs:337-347 | a fall worth writing is written exactly when the anchor is unknown or a hysteresis above the reading |
| Tracking.RefusedFallWaits | crates/ohm-automation/src/evaluator.rs:346-356 | a refused fall is asked for again exactly when the reading is a hysteresis below the one it was asked at |
| Tracking.FailSafeKeepsAnchor | crates/ohm-automation/src/evaluator.rs:570-664 | after a fail-safe write the rule comes down exactly when the old anchor lets it |
| Tracking.GateClearsAnchor | crates/ohm-automation/src/evaluator.rs:502-505 | reopening the gate lands at the demand, from either side, within the margin |
| Tracking.NoFlapping | crates/ohm-automation/src/evaluator.rs:334-367 | in a band narrower than the hysteresis the output never falls and costs at most one write plus one per resolution of the range |
| Tracking.SourceGraceNeverSlides | crates/ohm-automation/src/evaluator.rs:286-300 | for every rule, gated or not, after any silence the last reading is there to steer on exactly while its own window lasts, and otherwise the failure policy is taken |
| Tracking.GateGraceNeverSlides | crates/ohm-automation/src/evaluator.rs:455-476 | the gate sensor's window behaves the same, with the source fresh or in its own window |
| Tracking.WindowIsPlain | crates/ohm-automation/src/evaluator.rs:550-567 | saturating 64-bit arithmetic never changes the answer, for any two times |
| Tracking.RequestsStayInRange | crates/ohm-automation/src/evaluator.rs:328-332 | whichever branch asks, it asks within the hardware range |
| Requests.LimitsHold | crates/ohm-automation/src/evaluator.rs:328-332 | a steering step asks for a duty within the rule's limits, except where the hardware's range lies outside them, and for the curve's own output whenever that lies within both; it departs from it only up or down to a limit |
| Requests.FallsBackTo | crates/ohm-automation/src/evaluator.rs:570-664 | without a reading to steer on, or for the gate, the rule keeps, falls back to its duty or releases to the safe default as its policy says, brought into the range, asking only for a change |
| Requests.GateDecides | crates/ohm-automation/src/evaluator.rs:439-541 | a gate that was read is shut exactly when its comparison fails, and then the rule stands down to its duty or the safe default; otherwise the curve steers |
| Requests.LevelKeepsAnchor | crates/ohm-automation/src/evaluator.rs:346-356 | any number of readings that do not change what the rule wants leave its anchor where it was, however they drift |
| Hwmon.ModeRoundTrip | adapters/system/src/hwmon.rs:280-295 | a mode read from the file survives being published and read back, and names the value to write back |
| Hwmon.DutyRoundTrip | adapters/system/src/hwmon.rs:153-178 | the raw byte is a byte and reads back within half a step of the duty asked for |
| Hwmon.SystemAdapter.WriteDuty | adapters/system/src/lib.rs:900-984 | take, write, and on failure give back: files, memory and outcome |
| Hwmon.SystemAdapter.TakenControls | adapters/system/src/lib.rs:1037-1046 | the published list names each taken channel once, with its exact original |
| Hwmon.SystemAdapter.AdoptTakenControls | adapters/system/src/lib.rs:1057-1104 | each permitted entry is remembered and written back, whatever the order of the list |
| Hwmon.SystemAdapter.ShutDown | adapters/system/src/lib.rs:1112-1157 | every taken channel is attempted, the memory is emptied, and exactly the failures are reported |
| Hwmon.StepKeeps | adapters/system/src/lib.rs:937-984 | a write, crash or clean exit keeps the original exactly when it is not one of the three that lose it |
| Hwmon.OriginalSurvives | adapters/system/src/lib.rs:1057-1141 | over any number of process generations the channel is at its original or in manual mode with the exact original remembered, if and only if no step lost it |
| Hwmon.LostStaysLost | adapters/system/src/hwmon.rs:184-219 | a lost original never comes back: manual is taken for the original |
| Hwmon.CleanExit | adapters/system/src/lib.rs:1112-1157 | a clean exit that can write back restores every channel and owes nothing |
| Hwmon.WriteIsLocal | adapters/system/src/lib.rs:937-984 | a write touches no other channel's files or memory |
| Hwmon.RunGenerations | adapters/system/src/lib.rs:900-1157 | any sequence of writes, crashes and exits on one machine ends where the run says |
| Duties.DutyReachesTheFan | adapters/system/src/lib.rs:900-984 | a write succeeds exactly when nothing refuses it, and names the first thing that does; then the duty file holds the byte nearest to the duty, within half a step, and the channel is in manual mode; otherwise the duty file is as it was |
| Duties.SuccessorGivesBack | adapters/system/src/lib.rs:1057-1104 | a successor permitted a channel its predecessor drove puts the original back and goes on remembering it |
| Pairing.BuildChannels | adapters/libre-hardware-monitor/src/mapping.rs:349-443 | the loops build one channel per number and one per unnumbered sensor |
| Pairing.WritableExactly | adapters/libre-hardware-monitor/src/mapping.rs:388-424 | a pairing can be written exactly when one control carries the number and no tachometer does, or one does from the same carrier |
| Pairing.WritableIgnoresOrder | adapters/libre-hardware-monitor/src/mapping.rs:349-443 | the writable pairings are the same for every permutation of the node's children |
| Pairing.ChannelsIgnoreOrder | adapters/libre-hardware-monitor/src/mapping.rs:349-443 | so are the numbers with a channel and why each is ambiguous |
| Pairing.LosesNothing | adapters/libre-hardware-monitor/src/mapping.rs:349-443 | a fan or control sensor is shown as often as listed, unless its number is contested, and then that channel is marked and nothing of that number is writable |
| Pairing.WhyAmbiguous | adapters/libre-hardware-monitor/src/mapping.rs:388-424 | a numbered channel is ambiguous for its tachometers, else for its controls, else because the two got the number from different places, and the reason counts them |
| Naming.Allocator.Claim | adapters/libre-hardware-monitor/src/mapping.rs:143-158 | terminates with a fresh id, the candidate when it is free, and records exactly the collisions |
| Naming.LongerIsRarer | adapters/libre-hardware-monitor/src/mapping.rs:149-151 | each underscore leaves strictly fewer used ids in the way, which is why the loop ends |
| Naming.Uniquify | adapters/libre-hardware-monitor/src/mapping.rs:617-628 | the first free of the candidate and its 98 suffixes, or the candidate itself |
| Naming.UniqueIsFresh | adapters/libre-hardware-monitor/src/mapping.rs:617-628 | the id is new exactly when one of the 99 names still is |
| Naming.AssignDistinct | adapters/libre-hardware-monitor/src/mapping.rs:185-201 | a device's ids are distinct exactly when every sensor found one of its 99 names free |
| Naming.UpTo99AreDistinct | adapters/libre-hardware-monitor/src/mapping.rs:185-201 | up to 99 sensors always get distinct ids, by a pigeonhole over names that may already look suffixed |
| Naming.HundredOfOneNameCollide | adapters/libre-hardware-monitor/src/mapping.rs:617-628 | a hundred sensors of one name never do |
| Naming.SlotTellsApart | adapters/libre-hardware-monitor/src/mapping.rs:143-158 | a taken candidate gets its slot number, and nodes at different slots never get one id, whatever is in use |
| DeviceMap.BuildMapping | adapters/libre-hardware-monitor/src/mapping.rs:161-273 | the two loops over hardware and channels compute the mapping |
| DeviceMap.NameSensors | adapters/libre-hardware-monitor/src/mapping.rs:185-201 | ids and addresses of one device's sensors |
| DeviceMap.MappingIsOneToOne | adapters/libre-hardware-monitor/src/mapping.rs:161-273 | devices and sensor maps match one to one and no map is overwritten, for every tree |
| DeviceMap.EachKeepsItsAddress | adapters/libre-hardware-monitor/src/mapping.rs:196-200 | each distinct capability reads its own sensor |
| DeviceMap.TopMappedExactly | adapters/libre-hardware-monitor/src/mapping.rs:161-215 | whatever was mapped before, a node becomes a device exactly when it has sensors and each finds one of its 99 names free |
| DeviceMap.EveryDeviceGetsItsId | adapters/libre-hardware-monitor/src/mapping.rs:161-273 | nothing is reported exactly when no two nodes ask for one id, and then the devices are every channel with something to offer and every node whose sensors can be named apart, each under its own candidate |
| DeviceMap.FewAreNameable | adapters/libre-hardware-monitor/src/mapping.rs:185-201 | up to 99 sensors always can be named apart |
| DeviceMap.CrowdedDeviceVanishes | crates/ohm-device-model/src/device.rs:330-347 | a device with a hundred sensors of one name is dropped and nothing says so |
| DeviceMap.OffersWhatIsShown | adapters/libre-hardware-monitor/src/mapping.rs:226-262 | a channel offers a speed to set exactly when it is a pairing shown to be one physical channel, and a speed to read exactly when it has a tachometer, each at its own sensor |
| DeviceMap.HeaderMappedExactly | adapters/libre-hardware-monitor/src/mapping.rs:218-273 | a channel becomes a device exactly when it has something to offer |
| Transaction.Disk.WriteFiles | scripts/versions.py:266-320 | whatever fails and whoever else writes: no other file is touched, success has the new texts, failure leaves what others would have left, what could not be undone keeps a backup, the outcome is explained by what the environment chose, nothing short of a failure or a change prevents success, an input stale from the start keeps every destination from being replaced, and success means that the inputs held until the last replacement |
| Transaction.AllOrNothing | scripts/versions.py:266-320 | with no edit by others while the call runs and no failure among the steps of the rollback, all new texts under the old permissions or all old bytes, and no temporary file, whatever fails before |
| Transaction.DoneFromFreshInputs | scripts/versions.py:295-297 | when the call succeeds, nobody wrote an input that it read and did not replace before its last destination was replaced |
| Transaction.Disk.StageAll | scripts/versions.py:280-291 | every output and every backup is on disk before a destination changes, and each original was seen in place meanwhile |
| Transaction.Disk.CommitAll | scripts/versions.py:292-297 | destinations are replaced in order, each only while it is what was read |
| Transaction.Disk.RollBack | scripts/versions.py:301-316 | undone in reverse, touching only what is still ours; an edit by others is left and its backup kept |
| Transaction.Disk.CleanUp | scripts/versions.py:317-320 | every temporary file goes, except the retained backups |
| Transaction.EvolvesKeeps | scripts/versions.py:243-249 | edits by others keep staged, replaced and restored records what they are |
| Catalogue.Validate | scripts/versions.py:51-119 | accepts exactly the non-empty catalogues whose entries pass their own checks, whose ids are distinct, whose parents form a forest, and whose `development` names the sole entry under way; a refusal names the first entry at fault and what is wrong with it |
| Catalogue.ActiveIs | scripts/versions.py:116-118 | the list of active ids is what `development` says exactly when it names the one entry under development, or there is none |
| Catalogue.WalkUp | scripts/versions.py:108-115 | the climb by parents ends, and reaches a root exactly when one is reachable; otherwise it names an ancestor that is its own ancestor, or one that is missing |
| Catalogue.Printer.Visit | scripts/versions.py:177-183 | the recursion ends on an accepted catalogue and appends the lines below a parent |
| Catalogue.PrintTree | scripts/versions.py:173-186 | prints exactly the accepted catalogues, as the tree of their entries |
| Catalogue.EachVersionOnce | scripts/versions.py:173-186 | every version of an accepted catalogue is printed exactly once, and nothing else |
| Catalogue.PrintCounts | scripts/versions.py:177-183 | siblings print an entry once when it lies within one of them, and otherwise not |
| Drawing.TreeReadsBack | scripts/versions.py:173-186 | the tree can be read back from its lines: a line hangs below the nearest line one level less, which is its parent and whose column it continues, and lists go on exactly as their branches say, in catalogue order |
| Drawing.BranchesEnd | scripts/versions.py:177-183 | a branch ends exactly at the entry after which the catalogue lists no sibling of it |
| Thermal.ComputeLoad | adapters/mock/src/model.rs:50-81 | the accumulating loop finds the stage |
| Thermal.StepsRepeat | adapters/mock/src/model.rs:65-79 | a stepped profile repeats, and gives the load of the stage a time falls in |
| Thermal.MockState.Step | adapters/mock/src/model.rs:389-424 | one call advances clock, loads and temperatures |
| Thermal.MoreAirflowNeverHotter | adapters/mock/src/model.rs:389-424 | over every run, pointwise more airflow and no hotter start is never hotter in GPU, CPU or SSD |
| Thermal.AdvanceBounds | adapters/mock/src/model.rs:398-424 | after an effective step each temperature is at least ambient and at most the larger of its old value and its target |
| Thermal.Equilibrium | adapters/mock/src/model.rs:398-424 | where each temperature tends, in numbers, under constant loads and duties |
| Thermal.Converges | adapters/mock/src/model.rs:380-424 | under constant loads and duties every temperature closes on its equilibrium by the same part of the distance in each step, exactly, over any number of steps |
| Thermal.FullLoadBound | adapters/mock/src/model.rs:389-424 | no run under any load passes the start or the full-load heat |

## Left out

- Responsibility.ResponsibilityNeverLost: every load must leave ids unambiguous about their channel (`Limits.AmbiguousIdsLose` shows the condition cannot be dropped), and a write the adapter refuses does not count as issued (`Limits.RefusedWriteLeavesNoTrace` states what it leaves).
- CrashSafety.RecordCoversMemory: every record save that an operation attempts succeeds.
- Tracking.TrackingBound: excludes steps in which the failure policy writes, or a curve write is refused or fails; `Tracking.RefusedFallWaits` and `Tracking.FailSafeKeepsAnchor` show why. The memory being cleared by a rule edit or a reset between evaluations is not a step of the run.
- Hwmon.OriginalSurvives: a crash leaves the current list published; the stretch between taking a channel and the next publication is not modelled, nor is a third program writing the ownership file.
- Transaction.Disk.WriteFiles: the check that a file is unchanged and its replacement are one step, as are the check and the undo; removing a temporary file always succeeds; nobody else touches our temporary files.
- EngineMachine.AutomationEngine.BuildRecoveryRecord: lists holds in rule order, where the program iterates a hash map; with two rules of one id the hold is listed twice.
- The handover book is a value that the engine object replaces, not an object of its own; its history, reports, reasons and timestamps are left out.
- Locks, background threads, the event bus, logging, audit and message text: each engine operation is one step, and an edit does not race with a write in flight.
- The rule store: a save or delete that fails half-way, and a record that cannot be read back.
- The runtime's safety policy and its clamping: a device write is one of applied with or without a number, unconfirmed, refused or failed.
- Counters, due times and status texts of the evaluator; due times are modelled in the engine.
- Reading sensors, aggregating several of them, and staleness itself: readings are inputs.
- Floating-point rounding: outputs and temperatures are reals.
- The text of sysfs files: an ownership file holds a number or something that is not one.
- Which device id or capability id a node's name suggests, labels, pumps by name, and metadata: candidates are inputs.
- Catalogue.Validate: the checks of the schema and repository, and those of one entry's own fields, are one answer each, given with the entry; the text of a printed line beyond prefix, branch and id is left out.
- Wave load profiles, sensor noise, tachometer readings and power of the simulated machine.
- The HTTP client, JSON parsing, NVML, WMI, the CLI, the user interface, release tooling and packaging.

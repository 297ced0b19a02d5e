# Verification of onomazo's core

A Dafny 4.11 model of the parts of onomazo that decide which device gets which name and what is
sent to the device managers, with proofs. Check it with `dafny verify dfyconfig.toml`.

## What is modelled

**The name planner** (`PlannerModel` to `PlannerResolve`). A policy is a value whose compiled
expressions, pattern and case folding are arbitrary functions; expressions may fail or give a value of
the wrong type. `PlannerProgram` and `PlannerResolve` follow the Go code statement by statement over an
array of work items, with positions in that array for the references the Go code holds and arbitrary picks for map
iteration. They are proved equal to functions, and the laws are proved of these functions:
determinism, distinct names, what names may be met, an exact suffix search, and how many
applications it takes until a plan has nothing left to do. `PlannerVariables`, `PlannerEvaluation`,
`PlannerRanks` and `PlannerOutcome` tell evaluation, order and every item of the plan from what a policy's expressions give.

**The rename ledger and the reconcile protocol** (`LedgerModel` to `ProtocolBounds`). The ledger is a
class over a store whose saves may fail before or after the file is replaced; `LedgerAnswers` tells its
answers and entries field by field. The protocol is a state
machine over prepare, observe, call, mark, abort and crash events; its laws hold over whole runs.

**Applying a plan** (`ServiceModel` to `Reconcile`). The prepare loop and the workers write results in
place. The pool is a transition system of any number of workers, whose marks may fail to be saved and whose
jobs may be skipped by a cancelled context; its outcome is proved independent of the schedule.
`ServiceRun` proves that cycles of prepare loop and pool are runs of the protocol, and `ServiceBounds` carries its
laws over to them. `Reconciliation` joins caches, planner, ledger and pool into one cycle.

**Caches, overlays, paging, aliases, slug.** The device and user caches are fields of a class, with laws
over any run of cycles. The overlay merge runs in place on heap nodes that come to share children, and is
proved equal to a merge of trees, whose laws include the exact condition under which merging is
associative. Paging runs against an arbitrary server; users are resolved, each with its group check,
against an arbitrary directory.

Strings are sequences of characters; one character of a device name stands for one byte, as Go's `len`
counts. Instants are integers with the zero `time.Time` at 0.

## Where promises and code part

- The README (line 13) promises deterministic collision resolution, and it is deterministic. It is not
  entirely collision-free: a winner is chosen before later groups are decided, so it can be given the name a
  device keeps because its own item is invalidated later, and so can a loser numbered before one that finds
  no suffix. `PlannerNoCollision.CollisionFreeExactly` says exactly when that happens, turn by turn, and
  `PlannerNoCollision.CollisionFreeWithRoom` exactly when it does where losers have room for a suffix;
  `PlannerCollisionExample.WinnerMeetsKeptName` and `PlannerSuffixExample.LoserMeetsKeptName` give an inventory
  for either kind.
- With `preserve_existing`, one application is not always a fixpoint: a device that matches its plain name and
  loses it to a number also loses the preference. `PlannerExact.OneApplyExactly` gives the exact condition,
  `PlannerExample.PreferenceNeedsTwoApplies` an inventory that fails it, and
  `PlannerReplan.RepeatedApplyConverges` a bound that needs no condition.
- A failed `Prepare` does not always restore the ledger; `LedgerLaws.FailedPrepareLosesStale` says exactly when
  it does not, `LedgerExample.FailedPrepareCanLose` gives a ledger for which it does not. A first attempt at
  the zero instant would be written and then refused by `Open` (`LedgerLaws.FirstAttemptNeedsClock`).
- A rename reported as submitted is not always recorded as such: if the save after an acceptance fails, the
  report carries an error and the ledger will submit again. `ServiceReport.ReportsMatchLedger` says exactly when,
  `ServiceExample.AcceptanceCanBeLost` gives a cycle, `ServiceReport.RetryTimesAreExact` the time.
- Merging overlays is not associative in general; `OverlayOrder.MergeAssociates` says exactly when it is,
  `OverlayExample.GroupingMatters` gives three documents for which it is not.

## Model

| member | source | states |
|---|---|---|
| `PlannerSuffix.SearchExact` | internal/planner/planner.go:336-351 | The suffix search finds the least sequence from 1 to 1,000,000 whose name is valid and unoccupied, and fails only if there is none, for length exactly if some suffix is too long: stopping at the first over-long candidate is sound |
| `PlannerSuffix.SearchPigeonhole` | internal/planner/planner.go:336-351 | If the first occupied-count + 1 candidates are all valid, the search succeeds by that sequence |
| `PlannerProgram.FindSequenceName` | internal/planner/planner.go:336-351 | The loop computes that least usable sequence |
| `Decimal.ItoaInjective` | internal/planner/planner.go:339 | Different sequences never render alike, so a suffixed name determines its number |
| `Decimal.ItoaReadsBack` | internal/planner/planner.go:339 | A rendering consists of digits, without a leading zero, and reads back as the number |
| `Decimal.ItoaLengthMonotone` | internal/planner/planner.go:338-343 | A larger sequence never renders shorter, which is what makes the early exit sound |
| `PlannerRanking.BeatsConnected` | internal/planner/planner.go:307-334 | Between validated candidates the comparator neither panics nor reads out of range, and exactly one of two distinct devices beats the other |
| `PlannerRanking.BeatsTransitive` | internal/planner/planner.go:307-334 | The comparator is transitive across the preference, every rank direction and the identity tie-break |
| `PlannerRanking.FirstDifferenceDecides` | internal/planner/planner.go:318-326 | Where matching names do not decide, the first differing rank does, in its configured direction |
| `PlannerRanks.RanksExactly` | internal/planner/planner.go:213-229 | A candidate stays one exactly if every rank expression gives a value of its own comparable kind for its device and user, and then carries exactly the integers, texts and instants they give; otherwise it is invalid for the first that does not. Nothing else changes |
| `PlannerRanks.BeatsExactly` | internal/planner/planner.go:307-334 | Of two contenders for a name the comparator puts one first exactly if its record comes first: by the preference for the name it already has, else by the value of the first rank expression that differs, in the configured direction, else by source, namespace and ID |
| `Ordering.BelowExactly` | internal/planner/planner.go:80-88 | Strings compare by proper prefix, or by the first byte that differs |
| `Ordering.KeyBelowExactly` | internal/planner/planner.go:80-88 | Identities compare by source, then namespace, then ID |
| `PlannerRanking.PreferenceAndTies` | internal/planner/planner.go:308-317 | A preferred matching name comes before every rank; full ties go to the smaller identity |
| `PlannerRanking.RankGroupOrders` | internal/planner/planner.go:262-264 | Sorting a group by the comparator gives a strictly descending order of preference over exactly its members |
| `PlannerResolve.SortedGroup` | internal/planner/planner.go:262-284 | The two sorts of a group agree, whatever the first pass has written into its items in between |
| `PlannerExact.NumbersFollowRank` | internal/planner/planner.go:280-303 | Of two numbered candidates with the same base name, the better one has the smaller number, even across platforms with different length limits |
| `PlannerEvaluation.FirstOverrideDecides` | internal/planner/planner.go:114-136 | The first override that does not evaluate to false decides, in full: failure invalidates, exclusion excludes, a fixed name is taken verbatim and is invalid for its exact fault |
| `PlannerEvaluation.FirstUnboundDecides` | internal/planner/planner.go:138-147 | Without an override, the first variable that does not bind decides: unresolved if its cases work and differ, invalid for the first case that does not work |
| `PlannerEvaluation.FirstRuleDecides` | internal/planner/planner.go:150-171 | Without an override and with all variables bound, the first rule that does not evaluate to false decides: it names the device, or the item is invalid because the rule, its name or the limits fail |
| `PlannerEvaluation.PathDecides` | internal/planner/planner.go:99-176 | Whichever way a record goes, told from what its expressions give, its work item is exactly what that way leads to |
| `PlannerEvaluation.SomePathIsFollowed` | internal/planner/planner.go:99-176 | Every record goes one of these ways: override, variable, rule, or none of them |
| `PlannerEvaluation.StatusExactly` | internal/planner/planner.go:99-176 | When exactly a record is excluded, unresolved or unmanaged |
| `PlannerEvaluation.CandidatesExactly` | internal/planner/planner.go:99-176 | A record is a candidate for a name, fixed or computed, exactly if its override or rule gives that name and it fits |
| `PlannerEvaluation.FaultExactly` | internal/planner/planner.go:353-376 | A name is valid exactly if it is non-empty, matches and fits (15 bytes on Windows, 63 on iOS and macOS, the policy maximum everywhere); otherwise the fault is the first of emptiness, length over the exact limit, and pattern |
| `PlannerVariables.VariablesExactly` | internal/planner/planner.go:178-211 | Each outcome if and only if: all variables are bound exactly if every one has working cases whose matching values agree, to what they agree on; a conflict or an error exactly for the first variable that does not bind, as its cases work or not, with the reason of the first case that fails |
| `PlannerVariables.CollectExactly` | internal/planner/planner.go:182-202 | The values collected are exactly those of the cases whose conditions are true; a case that fails is reported, and the first such |
| `PlannerProgram.EvaluateCases` | internal/planner/planner.go:182-202 | The loop over a variable's cases collects the values the law above speaks of |
| `PlannerProgram.EvaluateVariables` | internal/planner/planner.go:178-211 | The loop over sorted variable names ends as PlannerVariables.VariablesExactly says |
| `PlannerProgram.EvaluateRecord` | internal/planner/planner.go:99-176 | Evaluating one record refines the specification the laws above speak of |
| `PlannerProgram.EvaluateRules` | internal/planner/planner.go:150-176 | The loop over rules refines the first-match specification |
| `PlannerProgram.EvaluateRanks` | internal/planner/planner.go:213-229 | In place, every candidate is ranked as PlannerRanks.RanksExactly says; other items are untouched |
| `PlannerPlan.PlanIgnoresOrder` | internal/planner/planner.go:58-97 | Any permutation of the records gives the same plan, item by item, or the same refusal |
| `PlannerPlan.PlanIsTotalAndValid` | internal/planner/planner.go:58-97 | One item for each record, in identity order, each with one of the six statuses and the record's data; finished names are valid and fixed names kept verbatim |
| `PlannerOutcome.ContendersExactly` | internal/planner/planner.go:58-97 | Collision resolution starts with exactly the records that an override or rule gives a fitting name and whose rank expressions all work, each with that name |
| `PlannerOutcome.PlannedExactly` | internal/planner/planner.go:231-305 | Every item of the plan in full: who does not contend keeps the item of its evaluation; who is turned away is invalid for the clash or the holder; a winner has the plain name; a loser has it with the separator and the number of its first free suffix, or is invalid for length or exhaustion; a finished item is renamed or unchanged as its name differs or not |
| `PlannerOutcome.FirstRecordWins` | internal/planner/planner.go:261-266 | A name that is neither held nor fixed goes to exactly the record that no other contender precedes, told by their own rank expressions |
| `PlannerOutcome.PrecedesConnected` | internal/planner/planner.go:307-334 | Of two contenders for one name exactly one precedes the other |
| `PlannerOutcome.FirstRecordHasSmallerNumber` | internal/planner/planner.go:280-303 | Of two records numbered under one name, the one that comes first has the smaller number |
| `PlannerOutcome.PlannedNamesFit` | internal/planner/planner.go:353-376 | Every finished name is non-empty, matches the pattern, and fits: 15 bytes on Windows, 63 on iOS and macOS, the policy maximum everywhere |
| `PlannerPlan.PlanNamesDistinct` | internal/planner/planner.go:231-305 | Any two finished items have different folded names |
| `PlannerPlan.PlanAvoidsBystanders` | internal/planner/planner.go:231-242 | No finished name equals the folded, non-empty current name of a device that was no candidate on entry |
| `PlannerFirstPass.FirstPassExactly` | internal/planner/planner.go:244-267 | Told from the prepared items alone: a candidate is turned away exactly if two items fix its name, or its own fixed name is held by a bystander or by a device that an earlier group turned away, and for that reason; it wins exactly if the name is free and nobody has a better claim; otherwise it is left to be numbered |
| `PlannerFirstPass.TakenExactly` | internal/planner/planner.go:232-278 | After the first pass the reserved names are exactly the current names of bystanders and of everybody turned away |
| `PlannerFirstPass.NobodyTurnedAwayExactly` | internal/planner/planner.go:251-258 | The first pass turns nobody away if and only if no two items fix one name and no bystander is called by a fixed name |
| `PlannerRoom.RoomyLoserIsNumbered` | internal/planner/planner.go:289-303 | A loser with at least as many valid suffixed names as there are devices is numbered |
| `PlannerRoom.CrampedLoserIsTurnedAway` | internal/planner/planner.go:289-303 | A loser without any valid suffixed name is turned away |
| `PlannerRoom.NobodyTurnedAway` | internal/planner/planner.go:231-305 | With free fixed names and room for every loser, collision resolution turns nobody away |
| `PlannerSecondPass.SecondPassExactly` | internal/planner/planner.go:280-304 | A loser is turned away exactly if each of its valid suffixed names is kept from the first pass or was left taken by a loser of an earlier group or a better-placed one of its own, for length exactly if some suffix is too long; otherwise it gets the least suffix that is not |
| `PlannerSecondPass.NobodyRejectedExactly` | internal/planner/planner.go:231-305 | Nobody at all is turned away if and only if the fixed names are free and every loser finds a free suffixed name |
| `PlannerNoCollision.WinnerMeetsExactly` | internal/planner/planner.go:246-303 | A winner is given a name another candidate is called and keeps exactly if that candidate is of a later group that turns it away, or is a loser that finds all its suffixed names taken |
| `PlannerNoCollision.CollisionFreeExactly` | internal/planner/planner.go:231-305 | No finished name is the name another named device ends up with if and only if no winner is to be called what a device of a later group, which turns it away, is called, and nobody is given what a loser is called that afterwards finds all its suffixed names taken |
| `PlannerNoCollision.CollisionFreeWithRoom` | internal/planner/planner.go:231-305 | If every named loser has as many valid suffixed names as there are devices, the prepared items alone decide: the plan is free of collisions if and only if no winner is to be called what a device of a later group, which turns it away, is called |
| `PlannerNoCollision.PlanLeavesNoCollision` | internal/planner/planner.go:231-305 | With free fixed names and room for every loser, nobody is turned away and no finished name equals the name any other named device ends up with |
| `PlannerPlan.FixedNamesNeverNumbered` | internal/planner/planner.go:289-293 | The branch that refuses to suffix a fixed name is unreachable |
| `PlannerNames.SuffixAvoidsEarlierRejects` | internal/planner/planner.go:289-299 | No suffixed name equals the current name of an item invalidated before that suffix was chosen |
| `PlannerLate.WinnerAvoidsEarlierRejects` | internal/planner/planner.go:246-267 | No winner takes the current name of a device that an earlier group has turned away |
| `PlannerLate.NamesMetAreLater` | internal/planner/planner.go:231-305 | Whatever room losers have, a settled name, suffixed or not, can equal the name another device keeps only if that device is turned away after the name was given |
| `PlannerCollisionExample.WinnerMeetsKeptName` | internal/planner/planner.go:251-258 | A concrete inventory where that happens: a winner is given a name that a device invalidated by a later group keeps |
| `PlannerSuffixExample.LoserMeetsKeptName` | internal/planner/planner.go:280-303 | A concrete inventory of the other kind: a loser is numbered into the name that a later loser keeps for want of a suffix |
| `PlannerNames.ResolvedTotal` | internal/planner/planner.go:231-305 | Collision resolution decides every candidate and nothing else |
| `PlannerResolve.GroupWork` | internal/planner/planner.go:232-242 | Reserved names and groups are those of the specification |
| `PlannerResolve.AuthoritativeItems` | internal/planner/planner.go:466-474 | The fixed-name items of a group, in order |
| `PlannerResolve.DecideWinners` | internal/planner/planner.go:244-267 | The first pass, in place: winners, rejections and reserved names are those of the specification |
| `PlannerResolve.FinishWinners` | internal/planner/planner.go:269-278 | Visiting the winners in any order finishes exactly them and occupies exactly their names |
| `PlannerResolve.NumberLosers` | internal/planner/planner.go:280-304 | The second pass, in place: every loser is numbered or invalidated as the specification says |
| `PlannerResolve.ResolveCollisions` | internal/planner/planner.go:231-305 | Both passes over the array of work items refine the specification, whatever order maps are visited in |
| `PlannerResolve.EvaluateInventory` | internal/planner/planner.go:60-78 | The inventory is refused exactly when two records share an identity |
| `PlannerResolve.SortWork` | internal/planner/planner.go:80-88 | The array of work items is sorted by identity |
| `PlannerResolve.PlanRecords` | internal/planner/planner.go:58-97 | The whole planner computes the specified plan, and refuses exactly on a shared identity |
| `PlannerReplan.AppliedIsRenamed` | internal/planner/planner.go:58-97 | If no expression reads current names, applying a plan and evaluating again changes nothing but current names |
| `PlannerFixpoint.FirstPassStable` | internal/planner/planner.go:231-278 | After a plan has been applied the first pass decides the same again, preserve_existing or not |
| `PlannerFixpoint.WinnerStaysFirst` | internal/planner/planner.go:262-265 | A winner by rank is ranked first again once renames have taken effect |
| `PlannerReplan.OneApplyConverges` | internal/planner/planner.go:58-97 | Without preserve_existing, one application leaves nothing to do: same desired names, every finished item unchanged, even if items were invalidated |
| `PlannerExact.OneApplyConvergesIfHoldersWin` | internal/planner/planner.go:307-317 | With preserve_existing the same holds if no device that loses its plain name is called by it |
| `PlannerExact.OneApplyExactly` | internal/planner/planner.go:280-317 | If the losers of every name that a loser matches have room and one spelling: one application is enough if and only if among the losers of one name none that matches it is put before a better-ranked one that does not |
| `PlannerReplan.SecondApplyChangesNothing` | internal/planner/planner.go:58-97 | Where one application is enough, applying the second plan changes no name |
| `PlannerExample.PreferenceNeedsTwoApplies` | internal/planner/planner.go:307-317 | A concrete inventory where one application with preserve_existing is not enough and two are |
| `PlannerExact.TwoAppliesConverge` | internal/planner/planner.go:231-334 | With preserve_existing the third plan leaves nothing to do, if every loser that matches its plain name has as many valid suffixed names as there are devices |
| `PlannerReplan.RepeatedApplyConverges` | internal/planner/planner.go:58-97 | Without any such condition, at most one application per device reaches a plan with nothing left to do |
| `LedgerModel.SnapshotOrder` | internal/state/ledger.go:232-247 | A snapshot is strictly ordered by key and holds exactly the ledger's intents |
| `LedgerModel.LoadSnapshot` | internal/state/ledger.go:18-44 | Opening a snapshot of valid intents gives back the same map |
| `LedgerLaws.PerformTouches` | internal/state/ledger.go:46-199 | No operation, successful or failed, alters another device's intent, and with a real clock intents stay acceptable to Open |
| `LedgerLaws.PerformInStep` | internal/state/ledger.go:208-230 | With an atomic store, after every operation, successful or failed, the store equals the snapshot of the map |
| `LedgerLaws.RunsReopen` | internal/state/ledger.go:18-44 | Over any run of operations, reopening the store gives back the map, and the stored intents are strictly sorted |
| `LedgerLaws.FirstAttemptNeedsClock` | internal/state/ledger.go:78-93 | A first attempt is acceptable to Open if and only if the clock was not at the zero instant |
| `LedgerLaws.FailedPrepareRestores` | internal/state/ledger.go:63-93 | A failed prepare restores the map unless it had to clear a stale serial number first |
| `LedgerLaws.FailedPrepareLosesStale` | internal/state/ledger.go:63-69 | The stale intent is lost if and only if its deletion was saved before the failure |
| `LedgerExample.FailedPrepareCanLose` | internal/state/ledger.go:63-93 | A concrete ledger and request where that happens: the prepare fails and neither the old intent nor a new one is left |
| `LedgerLaws.RetryTimeIsExact` | internal/state/ledger.go:95-105 | The announced retry time is the first instant at which the same request stops being pending |
| `LedgerAnswers.AnswerExactly` | internal/state/ledger.go:46-133 | Every answer and the entry it leaves, field by field: observed, first submission, accepted, failed with its reason, waiting until its instant, submitted once more, or given up with its last reason or the number of attempts |
| `LedgerAnswers.BadRequestExactly` | internal/state/ledger.go:267-284 | A request is refused exactly if a part of it is empty or an interval or limit is not positive |
| `LedgerAnswers.SaveFailedExactly` | internal/state/ledger.go:63-131 | An answer is missing exactly if the deletion of an outdated intent, or then the write it depends on, is not saved |
| `LedgerAnswers.MarkExactly` | internal/state/ledger.go:135-172 | A saved mark records how the call ended and its reason in the entry of a request that is still current, and changes nothing else |
| `LedgerAnswers.ForgetsExactly` | internal/state/ledger.go:174-199 | Observing forgets an intent exactly if its name is visible or its serial number outdated and the save succeeds; cancelling forgets any |
| `LedgerAnswers.RefusalIsRemembered` | internal/state/ledger.go:95-172 | A refusal for good, once marked, is what every later request for the rename is answered: failed, with that reason and the attempts made, after any run that keeps wanting it |
| `LedgerAnswers.GivingUpIsRemembered` | internal/state/ledger.go:102-159 | Once attempts are used up and that is saved, every later request is answered with the reason of the last transient refusal, or the number of attempts if it gave none |
| `LedgerAnswers.LoadExactly` | internal/state/ledger.go:18-44 | A stored file is refused exactly if an intent is malformed or two are for one device; what is loaded otherwise holds exactly its intents |
| `LedgerLaws.FinalIsNeverResubmitted` | internal/state/ledger.go:46-199 | Once a rename is accepted or has finally failed, no run of operations that keeps wanting it, on whatever other devices it operates and however its saves end, changes its intent or is told to submit it again |
| `LedgerProgram.Store.Save` | internal/state/file.go:133-181 | A save is written, refused before the file was replaced, or reported as failed after it was |
| `LedgerProgram.TakeSnapshot` | internal/state/ledger.go:232-247 | Collecting the map in any order and sorting gives the snapshot |
| `LedgerProgram.LoadIntents` | internal/state/ledger.go:27-43 | The loop accepts exactly valid intents without repeated keys |
| `LedgerProgram.Ledger.Open` | internal/state/ledger.go:18-44 | Opening fails exactly when the store cannot be read or its contents are refused |
| `LedgerProgram.Ledger.PutLocked` | internal/state/ledger.go:208-220 | Writing an entry and rolling it back if the save fails |
| `LedgerProgram.Ledger.DeleteLocked` | internal/state/ledger.go:222-230 | Deleting an entry and restoring it if the save fails |
| `LedgerProgram.Ledger.Prepare` | internal/state/ledger.go:46-133 | Refines the specified decision and state change, branch by branch, with every save failure |
| `LedgerProgram.Ledger.Mark` | internal/state/ledger.go:135-172 | The three marks record what LedgerAnswers.MarkExactly says, and only while the request is current |
| `LedgerProgram.Ledger.Observe` | internal/state/ledger.go:174-189 | Clears an intent whose name is visible or whose serial number is stale, and tells whether it did |
| `LedgerProgram.Ledger.Cancel` | internal/state/ledger.go:191-199 | Removes an intent if there is one |
| `Protocol.StepStaysSafe` | internal/app/service.go:271-429 | Every step keeps each job written ahead in map and store, through save failures on either side of the write and through crashes |
| `Protocol.RunsStaySafe` | internal/app/service.go:271-429 | Every run from an empty store stays safe |
| `Protocol.CallsAreWrittenAhead` | internal/app/service.go:303-403 | At every provider call, map and store hold a retrying intent for exactly that key, serial number and name |
| `Protocol.CrashReopens` | internal/state/ledger.go:18-44 | After a crash the ledger holds exactly the stored intents and no job is left; it does not start on a malformed or repeated one |
| `ProtocolBounds.StepStaysBounded` | internal/state/ledger.go:46-172 | Each step keeps calls within persisted attempts, attempts within the limit, and submissions a retry interval apart |
| `ProtocolBounds.SubmissionsAreBounded` | internal/app/service.go:271-429 | Over every run with crashes that keeps wanting one rename, provider calls never exceed persisted attempts nor these the limit, and submit decisions are at least the retry interval apart |
| `ProtocolBounds.SettledStaysSettled` | internal/app/service.go:403-424 | Once an acceptance or a permanent rejection is saved, the rest of the run submits and calls nothing |
| `WorkerPool.MovesStayConsistent` | internal/app/service.go:346-376 | Every move of every worker touches only its own result and its own ledger entry |
| `WorkerPool.FatesDecide` | internal/app/service.go:346-391 | Whatever the number of workers and the interleaving, results, joined error, ledger map and provider calls depend only on which jobs were skipped by a cancelled context and which marks were saved |
| `WorkerPool.ScheduleIndependence` | internal/app/service.go:346-391 | With saves that succeed and no cancellation, any number of workers and any interleaving end in the same results, the same joined error and the same ledger map, with one provider call per job |
| `WorkerPool.FourMovesPerJob` | internal/app/service.go:357-376 | No schedule of the pool is longer than four moves per job |
| `WorkerPool.NeverStuck` | internal/app/service.go:357-376 | With a worker and an unfinished job some move is always possible |
| `ServiceModel.SubmittedAgainExactly` | internal/app/service.go:403-460 | Asking again after a submission, in full: pending for ever after a marked acceptance; failed with its reason after a marked refusal with status 400, 404, 405, 410 or 422; otherwise pending until the interval is over, then submitted once more or, with its attempts used up, failed with the marked reason or their number |
| `ServiceOutcome.JobsReportExactly` | internal/app/service.go:325-460 | However workers interleave, every job submits its item under its device and serial number (or provider ID), and its report and ledger entry are exactly what the reply and the save of its mark come to |
| `ServiceReport.PrepareTells` | internal/app/service.go:303-343 | Preparing one rename notes exactly what the ledger then holds; if a save fails, exactly a stale intent whose deletion was saved is gone |
| `ServiceReport.PrepareAllIsDisjoint` | internal/app/service.go:282-344 | However the prepare loop ends, by itself, at a failed save, which its result then says, or at a cancelled context, every rename before that point is noted as the ledger holds it, every other device has been observed and keeps no intent that came true, and the jobs have distinct results and distinct, current ledger entries |
| `ServiceReport.ReportsMatchLedger` | internal/app/service.go:271-429 | After any drained cycle, with failing saves and skipped jobs: failed means failed with the recorded reason, submitted means submitted, pending without a retry time means submitted, pending with one means retrying until exactly that time, each with the attempts the ledger counts; a report fails to tell what the ledger holds if and only if it is a submission with an error, which is exactly an acceptance whose mark was not saved |
| `ServiceExample.AcceptanceCanBeLost` | internal/app/service.go:403-414 | A concrete cycle where that happens: reported as submitted, with an error, and submitted again from its retry time on |
| `ServiceReport.RetryTimesAreExact` | internal/app/service.go:271-429 | The retry time reported by a cycle is the first instant at which asking again for the same rename stops being answered pending; pending or submitted without one and without an error is answered pending for ever |
| `ServiceProgram.PrepareRenames` | internal/app/service.go:282-344 | The loop writes results in place and stops at the first error or cancelled context, as specified |
| `ServiceProgram.SubmitRename` | internal/app/service.go:393-429 | One call is followed by exactly one mark, and the result reports it, whether or not the save succeeds |
| `ServiceProgram.SubmissionIsItsMoves` | internal/app/service.go:358-374 | A worker that takes a job and submits it makes exactly the moves take, call, mark and write of the pool; one that finds the context cancelled takes and skips it |
| `ServiceProgram.WorkAlone` | internal/app/service.go:358-374 | One worker running whole submissions ends where the pool does |
| `ServiceProgram.RunWorkers` | internal/app/service.go:346-376 | Whichever worker moves and however saves end, the workers follow a schedule of the pool that drains the channel: every job is submitted or skipped once |
| `ServiceOutcome.JoinedExactly` | internal/app/service.go:378-390 | The joined error has one entry for each result with an error, at the position the errors before it give it, with its device and text; it is empty exactly if no result carries one |
| `ServiceProgram.JoinErrors` | internal/app/service.go:378-390 | The loop joins exactly those errors |
| `ServiceProgram.Apply` | internal/app/service.go:271-391 | A whole apply: if the prepare loop stops, no worker starts and its results stand; otherwise every rename is reported as the ledger holds it, save for acceptances that could not be saved, and the joined error lists exactly the results that carry one; the ledger ends as a cycle of the run below leaves it |
| `ServiceRun.CycleIsARun` | internal/app/service.go:271-391 | One apply, however it ends and wherever it is interrupted, is a run of the protocol from the ledger it finds to the ledger it leaves |
| `ServiceRun.CyclesAreARun` | internal/app/service.go:271-391 | So is any sequence of applies and crashes |
| `ServiceBounds.CyclesAreBounded` | internal/app/service.go:271-429 | Over any number of applies that keep wanting a rename, with any workers, interleaving, failing saves, cancellation and crashes: provider calls never exceed the attempts in the store nor the limit, and the cycles that decide to submit are at least the retry interval apart |
| `ServiceBounds.FinalAnswersAreFinal` | internal/app/service.go:403-424 | Once a cycle has saved an acceptance or a permanent rejection, no later cycle decides to submit the rename or calls the provider for it |
| `Reconciliation.PlanFeedsApply` | internal/app/service.go:149-163 | What the planner returns always meets what apply needs: distinct keys and requests the ledger accepts |
| `Reconciliation.PlanCycle` | internal/app/service.go:129-148 | Reading and planning fail exactly on unresolved users or a shared identity, and otherwise plan what the caches answer |
| `Reconciliation.Reconcile` | internal/app/service.go:118-164 | A cycle without apply leaves the ledger alone; with apply it ends as Apply says, whatever the saves and the context do, and without failures every rename tells what the ledger holds |
| `Reconciliation.NextCycleIsQuiet` | internal/app/service.go:118-164 | Once planning again has nothing left to do, with or without preserve_existing, the next cycle submits nothing and, unless stopped, forgets every intent that has come true |
| `Reconciliation.CyclesBecomeQuiet` | internal/app/service.go:118-164 | Whatever the policy prefers, after at most one application for each device, and one more, a cycle submits nothing |
| `CacheLaws.CacheHoldsTheSnapshot` | internal/app/service.go:206-231 | After every cycle the device cache has exactly the keys of the snapshot |
| `CacheLaws.ListingIsUpToDate` | internal/app/service.go:206-231 | Over any run, a listed device has the incoming key, serial number, user, platform, name and last-seen time, and all else from one snapshot younger than the TTL, the device having been listed ever since |
| `CacheLaws.ExpiredCacheReadsThrough` | internal/app/service.go:216-217 | Once all earlier snapshots have expired, a listing is a direct read |
| `CacheDetails.ListingExactly` | internal/app/service.go:206-231 | Over any run of snapshots without repeated keys, each listed device is the last snapshot's with the details of the cycle that filled its entry: the last in which its key was new, its serial number, user or platform had changed, or the details had expired |
| `CacheDetails.DetailsAreKept` | internal/app/service.go:216-221 | Details a cycle filled in are answered by every later cycle, as long as the key stays listed with the same serial number, user and platform and they are in date |
| `CacheAnswers.AskedExactly` | internal/app/service.go:237-249 | A cycle asks for a user exactly if it has a device of that user and no answer that was kept is in date |
| `CacheAnswers.FoundExactly` | internal/app/service.go:250-269 | A cycle fails exactly if the resolver is asked and fails; otherwise it knows exactly the users its devices name, each as in the answer that was kept, or as nobody |
| `CacheAnswers.AnswersAreKept` | internal/app/service.go:237-268 | A user resolved less than the TTL ago, with a device in every cycle since, is not asked for again and is known as answered then |
| `CacheLaws.UsersAreUpToDate` | internal/app/service.go:233-269 | With an identity source, what a cycle knows of a user was answered less than the TTL ago |
| `CacheLaws.UserCacheKeys` | internal/app/service.go:250-268 | A resolved cycle caches active users only, all of them with an identity source; a failed one changes no cached user |
| `CacheLaws.ListingKeepsUsers` | internal/app/service.go:129-131 | Resolving users for the listed devices is resolving them for the snapshot |
| `CacheProgram.Service.RefreshDevices` | internal/app/service.go:206-231 | The loop and the removal of inactive entries, in place; what they answer over a run is CacheDetails.ListingExactly |
| `CacheProgram.Service.ResolveUsers` | internal/app/service.go:233-269 | Lookup, storing and removal, in place, including the failing lookup; what they answer over a run is CacheAnswers.FoundExactly |
| `CacheProgram.Service.ReadInventory` | internal/app/service.go:129-142 | Both caches over a cycle, kept equal to what the whole history determines |
| `OverlayLaws.MergeKeepsOrder` | internal/config/load.go:143-159 | Base keys keep their places and the overlay's new keys follow in the overlay's order |
| `OverlayLaws.MergeLookup` | internal/config/load.go:143-169 | A key's merged value depends on its two values alone |
| `OverlayLaws.MergeAtPath` | internal/config/load.go:143-169 | What a merge holds at any path: both values merged, the overlay's alone, or the base's unless the overlay blocks the way |
| `OverlayLaws.MergeStaysUnique` | internal/config/load.go:143-159 | Keys stay unique at every depth |
| `OverlayLaws.MergeIdempotent` | internal/config/load.go:143-159 | Merging a document into itself changes nothing |
| `OverlayLaws.ReapplyChangesNothing` | internal/config/load.go:143-159 | Applying the same overlay twice is applying it once |
| `OverlayLaws.LastFileWins` | internal/config/load.go:28-42 | A setting that is not a mapping comes from the last file that says anything about its path |
| `OverlayOrder.ContainedMerge` | internal/config/load.go:143-159 | Merging gives the overlay back exactly when the overlay starts with everything the base says |
| `OverlayOrder.SameKeyOrder` | internal/config/load.go:143-159 | Key order does not depend on how three merges are grouped |
| `OverlayOrder.MergeAssociates` | internal/config/load.go:143-159 | Three documents merge alike in either grouping, key order included, if and only if nowhere a mapping is replaced by something else and then becomes a mapping that lacks part of it |
| `OverlayExample.GroupingMatters` | internal/config/load.go:143-159 | Three concrete documents for which the grouping matters |
| `OverlayProgram.MappingValue` | internal/config/load.go:161-169 | The loop finds the first entry with the key's tag and value |
| `OverlayProgram.MergeNode` | internal/config/load.go:143-159 | The recursive merge in place, on nodes that come to share children with the overlay, computes the merged document and writes to base nodes only |
| `OverlayProgram.RejectDuplicateKeys` | internal/config/load.go:123-141 | Refuses exactly documents in which some mapping repeats a key identity |
| `OverlayProgram.AcceptedIsUnique` | internal/config/load.go:123-141 | A document that was not refused has unique keys at every depth, which is what the merge laws ask for |
| `OverlayProgram.IdentityTells` | internal/config/load.go:128 | Key identities tell keys apart as long as no tag holds the separator |
| `OverlayProgram.LoadDocuments` | internal/config/load.go:28-42 | Loading fails exactly on a file that is no mapping or repeats a key, and otherwise yields all files merged in order |
| `PagingModel.CompleteOnce` | internal/provider/jamf/inventory.go:26-69 | At most one number of pages makes a whole inventory |
| `PagingModel.RefusedMeansNone` | internal/provider/jamf/inventory.go:163-174 | A page the loop refuses means no number of pages makes a whole inventory |
| `PagingModel.RowAt` | internal/provider/jamf/inventory.go:26-69 | Rows are listed page after page, each page in its own order |
| `PagingProgram.TakeComputers` | internal/provider/jamf/inventory.go:54-63 | The inner loop fails exactly on an empty or repeated ID, for the first row that has one |
| `PagingProgram.OneDeviceEach` | internal/provider/jamf/inventory.go:204-226 | Each row gives one device, field by field, with the first non-blank of email and username and the first readable of three instants |
| `PagingProgram.ListComputers` | internal/provider/jamf/inventory.go:26-69 | Against any server: at most max(1, total) requests; success if and only if the pages make a whole inventory, and then one device per row in page order; otherwise the error is that of the last page requested: its failure, its total, its length or its first bad row |
| `PagingProgram.TakeMobiles` | internal/provider/jamf/inventory.go:103-115 | As for computers, keeping supported rows only |
| `PagingProgram.ListMobileDevices` | internal/provider/jamf/inventory.go:71-121 | The same for mobile devices, where skipped rows count towards the total |
| `PagingProgram.MobileListing` | internal/provider/jamf/inventory.go:103-115 | The mobile result is the order-preserving filter of the rows whose type spells ios in any case, each with its own fields |
| `AliasModel.ChunksPartition` | internal/provider/microsoft/entra.go:135-138 | Requests are non-empty, name at most twenty groups and together list every group once, in order |
| `AliasModel.CompactedSort` | internal/provider/microsoft/entra.go:181-190 | Sorting and compacting any arrangement of the same strings gives their ascending listing |
| `AliasModel.ReportedIsHeld` | internal/provider/microsoft/entra.go:134-155 | However groups are cut into requests, an honest directory gives exactly the aliases with a configured group the user belongs to |
| `AliasModel.FoundIsHeld` | internal/provider/microsoft/entra.go:122-162 | Asked of an honest directory, the check returns the sorted, duplicate-free aliases the user holds |
| `AliasProgram.PrepareGroupAliases` | internal/provider/microsoft/entra.go:164-179 | Visiting aliases in any order gives the same index of sorted, duplicate-free aliases by group |
| `AliasProgram.CheckGroupAliases` | internal/provider/microsoft/entra.go:122-162 | The loop over requests gives the sorted reported aliases, or an error for a missing ID or of the first request that is not answered |
| `UserProgram.GroupsAreHeld` | internal/provider/microsoft/entra.go:81-179 | A user about whom the directory answers honestly is resolved with exactly the aliases it holds, in order and without repeats |
| `UserProgram.MissingIDRefused` | internal/provider/microsoft/entra.go:122-133 | A user without an ID is refused if and only if any group is configured |
| `UserProgram.ResolveUser` | internal/provider/microsoft/entra.go:81-120 | One lookup: the user with its aliases, or the first fault met on the way |
| `UserOutcome.LookupExactly` | internal/provider/microsoft/entra.go:81-162 | What a lookup comes to, told from the directory's replies: every field of the user and exactly the aliases of the reported groups, or the fault of the person, the missing ID or the first request not answered |
| `AliasProgram.UniqueSorted` | internal/provider/microsoft/entra.go:181-190 | The distinct non-empty strings in order |
| `UserProgram.ResolveUsers` | internal/provider/microsoft/entra.go:22-79 | Every identifier is looked up with its group check; replies in any order give each user as looked up, a 404 for the user or its groups gives the zero user, and any other fault fails the call with that of the least identifier |
| `Slugs.Slug` | internal/expression/compiler.go:196-212 | The loop joins the maximal runs of ASCII letters and digits with single hyphens |
| `Slugs.SlugAppend` | internal/expression/compiler.go:199-211 | One more character adds itself, a hyphen and itself, or nothing |
| `Slugs.SlugNormalForm` | internal/expression/compiler.go:196-212 | A slug has no leading, trailing or doubled hyphen, and slug leaves a string alone exactly if that is its form |
| `Slugs.SlugIdempotent` | internal/expression/compiler.go:196-212 | Slug is idempotent |
| `Slugs.SlugKeepsRuns` | internal/expression/compiler.go:196-212 | The runs of a slug are the runs it was made of |
| `Slugs.TrimmingDoesNotMatter` | internal/expression/compiler.go:199 | Whatever trimming takes off does not change the slug |

## Left out

- PlannerRoom.RoomyLoserIsNumbered: assumes that folding leaves trailing digits as they are, which upper-casing does; so do the results built on it and PlannerSuffix.SearchPigeonhole.
- PlannerExact.OneApplyConvergesIfHoldersWin: a sufficient condition only; its exact form is PlannerExact.OneApplyExactly, which assumes room and one spelling for the losers of every name that a loser matches, because a loser turned away or a change of spelling can otherwise make a reordering invisible.
- PlannerExact.TwoAppliesConverge: a sufficient condition only; without room PlannerReplan.RepeatedApplyConverges bounds the number of applications.
- PlannerNoCollision.CollisionFreeExactly: what losers without room meet depends on the numbers given before, so its second case speaks of the outcomes of earlier turns; PlannerNoCollision.CollisionFreeWithRoom needs none of them.
- PlannerNames.SuffixAvoidsEarlierRejects: says nothing of items invalidated after the suffix was chosen, because the code can then give a name that is kept; PlannerLate.NamesMetAreLater covers which names can be met.
- WorkerPool.ScheduleIndependence: assumes saves that succeed and no cancellation, because otherwise the schedule decides which job meets the failure; WorkerPool.FatesDecide covers both.
- ServiceProgram.Apply: assumes a clock past the zero instant and results as the planner gives them; Reconciliation.PlanFeedsApply proves the latter of every plan.
- Reconciliation.Reconcile: assumes a clock past the zero instant and the non-empty source, namespace and ID that listing insists on.
- OverlayProgram.MergeNode: assumes an overlay without repeated keys and documents that share no node, which is how files are read; OverlayProgram.LoadDocuments proves it for each merge.
- OverlayProgram.RejectDuplicateKeys: a key that is itself a mapping or sequence counts with its tag and value only, as in the code; the document model records no more of it.
- CEL compilation and evaluation, regular expressions and Unicode case folding are library code, modelled as arbitrary functions.
- HTTP, OAuth tokens, the Graph SDK, JSON and YAML encoding, YAML anchors and aliases: providers are arbitrary responders and documents are trees.
- Environment placeholders, defaults and validation of the configuration: flat checks. What the planner needs of a validated policy holds by construction, one program beside each configured expression.
- File locking, syncing, temporary files and the migration of version-2 state files: only the outcomes of a load and a save are modelled.
- Cancellation while listing, resolving users or planning: a cycle then ends before its ledger is touched; from the prepare loop on cancellation is modelled.
- Listing several sources concurrently: a cycle starts from the snapshot they give together.
- Mutexes: ledger operations are atomic steps of the protocol and of the worker pool.
- Building the Graph requests: a directory is an arbitrary answer for each user and each list of groups, and does not change while users are resolved.
- Command line, progress, colours, report text, logging and the wording of errors: reasons are data types.
